/** Synchronisation with QuickBooks: fetched accounts become categories, fetched purchases
    become transactions awaiting review, and reviewed transactions are posted back. The
    QuickBooks client is a parameter (`Remote`): each request answers a value or the failure
    it raised. */
module Sync {
  import opened Wrappers
  import opened Json
  import opened Seqs
  import opened Models
  import opened Tables
  import Api
  import Repository

  /** The requests the synchronisation makes of the QuickBooks client. */
  datatype Remote = Remote(
    accounts: Result<seq<Api.QBOAccount>, string>,
    purchases: (Option<Date>, Option<Date>) -> Result<seq<Api.QBOTransaction>, string>,
    purchaseRaw: string -> Result<Json, string>,
    updatePurchase: (Json, seq<Json>) -> Result<Json, string>)

  // ---------------------------------------------------------------------------------------
  // categories

  /** The category `sync_categories` saves for a fetched account. */
  function AccountToCategory(account: Api.QBOAccount, now: Instant): (c: Category)
    ensures c.id.None? && c.isVisible && c.displayOrder == 0
    ensures c.qboId == account.id && c.name == account.name && c.fullName == account.fullName
    ensures c.parentId == account.parentId && c.accountType == account.accountType && c.syncedAt == now
  {
    NewCategory(None, account.id, account.name, account.fullName, account.parentId, account.accountType, now)
  }

  /** The categories table after saving categories, and the rows the saves returned. */
  datatype CategorySync = CategorySync(table: map<int, Category>, next: int, saved: seq<Category>)

  /** Saving the category of each account in turn. */
  function SavedCategories(m: map<int, Category>, next: int, accounts: seq<Api.QBOAccount>, now: Instant): (r: CategorySync)
    decreases |accounts|
  {
    if accounts == [] then CategorySync(m, next, [])
    else
      var prev := SavedCategories(m, next, accounts[..|accounts| - 1], now);
      var up := Repository.CategoryUpsert(prev.table, prev.next, AccountToCategory(accounts[|accounts| - 1], now));
      CategorySync(up.table, up.next, prev.saved + [up.table[up.id]])
  }

  /** The QuickBooks columns of a category row are the account's. */
  predicate FromAccount(c: Category, account: Api.QBOAccount, now: Instant) {
    c.qboId == account.id && c.name == account.name && c.fullName == account.fullName
    && c.parentId == account.parentId && c.accountType == account.accountType && c.syncedAt == now
  }

  /** One saved row per fetched account, in fetch order, carrying that account's columns; no
      accounts leaves the table as it was. */
  lemma {:induction false} SavedCategoriesFollowAccounts(m: map<int, Category>, next: int, accounts: seq<Api.QBOAccount>, now: Instant)
    ensures var r := SavedCategories(m, next, accounts, now);
            && |r.saved| == |accounts|
            && (forall i :: 0 <= i < |accounts| ==> FromAccount(r.saved[i], accounts[i], now))
            && (accounts == [] ==> r.table == m && r.next == next)
    decreases |accounts|
  {
    if accounts != [] {
      var init := accounts[..|accounts| - 1];
      SavedCategoriesFollowAccounts(m, next, init, now);
      var prev := SavedCategories(m, next, init, now);
      var c := AccountToCategory(accounts[|accounts| - 1], now);
      var up := Repository.CategoryUpsert(prev.table, prev.next, c);
      assert FromAccount(up.table[up.id], accounts[|accounts| - 1], now);
      forall i | 0 <= i < |init|
        ensures init[i] == accounts[i]
      {
      }
    }
  }

  /** Saving categories keeps the table's keys and its unique `qbo_id`. */
  lemma {:induction false} SavedCategoriesKeepTable(m: map<int, Category>, next: int, accounts: seq<Api.QBOAccount>, now: Instant)
    requires Repository.CategoriesOk(m, next)
    ensures var r := SavedCategories(m, next, accounts, now);
            Repository.CategoriesOk(r.table, r.next)
    decreases |accounts|
  {
    if accounts != [] {
      var init := accounts[..|accounts| - 1];
      SavedCategoriesKeepTable(m, next, init, now);
      var prev := SavedCategories(m, next, init, now);
      Repository.CategoryUpsertKeepsUserColumns(prev.table, prev.next, AccountToCategory(accounts[|accounts| - 1], now));
    }
  }

  /** `sync_categories`: a failed fetch raises before anything is saved. */
  method SyncCategories(remote: Remote, store: Repository.Store, now: Instant) returns (r: Result<seq<Category>, string>)
    requires store.Valid()
    modifies store`categories, store`nextCategoryId
    ensures store.Valid()
    ensures remote.accounts.Err? ==>
              r == Err(remote.accounts.error)
              && store.categories == old(store.categories) && store.nextCategoryId == old(store.nextCategoryId)
    ensures remote.accounts.Ok? ==>
              var s := SavedCategories(old(store.categories), old(store.nextCategoryId), remote.accounts.value, now);
              && store.categories == s.table && store.nextCategoryId == s.next && r == Ok(s.saved)
  {
    if remote.accounts.Err? {
      return Err(remote.accounts.error);
    }
    var accounts := remote.accounts.value;
    ghost var m0, next0 := store.categories, store.nextCategoryId;
    var categories: seq<Category> := [];
    var i := 0;
    while i < |accounts|
      invariant 0 <= i <= |accounts|
      invariant store.Valid()
      invariant SavedCategories(m0, next0, accounts[..i], now) == CategorySync(store.categories, store.nextCategoryId, categories)
    {
      assert accounts[..i + 1][..i] == accounts[..i];
      var category := AccountToCategory(accounts[i], now);
      var saved := store.SaveCategory(category);
      categories := categories + [saved.value.value];
      i := i + 1;
    }
    assert accounts[..i] == accounts;
    r := Ok(categories);
  }

  // ---------------------------------------------------------------------------------------
  // transactions

  /** `{c.qbo_id: c for c in categories}`: a later category wins a shared `qbo_id`. */
  function CategoryLookup(categories: seq<Category>): (r: map<string, Category>)
    ensures forall c :: c in categories ==> c.qboId in r
    ensures forall q :: q in r ==> r[q] in categories && r[q].qboId == q
    decreases |categories|
  {
    if categories == [] then map[]
    else
      var last := categories[|categories| - 1];
      var init := categories[..|categories| - 1];
      assert forall c :: c in categories ==> c in init || c == last;
      CategoryLookup(init)[last.qboId := last]
  }

  /** Python's truth value of an optional string. */
  predicate Truthy(s: Option<string>) {
    s.Some? && s.value != ""
  }

  /** The description of a fetched purchase: the first line's description, else the memo,
      else "Purchase" and the document number (or the id). */
  function Description(t: Api.QBOTransaction): (d: string)
    ensures t.lineItems != [] && Truthy(t.lineItems[0].description) ==> d == t.lineItems[0].description.value
    ensures !(t.lineItems != [] && Truthy(t.lineItems[0].description)) && Truthy(t.memo) ==> d == t.memo.value
    ensures !(t.lineItems != [] && Truthy(t.lineItems[0].description)) && !Truthy(t.memo) ==>
              d == "Purchase " + (if Truthy(t.docNumber) then t.docNumber.value else t.id)
    ensures d != ""
  {
    var fromMemo := if Truthy(t.memo) then t.memo.value else "";
    var fromLine := if t.lineItems != [] && Truthy(t.lineItems[0].description) then t.lineItems[0].description.value else fromMemo;
    if fromLine != "" then fromLine else "Purchase " + (if Truthy(t.docNumber) then t.docNumber.value else t.id)
  }

  /** The category pre-assigned from QuickBooks: that of the first line's account, when it is
      a known category. */
  function PreAssigned(t: Api.QBOTransaction, lookup: map<string, Category>): (r: Option<int>)
    ensures (t.lineItems != [] && Truthy(t.lineItems[0].accountId) && t.lineItems[0].accountId.value in lookup) ==>
              r == lookup[t.lineItems[0].accountId.value].id
    ensures !(t.lineItems != [] && Truthy(t.lineItems[0].accountId) && t.lineItems[0].accountId.value in lookup) ==> r.None?
  {
    if t.lineItems != [] && Truthy(t.lineItems[0].accountId) && t.lineItems[0].accountId.value in lookup then
      lookup[t.lineItems[0].accountId.value].id
    else None
  }

  /** `_qbo_transaction_to_model`. */
  function ToCandidate(t: Api.QBOTransaction, lookup: map<string, Category>, now: Instant): (c: Transaction)
    ensures c.id.None? && c.status == Pending
    ensures c.qboId == t.id && c.accountId == t.accountId && c.accountName == t.accountName && c.date == t.txnDate
    ensures c.amount == -t.totalAmount && c.vendorName == t.entityName && c.fetchedAt == now
    ensures c.description == Description(t) && c.assignedCategoryId == PreAssigned(t, lookup)
  {
    NewTransaction(None, t.id, t.accountId, t.accountName, t.txnDate, -t.totalAmount, Description(t), t.entityName, now)
      .(assignedCategoryId := PreAssigned(t, lookup))
  }

  /** A category is pre-assigned exactly when the first line names a known account, and it
      is the local id of that stored category. */
  lemma PreAssignedFromStore(t: Api.QBOTransaction, m: map<int, Category>, next: int)
    requires Repository.CategoriesOk(m, next)
    ensures var lookup := CategoryLookup(Repository.AllCategories(m, next));
            var r := PreAssigned(t, lookup);
            && (r.Some? <==> t.lineItems != [] && Truthy(t.lineItems[0].accountId) && t.lineItems[0].accountId.value in lookup)
            && (r.Some? ==> r.value in m && m[r.value].qboId == t.lineItems[0].accountId.value)
  {
    var all := Repository.AllCategories(m, next);
    var lookup := CategoryLookup(all);
    if t.lineItems != [] && Truthy(t.lineItems[0].accountId) && t.lineItems[0].accountId.value in lookup {
      var c := lookup[t.lineItems[0].accountId.value];
      Repository.CategoryListings(m, next, c);
    }
  }

  /** The transactions table after saving candidates, and the rows the saves returned. */
  datatype TransactionSync = TransactionSync(table: map<int, Transaction>, next: int, saved: seq<Transaction>)

  /** Saving each candidate in turn, without an id (the insert path). */
  function SavedTransactions(m: map<int, Transaction>, next: int, candidates: seq<Transaction>): (r: TransactionSync)
    decreases |candidates|
  {
    if candidates == [] then TransactionSync(m, next, [])
    else
      var prev := SavedTransactions(m, next, candidates[..|candidates| - 1]);
      var up := Repository.TransactionUpsert(prev.table, prev.next, candidates[|candidates| - 1]);
      TransactionSync(up.table, up.next, prev.saved + [up.table[up.id]])
  }

  /** Re-syncing never changes the status or the assigned category of a transaction already
      stored: every stored row stays, with its review state, and the table keeps its unique
      `qbo_id`. */
  lemma {:induction false} SyncKeepsReviewState(m: map<int, Transaction>, next: int, candidates: seq<Transaction>)
    requires Repository.TransactionsOk(m, next)
    ensures var r := SavedTransactions(m, next, candidates);
            && Repository.TransactionsOk(r.table, r.next)
            && m.Keys <= r.table.Keys
            && forall k :: k in m ==>
                 r.table[k].status == m[k].status && r.table[k].assignedCategoryId == m[k].assignedCategoryId
    decreases |candidates|
  {
    if candidates != [] {
      var init := candidates[..|candidates| - 1];
      SyncKeepsReviewState(m, next, init);
      var prev := SavedTransactions(m, next, init);
      Repository.TransactionUpsertKeepsReviewState(prev.table, prev.next, candidates[|candidates| - 1]);
    }
  }

  /** The fetched columns of a saved row are the candidate's. */
  predicate SameFetchedColumns(row: Transaction, c: Transaction) {
    row.qboId == c.qboId && row.accountId == c.accountId && row.accountName == c.accountName
    && row.date == c.date && row.amount == c.amount && row.description == c.description
    && row.vendorName == c.vendorName && row.fetchedAt == c.fetchedAt
  }

  /** One saved row per candidate, in order, with the candidate's fetched columns. */
  lemma {:induction false} SavedTransactionsFollowCandidates(m: map<int, Transaction>, next: int, candidates: seq<Transaction>)
    ensures var r := SavedTransactions(m, next, candidates);
            && |r.saved| == |candidates|
            && forall i :: 0 <= i < |candidates| ==> SameFetchedColumns(r.saved[i], candidates[i])
    decreases |candidates|
  {
    if candidates != [] {
      var init := candidates[..|candidates| - 1];
      SavedTransactionsFollowCandidates(m, next, init);
      var prev := SavedTransactions(m, next, init);
      var up := Repository.TransactionUpsert(prev.table, prev.next, candidates[|candidates| - 1]);
      assert SameFetchedColumns(up.table[up.id], candidates[|candidates| - 1]);
      forall i | 0 <= i < |init|
        ensures init[i] == candidates[i]
      {
      }
    }
  }

  /** `[_qbo_transaction_to_model(t, lookup) for t in fetched]`. */
  function Candidates(fetched: seq<Api.QBOTransaction>, lookup: map<string, Category>, now: Instant): (r: seq<Transaction>)
    ensures |r| == |fetched|
    ensures forall i :: 0 <= i < |fetched| ==> r[i] == ToCandidate(fetched[i], lookup, now)
  {
    Map(fetched, (t: Api.QBOTransaction) => ToCandidate(t, lookup, now))
  }

  /** `sync_transactions`: a failed fetch raises before anything is saved; otherwise each
      fetched purchase is saved as a candidate, with categories pre-assigned from the stored
      categories. */
  method SyncTransactions(remote: Remote, store: Repository.Store, startDate: Option<Date>, endDate: Option<Date>,
                          now: Instant) returns (r: Result<seq<Transaction>, string>)
    requires store.Valid()
    modifies store`transactions, store`nextTransactionId
    ensures store.Valid()
    ensures remote.purchases(startDate, endDate).Err? ==>
              r == Err(remote.purchases(startDate, endDate).error)
              && store.transactions == old(store.transactions) && store.nextTransactionId == old(store.nextTransactionId)
    ensures remote.purchases(startDate, endDate).Ok? ==>
              var lookup := CategoryLookup(Repository.AllCategories(store.categories, store.nextCategoryId));
              var s := SavedTransactions(old(store.transactions), old(store.nextTransactionId),
                                         Candidates(remote.purchases(startDate, endDate).value, lookup, now));
              && store.transactions == s.table && store.nextTransactionId == s.next && r == Ok(s.saved)
    ensures forall k :: k in old(store.transactions) ==>
              k in store.transactions
              && store.transactions[k].status == old(store.transactions)[k].status
              && store.transactions[k].assignedCategoryId == old(store.transactions)[k].assignedCategoryId
  {
    var fetched := remote.purchases(startDate, endDate);
    if fetched.Err? {
      return Err(fetched.error);
    }
    var categories := store.GetAllCategories();
    var lookup := CategoryLookup(categories);
    ghost var m0, next0 := store.transactions, store.nextTransactionId;
    var transactions := SaveCandidates(store, fetched.value, lookup, now);
    SyncKeepsReviewState(m0, next0, Candidates(fetched.value, lookup, now));
    r := Ok(transactions);
  }

  /** The loop of `sync_transactions`: each fetched purchase is converted and saved in turn. */
  method SaveCandidates(store: Repository.Store, fetched: seq<Api.QBOTransaction>, lookup: map<string, Category>,
                        now: Instant) returns (transactions: seq<Transaction>)
    requires store.Valid()
    modifies store`transactions, store`nextTransactionId
    ensures store.Valid()
    ensures SavedTransactions(old(store.transactions), old(store.nextTransactionId), Candidates(fetched, lookup, now))
            == TransactionSync(store.transactions, store.nextTransactionId, transactions)
  {
    ghost var m0, next0 := store.transactions, store.nextTransactionId;
    ghost var candidates := Candidates(fetched, lookup, now);
    transactions := [];
    var i := 0;
    while i < |fetched|
      invariant 0 <= i <= |fetched|
      invariant store.Valid()
      invariant SavedTransactions(m0, next0, candidates[..i]) == TransactionSync(store.transactions, store.nextTransactionId, transactions)
    {
      var txn := ToCandidate(fetched[i], lookup, now);
      ghost var prev := TransactionSync(store.transactions, store.nextTransactionId, transactions);
      var saved := store.SaveTransaction(txn);
      SavedTransactionsStep(m0, next0, candidates, i, prev);
      transactions := transactions + [saved.value.value];
      i := i + 1;
    }
    assert candidates[..i] == candidates;
  }

  /** One more save extends the fold by one candidate. */
  lemma SavedTransactionsStep(m: map<int, Transaction>, next: int, candidates: seq<Transaction>, i: nat, prev: TransactionSync)
    requires i < |candidates|
    requires SavedTransactions(m, next, candidates[..i]) == prev
    ensures var up := Repository.TransactionUpsert(prev.table, prev.next, candidates[i]);
            SavedTransactions(m, next, candidates[..i + 1]) == TransactionSync(up.table, up.next, prev.saved + [up.table[up.id]])
  {
    assert candidates[..i + 1][..i] == candidates[..i];
  }

  // ---------------------------------------------------------------------------------------
  // posting

  const EXPENSE_DETAIL: string := "AccountBasedExpenseLineDetail"

  /** A line whose `DetailType` is the account-based expense detail. */
  predicate IsExpenseLine(line: Json) {
    line.JObj? && "DetailType" in line.fields && line.fields["DetailType"] == JStr(EXPENSE_DETAIL)
  }

  /** The account reference of a category. */
  function AccountRefOf(category: Category): (j: Json)
    ensures j == JObj(map["value" := JStr(category.qboId), "name" := JStr(category.fullName)])
  {
    JObj(map["value" := JStr(category.qboId), "name" := JStr(category.fullName)])
  }

  /** A line of the purchase with its expense account set to the category; any other line is
      copied as it is. */
  function CategorizedLine(line: Json, category: Category): (r: Result<Json, string>)
    ensures r.Err? <==> !line.JObj? || (IsExpenseLine(line) && (EXPENSE_DETAIL !in line.fields || !line.fields[EXPENSE_DETAIL].JObj?))
    ensures r.Ok? && !IsExpenseLine(line) ==> r.value == line
    ensures r.Ok? && IsExpenseLine(line) ==>
              r.value == JObj(line.fields[EXPENSE_DETAIL := JObj(line.fields[EXPENSE_DETAIL].fields["AccountRef" := AccountRefOf(category)])])
  {
    if !line.JObj? then Err("AttributeError: line")
    else if !IsExpenseLine(line) then Ok(line)
    else if EXPENSE_DETAIL !in line.fields then Err("KeyError: " + EXPENSE_DETAIL)
    else if !line.fields[EXPENSE_DETAIL].JObj? then Err("TypeError: " + EXPENSE_DETAIL)
    else
      var detail := line.fields[EXPENSE_DETAIL].fields;
      Ok(JObj(line.fields[EXPENSE_DETAIL := JObj(detail["AccountRef" := AccountRefOf(category)])]))
  }

  /** The rebuilt expense line keeps every other key of the line and of its detail, and adds
      none: a line without a description still has none. */
  lemma CategorizedLineKeepsOtherKeys(line: Json, category: Category)
    requires CategorizedLine(line, category).Ok? && IsExpenseLine(line)
    ensures var r := CategorizedLine(line, category).value;
            && r.JObj? && r.fields.Keys == line.fields.Keys
            && (forall k :: k in line.fields && k != EXPENSE_DETAIL ==> r.fields[k] == line.fields[k])
            && r.fields[EXPENSE_DETAIL].JObj?
            && r.fields[EXPENSE_DETAIL].fields.Keys == line.fields[EXPENSE_DETAIL].fields.Keys + {"AccountRef"}
            && r.fields[EXPENSE_DETAIL].fields["AccountRef"] == AccountRefOf(category)
  {
  }

  /** `purchase.get('Line', [])`, iterated. */
  function LinesOf(purchase: Json): (r: Result<seq<Json>, string>)
    ensures purchase.JObj? && "Line" !in purchase.fields ==> r == Ok([])
    ensures purchase.JObj? && "Line" in purchase.fields && purchase.fields["Line"].JArr? ==> r == Ok(purchase.fields["Line"].items)
    ensures purchase.JObj? && "Line" in purchase.fields && purchase.fields["Line"] in {JObj(map[]), JStr("")} ==> r == Ok([])
    ensures r.Err? <==> !purchase.JObj? ||
                        ("Line" in purchase.fields && !purchase.fields["Line"].JArr? &&
                         purchase.fields["Line"] != JObj(map[]) && purchase.fields["Line"] != JStr(""))
  {
    if !purchase.JObj? then Err("AttributeError: purchase")
    else if "Line" !in purchase.fields then Ok([])
    else ObjectsIn(purchase.fields["Line"])
  }

  /** The lines rebuilt in order, or the failure of the first line that cannot be. */
  function CategorizeEach(lines: seq<Json>, category: Category): (r: Result<seq<Json>, string>)
    ensures r.Ok? ==> |r.value| == |lines|
    ensures r.Ok? ==> forall i :: 0 <= i < |lines| ==> CategorizedLine(lines[i], category) == Ok(r.value[i])
    ensures r.Err? <==> exists i :: 0 <= i < |lines| && CategorizedLine(lines[i], category).Err?
    decreases |lines|
  {
    if lines == [] then Ok([])
    else
      var init := lines[..|lines| - 1];
      assert forall i :: 0 <= i < |init| ==> init[i] == lines[i];
      match CategorizeEach(init, category)
      case Err(e) => Err(e)
      case Ok(prev) =>
        match CategorizedLine(lines[|lines| - 1], category)
        case Err(e) => Err(e)
        case Ok(x) => Ok(prev + [x])
  }

  /** `_build_categorized_line_items`, as a value. */
  function CategorizedLines(purchase: Json, category: Category): (r: Result<seq<Json>, string>)
    ensures LinesOf(purchase).Err? ==> r.Err?
    ensures LinesOf(purchase).Ok? ==> r == CategorizeEach(LinesOf(purchase).value, category)
  {
    match LinesOf(purchase)
    case Err(e) => Err(e)
    case Ok(lines) => CategorizeEach(lines, category)
  }

  /** A failing line makes the whole rebuild fail with that line's error. */
  lemma {:induction false} CategorizeEachStopsAtFailure(lines: seq<Json>, i: nat, category: Category)
    requires i <= |lines|
    requires CategorizeEach(lines[..i], category).Err?
    ensures CategorizeEach(lines, category) == CategorizeEach(lines[..i], category)
    decreases |lines| - i
  {
    if i < |lines| {
      assert lines[..i + 1][..i] == lines[..i];
      CategorizeEachStopsAtFailure(lines, i + 1, category);
    } else {
      assert lines[..i] == lines;
    }
  }

  /** `_build_categorized_line_items`: a loop over the purchase's lines. */
  method BuildCategorizedLineItems(purchase: Json, category: Category) returns (r: Result<seq<Json>, string>)
    ensures r == CategorizedLines(purchase, category)
  {
    var lines := LinesOf(purchase);
    if lines.Err? {
      return Err(lines.error);
    }
    var updated: seq<Json> := [];
    var i := 0;
    while i < |lines.value|
      invariant 0 <= i <= |lines.value|
      invariant CategorizeEach(lines.value[..i], category) == Ok(updated)
    {
      assert lines.value[..i + 1][..i] == lines.value[..i];
      var line := CategorizedLine(lines.value[i], category);
      if line.Err? {
        CategorizeEachStopsAtFailure(lines.value, i + 1, category);
        return Err(line.error);
      }
      updated := updated + [line.value];
      i := i + 1;
    }
    assert lines.value[..i] == lines.value;
    r := Ok(updated);
  }

  /** A categorized transaction is sent only when it has a category that is stored. */
  predicate Eligible(t: Transaction, categories: map<int, Category>) {
    t.assignedCategoryId.Some? && t.assignedCategoryId.value in categories
  }

  /** Fetching the purchase, rebuilding its lines and sending the update all succeed. */
  predicate PostSucceeds(t: Transaction, categories: map<int, Category>, remote: Remote) {
    && Eligible(t, categories)
    && remote.purchaseRaw(t.qboId).Ok?
    && CategorizedLines(remote.purchaseRaw(t.qboId).value, categories[t.assignedCategoryId.value]).Ok?
    && remote.updatePurchase(remote.purchaseRaw(t.qboId).value,
                             CategorizedLines(remote.purchaseRaw(t.qboId).value, categories[t.assignedCategoryId.value]).value).Ok?
  }

  function MarkPosted(t: Transaction): (r: Transaction)
    ensures r.status == Posted
  {
    t.(status := Posted)
  }

  /** The listed transactions for which the purchase is fetched. */
  function Sent(listed: seq<Transaction>, categories: map<int, Category>): (r: seq<Transaction>)
  {
    Filter(listed, EligibleUnder(categories))
  }

  function EligibleUnder(categories: map<int, Category>): (p: Transaction -> bool)
    ensures forall t: Transaction :: p(t) == Eligible(t, categories)
  {
    (t: Transaction) => Eligible(t, categories)
  }

  function SucceedsUnder(categories: map<int, Category>, remote: Remote): (p: Transaction -> bool)
    ensures forall t: Transaction :: p(t) == PostSucceeds(t, categories, remote)
  {
    (t: Transaction) => PostSucceeds(t, categories, remote)
  }

  /** The listed transactions whose posting succeeds. */
  function Succeeded(listed: seq<Transaction>, categories: map<int, Category>, remote: Remote): (r: seq<Transaction>)
  {
    Filter(listed, SucceedsUnder(categories, remote))
  }

  /** The transactions to post: those categorized, oldest first. */
  function ToPost(m: map<int, Transaction>, next: int): (r: seq<Transaction>)
  {
    Repository.TransactionsByStatus(m, next, Categorized)
  }

  /** A listed transaction is the stored row of its id. */
  lemma ListedRowsAreStored(m: map<int, Transaction>, next: int, status: TransactionStatus, t: Transaction)
    requires Repository.TransactionsOk(m, next)
    requires t in Repository.TransactionsByStatus(m, next, status)
    ensures t.id.Some? && t.id.value in m && m[t.id.value] == t && t.status == status
  {
    Repository.TransactionsByStatusIsSearch(m, next, status);
    Repository.SearchTransactionsExact(m, next, Repository.TransactionQuery(Some(status), None, None, None, None, None), t);
  }

  /** `post_categorized_transactions`. `sent` lists the transactions for which the purchase
      was fetched: exactly the eligible ones, so a transaction without a category, or whose
      category is missing, causes no request. The result holds, in order, the transactions
      whose fetch, update and status write all succeeded, marked posted; a failure leaves its
      transaction out and the loop goes on. The rows posted are marked posted with their
      category; every other row is unchanged. */
  method PostCategorized(remote: Remote, store: Repository.Store) returns (posted: seq<Transaction>, ghost sent: seq<Transaction>)
    requires store.Valid()
    modifies store`transactions
    ensures store.Valid()
    ensures var listed := ToPost(old(store.transactions), store.nextTransactionId);
            && sent == Sent(listed, store.categories)
            && posted == Map(Succeeded(listed, store.categories, remote), MarkPosted)
    ensures store.transactions.Keys == old(store.transactions).Keys
    ensures forall k :: k in old(store.transactions) ==>
              store.transactions[k] ==
                (if old(store.transactions)[k] in ToPost(old(store.transactions), store.nextTransactionId)
                    && PostSucceeds(old(store.transactions)[k], store.categories, remote)
                 then MarkPosted(old(store.transactions)[k])
                 else old(store.transactions)[k])
  {
    var categorized := store.GetTransactionsByStatus(Categorized);
    ghost var m0 := store.transactions;
    ghost var cats := store.categories;
    ghost var eligible := EligibleUnder(cats);
    ghost var succeeds := SucceedsUnder(cats, remote);
    posted, sent := [], [];
    ghost var done: seq<Transaction> := [];
    var i := 0;
    while i < |categorized|
      invariant 0 <= i <= |categorized| && done == categorized[..i]
      invariant store.Valid() && store.categories == cats
      invariant sent == Filter(done, eligible)
      invariant posted == Map(Filter(done, succeeds), MarkPosted)
      invariant PostedSoFar(m0, store.transactions, done, succeeds)
    {
      var txn := categorized[i];
      PrefixSnoc(categorized, i);
      ListedRowsAreStored(m0, store.nextTransactionId, Categorized, txn);
      var wasSent, ok := PostListed(remote, store, txn, m0, done, succeeds);
      PostListsStep(done, txn, eligible, succeeds);
      if wasSent {
        sent := sent + [txn];
      }
      if ok {
        posted := posted + [MarkPosted(txn)];
      }
      done := done + [txn];
      i := i + 1;
    }
    assert done == categorized;
  }

  /** The rows after the listed transactions `done` were processed: the keys are kept, and a
      row is marked posted exactly when its transaction is one of them whose posting succeeded. */
  ghost predicate PostedSoFar(m0: map<int, Transaction>, table: map<int, Transaction>, done: seq<Transaction>,
                              succeeds: Transaction -> bool)
  {
    && table.Keys == m0.Keys
    && forall k :: k in m0 ==> table[k] == (if m0[k] in done && succeeds(m0[k]) then MarkPosted(m0[k]) else m0[k])
  }

  /** One listed transaction: `PostOne`, and the rows so far extended by it. */
  method PostListed(remote: Remote, store: Repository.Store, txn: Transaction, ghost m0: map<int, Transaction>,
                    ghost done: seq<Transaction>, ghost succeeds: Transaction -> bool) returns (wasSent: bool, ok: bool)
    requires store.Valid()
    requires forall k :: k in m0 ==> m0[k].id == Some(k)
    requires txn.id.Some? && txn.id.value in m0 && m0[txn.id.value] == txn
    requires succeeds(txn) == PostSucceeds(txn, store.categories, remote)
    requires PostedSoFar(m0, store.transactions, done, succeeds)
    modifies store`transactions
    ensures store.Valid()
    ensures wasSent == Eligible(txn, store.categories)
    ensures ok == PostSucceeds(txn, store.categories, remote)
    ensures PostedSoFar(m0, store.transactions, done + [txn], succeeds)
  {
    ghost var before := store.transactions;
    wasSent, ok := PostOne(remote, store, txn);
    PostTableStep(m0, before, store.transactions, done, txn, succeeds);
  }

  /** The body of the loop of `post_categorized_transactions` for one listed transaction;
      `wasSent` tells whether the purchase was fetched, `ok` whether the transaction was
      posted. Only a posted transaction's row changes: to posted, with its category. */
  method PostOne(remote: Remote, store: Repository.Store, txn: Transaction) returns (wasSent: bool, ok: bool)
    requires store.Valid()
    requires txn.id.Some?
    modifies store`transactions
    ensures store.Valid()
    ensures wasSent == Eligible(txn, store.categories)
    ensures ok == PostSucceeds(txn, store.categories, remote)
    ensures store.transactions ==
              if ok then Repository.SetTransactionStatus(old(store.transactions), txn.id.value, Posted, txn.assignedCategoryId)
              else old(store.transactions)
  {
    wasSent, ok := false, false;
    if txn.assignedCategoryId.None? {
      return;
    }
    var category := store.GetCategoryById(txn.assignedCategoryId.value);
    if category.None? {
      return;
    }
    wasSent := true;
    var purchase := remote.purchaseRaw(txn.qboId);
    if purchase.Err? {
      return;
    }
    var lines := BuildCategorizedLineItems(purchase.value, category.value);
    if lines.Err? {
      return;
    }
    var updated := remote.updatePurchase(purchase.value, lines.value);
    if updated.Err? {
      return;
    }
    store.UpdateTransactionStatus(txn.id.value, Posted, txn.assignedCategoryId);
    ok := true;
  }

  /** The lists after processing one more listed transaction. */
  lemma PostListsStep(done: seq<Transaction>, txn: Transaction, eligible: Transaction -> bool, succeeds: Transaction -> bool)
    ensures Filter(done + [txn], eligible) == Filter(done, eligible) + (if eligible(txn) then [txn] else [])
    ensures Map(Filter(done + [txn], succeeds), MarkPosted)
            == Map(Filter(done, succeeds), MarkPosted) + (if succeeds(txn) then [MarkPosted(txn)] else [])
  {
    FilterSnoc(done, txn, eligible);
    FilterSnoc(done, txn, succeeds);
    MapConcat(Filter(done, succeeds), if succeeds(txn) then [txn] else [], MarkPosted);
  }

  /** The table after posting one more listed transaction: only that transaction's row can
      change, and it becomes posted when the posting succeeds. */
  lemma PostTableStep(m0: map<int, Transaction>, before: map<int, Transaction>, after: map<int, Transaction>,
                      done: seq<Transaction>, txn: Transaction, succeeds: Transaction -> bool)
    requires forall k :: k in m0 ==> m0[k].id == Some(k)
    requires txn.id.Some? && txn.id.value in m0 && m0[txn.id.value] == txn
    requires PostedSoFar(m0, before, done, succeeds)
    requires after == if succeeds(txn) then Repository.SetTransactionStatus(before, txn.id.value, Posted, txn.assignedCategoryId) else before
    ensures PostedSoFar(m0, after, done + [txn], succeeds)
  {
    forall k | k in m0
      ensures after[k] == (if m0[k] in done + [txn] && succeeds(m0[k]) then MarkPosted(m0[k]) else m0[k])
    {
      assert m0[k] in done + [txn] <==> m0[k] in done || m0[k] == txn;
      if m0[k] == txn {
        assert k == txn.id.value;
      }
    }
  }
}
