/** The SQLite store as in-memory tables. Each table maps its AUTOINCREMENT id to its row and
    keeps the next id; `UNIQUE` columns are invariants; `INSERT ... ON CONFLICT DO UPDATE`
    refreshes the listed columns of the conflicting row and keeps the others; an `UPDATE` whose
    id matches no row changes nothing; listings are sorted as their `ORDER BY` says. */
module Repository {
  import opened Wrappers
  import opened Seqs
  import opened Sorting
  import Strings
  import opened Models
  import opened Tables
  import Migrations
  import Rules

  // ---------------------------------------------------------------------------------------
  // ORDER BY clauses

  /** `ORDER BY date ASC`. */
  predicate DateFirst(a: Transaction, b: Transaction) {
    DateLess(a.date, b.date)
  }

  lemma DateFirstIsStrictWeakOrder()
    ensures StrictWeakOrder(DateFirst)
  {
  }

  /** `ORDER BY display_order, full_name`. */
  predicate DisplayOrderFirst(a: Category, b: Category) {
    a.displayOrder < b.displayOrder
    || (a.displayOrder == b.displayOrder && Strings.StrLess(a.fullName, b.fullName))
  }

  lemma DisplayOrderFirstIsStrictWeakOrder()
    ensures StrictWeakOrder(DisplayOrderFirst)
  {
    Strings.StrLessStrictTotal();
  }

  /** `ORDER BY priority DESC, name`. */
  predicate PriorityThenNameFirst(a: Rule, b: Rule) {
    a.priority > b.priority || (a.priority == b.priority && Strings.StrLess(a.name, b.name))
  }

  lemma PriorityThenNameFirstIsStrictWeakOrder()
    ensures StrictWeakOrder(PriorityThenNameFirst)
  {
    Strings.StrLessStrictTotal();
  }

  /** `ORDER BY vendor_name`. */
  predicate VendorNameFirst(a: VendorMapping, b: VendorMapping) {
    Strings.StrLess(a.vendorName, b.vendorName)
  }

  lemma VendorNameFirstIsStrictWeakOrder()
    ensures StrictWeakOrder(VendorNameFirst)
  {
    Strings.StrLessStrictTotal();
  }

  /** `ORDER BY updated_at DESC`. */
  predicate UpdatedFirst(a: Token, b: Token) {
    a.updatedAt > b.updatedAt
  }

  /** Rows of a table, newest id last; `SELECT ... WHERE id = ?`. */
  function ById<V>(m: map<int, V>, id: int): (r: Option<V>)
    ensures r.Some? <==> id in m
    ensures r.Some? ==> r.value == m[id]
  {
    if id in m then Some(m[id]) else None
  }

  // ---------------------------------------------------------------------------------------
  // tokens

  /** The `tokens` table: ids are keys, `realm_id` is unique. */
  ghost predicate TokensOk(m: map<int, Token>, next: int) {
    && next >= 1
    && (forall k :: k in m ==> 1 <= k < next && m[k].id == Some(k))
    && (forall a, b :: a in m && b in m && m[a].realmId == m[b].realmId ==> a == b)
  }

  /** The conflict path of `save_token`: the tokens and expiry are replaced and `updated_at`
      set, the realm, id and `created_at` kept. */
  function RefreshToken(stored: Token, token: Token, now: Instant): (r: Token)
    ensures r.id == stored.id && r.realmId == stored.realmId && r.createdAt == stored.createdAt
    ensures r.accessToken == token.accessToken && r.refreshToken == token.refreshToken
    ensures r.expiresAt == token.expiresAt && r.updatedAt == now
  {
    stored.(accessToken := token.accessToken, refreshToken := token.refreshToken,
            expiresAt := token.expiresAt, updatedAt := now)
  }

  /** The insert path of `save_token`: insert, or refresh the row of the same realm. Both
      timestamps of a new row are `now`. */
  function TokenUpsert(m: map<int, Token>, next: int, token: Token, now: Instant): (r: Upserted<Token>)
  {
    Upsert(m, next, (t: Token) => t.realmId == token.realmId, (t: Token) => RefreshToken(t, token, now),
           (k: int) => token.(id := Some(k), createdAt := now, updatedAt := now))
  }

  /** `get_token_by_realm`. */
  function TokenByRealm(m: map<int, Token>, next: int, realmId: string): (r: Option<Token>)
    ensures r.Some? ==> r.value in m.Values && r.value.realmId == realmId
    ensures r.None? ==> forall k :: 1 <= k < next && k in m ==> m[k].realmId != realmId
  {
    match FindKey(m, (t: Token) => t.realmId == realmId, 1, next)
    case Some(k) => Some(m[k])
    case None => None
  }

  /** The update path of `save_token`: the row with that id, if any, gets the new tokens. */
  function TokenUpdate(m: map<int, Token>, token: Token, now: Instant): (r: map<int, Token>)
    requires token.id.Some?
  {
    if token.id.value in m then m[token.id.value := RefreshToken(m[token.id.value], token, now)] else m
  }

  /** `save_token` without an id keeps one row per realm: the realm's row afterwards holds the
      given tokens and expiry, and no other row changes. */
  lemma TokenUpsertOneRowPerRealm(m: map<int, Token>, next: int, token: Token, now: Instant)
    requires TokensOk(m, next)
    ensures TokensOk(TokenUpsert(m, next, token, now).table, TokenUpsert(m, next, token, now).next)
    ensures var r := TokenUpsert(m, next, token, now);
            && TokenByRealm(r.table, r.next, token.realmId) == Some(r.table[r.id])
            && r.table[r.id].accessToken == token.accessToken
            && r.table[r.id].refreshToken == token.refreshToken
            && r.table[r.id].expiresAt == token.expiresAt
            && forall k :: k in m && k != r.id ==> k in r.table && r.table[k] == m[k]
  {
    var r := TokenUpsert(m, next, token, now);
    assert r.table[r.id].realmId == token.realmId;
  }

  /** `get_latest_token`: the token updated last. */
  function LatestToken(m: map<int, Token>, next: int): (r: Option<Token>)
  {
    var sorted := SortBy(Rows(m, 1, next), UpdatedFirst);
    if sorted == [] then None else Some(sorted[0])
  }

  /** The latest token is a stored token that no stored token was updated after, and there
      is none only when the table is empty. */
  lemma LatestTokenIsLatest(m: map<int, Token>, next: int)
    requires TokensOk(m, next)
    ensures LatestToken(m, next).None? <==> m == map[]
    ensures LatestToken(m, next).Some? ==>
              LatestToken(m, next).value in m.Values
              && forall k :: k in m ==> m[k].updatedAt <= LatestToken(m, next).value.updatedAt
  {
    var rows := Rows(m, 1, next);
    if rows == [] {
      forall k | k in m
        ensures false
      {
        RowsMembers(m, 1, next, m[k]);
      }
      assert m == map[];
    } else {
      SortByHeadIsLeast(rows, UpdatedFirst);
      var top := SortBy(rows, UpdatedFirst)[0];
      RowsMembers(m, 1, next, top);
      forall k | k in m
        ensures m[k].updatedAt <= top.updatedAt
      {
        RowsMembers(m, 1, next, m[k]);
      }
    }
  }

  // ---------------------------------------------------------------------------------------
  // categories

  /** The `categories` table: ids are keys, `qbo_id` is unique. */
  ghost predicate CategoriesOk(m: map<int, Category>, next: int) {
    && next >= 1
    && (forall k :: k in m ==> 1 <= k < next && m[k].id == Some(k))
    && (forall a, b :: a in m && b in m && m[a].qboId == m[b].qboId ==> a == b)
  }

  /** The conflict path of `save_category`: the QuickBooks-owned columns are refreshed, the
      user's visibility and display order are kept. */
  function RefreshCategory(stored: Category, c: Category): (r: Category)
    ensures r.id == stored.id && r.qboId == stored.qboId
    ensures r.isVisible == stored.isVisible && r.displayOrder == stored.displayOrder
    ensures r.name == c.name && r.fullName == c.fullName && r.parentId == c.parentId
    ensures r.accountType == c.accountType && r.syncedAt == c.syncedAt
  {
    stored.(name := c.name, fullName := c.fullName, parentId := c.parentId,
            accountType := c.accountType, syncedAt := c.syncedAt)
  }

  function CategoryUpsert(m: map<int, Category>, next: int, c: Category): (r: Upserted<Category>)
  {
    Upsert(m, next, (x: Category) => x.qboId == c.qboId, (x: Category) => RefreshCategory(x, c),
           (k: int) => c.(id := Some(k)))
  }

  /** `get_category_by_qbo_id`. */
  function CategoryByQboId(m: map<int, Category>, next: int, qboId: string): (r: Option<Category>)
    ensures r.Some? ==> r.value in m.Values && r.value.qboId == qboId
    ensures r.None? ==> forall k :: 1 <= k < next && k in m ==> m[k].qboId != qboId
  {
    match FindKey(m, (x: Category) => x.qboId == qboId, 1, next)
    case Some(k) => Some(m[k])
    case None => None
  }

  /** The update path of `save_category`: every column of the row with that id is written,
      which fails when the new `qbo_id` belongs to another row. */
  function CategoryUpdate(m: map<int, Category>, next: int, c: Category): (r: Result<map<int, Category>, string>)
    requires c.id.Some?
    ensures r.Err? <==> c.id.value in m && FindKey(m, (x: Category) => x.qboId == c.qboId && x.id != c.id, 1, next).Some?
    ensures r.Ok? ==> r.value == (if c.id.value in m then m[c.id.value := c] else m)
  {
    var id := c.id.value;
    if id !in m then Ok(m)
    else if FindKey(m, (x: Category) => x.qboId == c.qboId && x.id != c.id, 1, next).Some? then
      Err("UNIQUE constraint failed: categories.qbo_id")
    else Ok(m[id := c])
  }

  /** A re-synced category keeps its visibility and display order and gets the fetched
      QuickBooks columns; no other row changes, and no row is added for a known `qbo_id`. */
  lemma CategoryUpsertKeepsUserColumns(m: map<int, Category>, next: int, c: Category)
    requires CategoriesOk(m, next)
    ensures var r := CategoryUpsert(m, next, c);
            && CategoriesOk(r.table, r.next)
            && CategoryByQboId(r.table, r.next, c.qboId) == Some(r.table[r.id])
            && (CategoryByQboId(m, next, c.qboId).Some? ==>
                  !r.inserted && r.table.Keys == m.Keys
                  && r.table[r.id] == RefreshCategory(CategoryByQboId(m, next, c.qboId).value, c))
            && forall k :: k in m && k != r.id ==> k in r.table && r.table[k] == m[k]
  {
    var r := CategoryUpsert(m, next, c);
    assert r.table[r.id].qboId == c.qboId;
  }

  /** `get_all_categories`. */
  function AllCategories(m: map<int, Category>, next: int): (r: seq<Category>)
  {
    SortBy(Rows(m, 1, next), DisplayOrderFirst)
  }

  /** `get_visible_categories`. */
  function VisibleCategories(m: map<int, Category>, next: int): (r: seq<Category>)
  {
    SortBy(Filter(Rows(m, 1, next), (x: Category) => x.isVisible), DisplayOrderFirst)
  }

  /** The category listings hold the stored rows (the visible ones for the second), ordered by
      display order and then full name. */
  lemma CategoryListings(m: map<int, Category>, next: int, c: Category)
    ensures Sorted(AllCategories(m, next), DisplayOrderFirst)
    ensures Sorted(VisibleCategories(m, next), DisplayOrderFirst)
    ensures c in AllCategories(m, next) <==> exists k :: 1 <= k < next && k in m && m[k] == c
    ensures c in VisibleCategories(m, next) <==> c in AllCategories(m, next) && c.isVisible
  {
    DisplayOrderFirstIsStrictWeakOrder();
    SortBySorted(Rows(m, 1, next), DisplayOrderFirst);
    SortBySorted(Filter(Rows(m, 1, next), (x: Category) => x.isVisible), DisplayOrderFirst);
    RowsMembers(m, 1, next, c);
    SortByMembers(Rows(m, 1, next), DisplayOrderFirst, c);
    SortByMembers(Filter(Rows(m, 1, next), (x: Category) => x.isVisible), DisplayOrderFirst, c);
    FilterMember(Rows(m, 1, next), (x: Category) => x.isVisible, c);
  }

  /** `update_category_visibility`. */
  function SetCategoryVisibility(m: map<int, Category>, id: int, isVisible: bool): (r: map<int, Category>)
    ensures r.Keys == m.Keys
    ensures forall k :: k in m ==> r[k] == (if k == id then m[k].(isVisible := isVisible) else m[k])
  {
    if id in m then m[id := m[id].(isVisible := isVisible)] else m
  }

  // ---------------------------------------------------------------------------------------
  // rules

  ghost predicate RulesOk(m: map<int, Rule>, next: int) {
    next >= 1 && forall k :: k in m ==> 1 <= k < next && m[k].id == Some(k)
  }

  /** The update path of `save_rule`: every column but `created_at` is written. */
  function RuleUpdate(m: map<int, Rule>, rule: Rule): (r: map<int, Rule>)
    requires rule.id.Some?
    ensures r.Keys == m.Keys
    ensures forall k :: k in m && k != rule.id.value ==> r[k] == m[k]
    ensures rule.id.value in m ==> r[rule.id.value] == rule.(createdAt := m[rule.id.value].createdAt)
  {
    var id := rule.id.value;
    if id in m then m[id := rule.(createdAt := m[id].createdAt)] else m
  }

  /** `get_active_rules`: the active rules, highest priority first. */
  function ActiveRules(m: map<int, Rule>, next: int): (r: seq<Rule>)
  {
    SortBy(Filter(Rows(m, 1, next), (x: Rule) => x.isActive), Rules.PriorityFirst)
  }

  /** `get_all_rules`. */
  function AllRules(m: map<int, Rule>, next: int): (r: seq<Rule>)
  {
    SortBy(Rows(m, 1, next), PriorityThenNameFirst)
  }

  lemma RuleListings(m: map<int, Rule>, next: int, rule: Rule)
    ensures Rules.PriorityOrdered(ActiveRules(m, next))
    ensures Sorted(AllRules(m, next), PriorityThenNameFirst)
    ensures rule in AllRules(m, next) <==> exists k :: 1 <= k < next && k in m && m[k] == rule
    ensures rule in ActiveRules(m, next) <==> rule in AllRules(m, next) && rule.isActive
  {
    Rules.SortByPriorityCorrect(Filter(Rows(m, 1, next), (x: Rule) => x.isActive), 0);
    PriorityThenNameFirstIsStrictWeakOrder();
    SortBySorted(Rows(m, 1, next), PriorityThenNameFirst);
    RowsMembers(m, 1, next, rule);
    SortByMembers(Rows(m, 1, next), PriorityThenNameFirst, rule);
    SortByMembers(Filter(Rows(m, 1, next), (x: Rule) => x.isActive), Rules.PriorityFirst, rule);
    FilterMember(Rows(m, 1, next), (x: Rule) => x.isActive, rule);
  }

  // ---------------------------------------------------------------------------------------
  // vendor mappings

  ghost predicate VendorMappingsOk(m: map<int, VendorMapping>, next: int) {
    && next >= 1
    && (forall k :: k in m ==> 1 <= k < next && m[k].id == Some(k))
    && (forall a, b :: a in m && b in m && m[a].vendorName == m[b].vendorName ==> a == b)
  }

  /** The conflict path of `save_vendor_mapping`: vendor id, default category and `updated_at`
      are refreshed. */
  function RefreshVendorMapping(stored: VendorMapping, mapping: VendorMapping, now: Instant): (r: VendorMapping)
    ensures r.id == stored.id && r.vendorName == stored.vendorName && r.createdAt == stored.createdAt
    ensures r.vendorId == mapping.vendorId && r.defaultCategoryId == mapping.defaultCategoryId
    ensures r.updatedAt == now
  {
    stored.(vendorId := mapping.vendorId, defaultCategoryId := mapping.defaultCategoryId, updatedAt := now)
  }

  function VendorMappingUpsert(m: map<int, VendorMapping>, next: int, mapping: VendorMapping, now: Instant): (r: Upserted<VendorMapping>)
  {
    Upsert(m, next, (x: VendorMapping) => x.vendorName == mapping.vendorName,
           (x: VendorMapping) => RefreshVendorMapping(x, mapping, now),
           (k: int) => mapping.(id := Some(k), createdAt := now, updatedAt := now))
  }

  /** `get_vendor_mapping_by_name`. */
  function VendorMappingByName(m: map<int, VendorMapping>, next: int, vendorName: string): (r: Option<VendorMapping>)
    ensures r.Some? ==> r.value in m.Values && r.value.vendorName == vendorName
    ensures r.None? ==> forall k :: 1 <= k < next && k in m ==> m[k].vendorName != vendorName
  {
    match FindKey(m, (x: VendorMapping) => x.vendorName == vendorName, 1, next)
    case Some(k) => Some(m[k])
    case None => None
  }

  /** The update path of `save_vendor_mapping`: name, vendor id, default category and
      `updated_at` are written, which fails when the name belongs to another row. */
  function VendorMappingUpdate(m: map<int, VendorMapping>, next: int, mapping: VendorMapping, now: Instant): (r: Result<map<int, VendorMapping>, string>)
    requires mapping.id.Some?
    ensures r.Err? <==> mapping.id.value in m
                        && FindKey(m, (x: VendorMapping) => x.vendorName == mapping.vendorName && x.id != mapping.id, 1, next).Some?
    ensures mapping.id.value !in m ==> r == Ok(m)
    ensures r.Ok? ==> r.value.Keys == m.Keys
    ensures r.Ok? && mapping.id.value in m ==>
              var row := r.value[mapping.id.value];
              && row.id == m[mapping.id.value].id && row.createdAt == m[mapping.id.value].createdAt
              && row.vendorName == mapping.vendorName && row.vendorId == mapping.vendorId
              && row.defaultCategoryId == mapping.defaultCategoryId && row.updatedAt == now
    ensures r.Ok? ==> forall k :: k in m && k != mapping.id.value ==> r.value[k] == m[k]
  {
    var id := mapping.id.value;
    if id !in m then Ok(m)
    else if FindKey(m, (x: VendorMapping) => x.vendorName == mapping.vendorName && x.id != mapping.id, 1, next).Some? then
      Err("UNIQUE constraint failed: vendor_mappings.vendor_name")
    else Ok(m[id := RefreshVendorMapping(m[id], mapping, now).(vendorName := mapping.vendorName)])
  }

  /** What `save_vendor_mapping` without an id returns as written: the row whose id is the
      connection's last inserted rowid. */
  function VendorMappingSavedAsWritten(m: map<int, VendorMapping>, next: int, lastRowId: int,
                                       mapping: VendorMapping, now: Instant): (r: Option<VendorMapping>)
  {
    var up := VendorMappingUpsert(m, next, mapping, now);
    ById(up.table, if up.inserted then up.id else lastRowId)
  }

  /** The row `save_vendor_mapping` without an id is meant to return: the mapping of that
      vendor name. */
  function VendorMappingSaved(m: map<int, VendorMapping>, next: int, mapping: VendorMapping, now: Instant): (r: Option<VendorMapping>)
  {
    var up := VendorMappingUpsert(m, next, mapping, now);
    VendorMappingByName(up.table, up.next, mapping.vendorName)
  }

  /** The corrected read-back returns the saved vendor's row, carrying the new default
      category, whether the save inserted or refreshed. */
  lemma VendorMappingSavedIsTheVendorsRow(m: map<int, VendorMapping>, next: int, mapping: VendorMapping, now: Instant)
    requires VendorMappingsOk(m, next)
    ensures var up := VendorMappingUpsert(m, next, mapping, now);
            && VendorMappingsOk(up.table, up.next)
            && VendorMappingSaved(m, next, mapping, now) == Some(up.table[up.id])
            && up.table[up.id].vendorName == mapping.vendorName
            && up.table[up.id].defaultCategoryId == mapping.defaultCategoryId
            && up.table[up.id].vendorId == mapping.vendorId
  {
    var up := VendorMappingUpsert(m, next, mapping, now);
    assert up.table[up.id].vendorName == mapping.vendorName;
  }

  /** As written, saving vendor A, then vendor B, then A again (a conflict, so nothing is
      inserted) returns B's row: the last inserted rowid is still B's. */
  lemma VendorMappingSavedAsWrittenReturnsOtherRow()
    ensures var a := VendorMapping(None, "Acme", None, 7, 0, 0);
            var b := VendorMapping(None, "Bolt", None, 8, 0, 0);
            var s1 := VendorMappingUpsert(map[], 1, a, 10);
            var s2 := VendorMappingUpsert(s1.table, s1.next, b, 20);
            var again := a.(defaultCategoryId := 9);
            var returned := VendorMappingSavedAsWritten(s2.table, s2.next, s2.id, again, 30);
            && returned.Some? && returned.value.vendorName == "Bolt"
            && VendorMappingSaved(s2.table, s2.next, again, 30).value.vendorName == "Acme"
  {
    var a := VendorMapping(None, "Acme", None, 7, 0, 0);
    var b := VendorMapping(None, "Bolt", None, 8, 0, 0);
    var s1 := VendorMappingUpsert(map[], 1, a, 10);
    assert s1.inserted && s1.id == 1;
    var s2 := VendorMappingUpsert(s1.table, s1.next, b, 20);
    assert s2.table[1].vendorName == "Acme";
    assert FindKey(s1.table, (x: VendorMapping) => x.vendorName == b.vendorName, 1, s1.next).None?;
    assert s2.inserted && s2.id == 2;
    var again := a.(defaultCategoryId := 9);
    var s3 := VendorMappingUpsert(s2.table, s2.next, again, 30);
    assert FindKey(s2.table, (x: VendorMapping) => x.vendorName == again.vendorName, 1, s2.next) == Some(1);
    assert !s3.inserted && s3.table[2] == s2.table[2];
    VendorMappingSavedIsTheVendorsRow(s2.table, s2.next, again, 30);
  }

  /** `get_all_vendor_mappings`. */
  function AllVendorMappings(m: map<int, VendorMapping>, next: int): (r: seq<VendorMapping>)
  {
    SortBy(Rows(m, 1, next), VendorNameFirst)
  }

  lemma VendorMappingListing(m: map<int, VendorMapping>, next: int, v: VendorMapping)
    ensures Sorted(AllVendorMappings(m, next), VendorNameFirst)
    ensures v in AllVendorMappings(m, next) <==> exists k :: 1 <= k < next && k in m && m[k] == v
  {
    VendorNameFirstIsStrictWeakOrder();
    SortBySorted(Rows(m, 1, next), VendorNameFirst);
    RowsMembers(m, 1, next, v);
    SortByMembers(Rows(m, 1, next), VendorNameFirst, v);
  }

  // ---------------------------------------------------------------------------------------
  // transactions

  /** The `transactions` table: ids are keys, `qbo_id` is unique. */
  ghost predicate TransactionsOk(m: map<int, Transaction>, next: int) {
    && next >= 1
    && (forall k :: k in m ==> 1 <= k < next && m[k].id == Some(k))
    && (forall a, b :: a in m && b in m && m[a].qboId == m[b].qboId ==> a == b)
  }

  /** The conflict path of `save_transaction`: the QuickBooks-owned columns are replaced; the
      review state (status and assigned category) is kept. */
  function RefreshTransaction(stored: Transaction, t: Transaction): (r: Transaction)
    ensures r.id == stored.id && r.qboId == stored.qboId
    ensures r.status == stored.status && r.assignedCategoryId == stored.assignedCategoryId
    ensures r.accountId == t.accountId && r.accountName == t.accountName && r.date == t.date
    ensures r.amount == t.amount && r.description == t.description
    ensures r.vendorName == t.vendorName && r.fetchedAt == t.fetchedAt
  {
    stored.(accountId := t.accountId, accountName := t.accountName, date := t.date, amount := t.amount,
            description := t.description, vendorName := t.vendorName, fetchedAt := t.fetchedAt)
  }

  /** The insert path of `save_transaction`: a new row takes every column of the candidate,
      a known `qbo_id` refreshes its row. */
  function TransactionUpsert(m: map<int, Transaction>, next: int, t: Transaction): (r: Upserted<Transaction>)
  {
    Upsert(m, next, (x: Transaction) => x.qboId == t.qboId, (x: Transaction) => RefreshTransaction(x, t),
           (k: int) => t.(id := Some(k)))
  }

  /** `get_transaction_by_qbo_id`. */
  function TransactionByQboId(m: map<int, Transaction>, next: int, qboId: string): (r: Option<Transaction>)
    ensures r.Some? ==> r.value in m.Values && r.value.qboId == qboId
    ensures r.None? ==> forall k :: 1 <= k < next && k in m ==> m[k].qboId != qboId
  {
    match FindKey(m, (x: Transaction) => x.qboId == qboId, 1, next)
    case Some(k) => Some(m[k])
    case None => None
  }

  /** The update path of `save_transaction`: every column of the row with that id is written,
      status included, which fails when the new `qbo_id` belongs to another row. */
  function TransactionUpdate(m: map<int, Transaction>, next: int, t: Transaction): (r: Result<map<int, Transaction>, string>)
    requires t.id.Some?
    ensures r.Err? <==> t.id.value in m && FindKey(m, (x: Transaction) => x.qboId == t.qboId && x.id != t.id, 1, next).Some?
    ensures r.Ok? ==> r.value.Keys == m.Keys
    ensures r.Ok? ==> forall k :: k in m && k != t.id.value ==> r.value[k] == m[k]
    ensures r.Ok? && t.id.value in m ==> r.value[t.id.value] == t
  {
    var id := t.id.value;
    if id !in m then Ok(m)
    else if FindKey(m, (x: Transaction) => x.qboId == t.qboId && x.id != t.id, 1, next).Some? then
      Err("UNIQUE constraint failed: transactions.qbo_id")
    else Ok(m[id := t])
  }

  /** An update that succeeds keeps the table's keys and its unique `qbo_id`. */
  lemma TransactionUpdateKeepsTable(m: map<int, Transaction>, next: int, t: Transaction)
    requires TransactionsOk(m, next) && t.id.Some?
    requires TransactionUpdate(m, next, t).Ok?
    ensures TransactionsOk(TransactionUpdate(m, next, t).value, next)
  {
    var id := t.id.value;
    if id in m {
      var clash := FindKey(m, (x: Transaction) => x.qboId == t.qboId && x.id != t.id, 1, next);
      assert clash.None?;
      var r := m[id := t];
      forall a, b | a in r && b in r && r[a].qboId == r[b].qboId
        ensures a == b
      {
        if a != id && b == id {
          assert m[a].id == Some(a);
        } else if a == id && b != id {
          assert m[b].id == Some(b);
        }
      }
    }
  }

  /** Saving a candidate without an id never changes the status or assigned category of a
      stored transaction: a known `qbo_id` keeps its row (no row is added) with the fetched
      columns replaced, and every other row is as it was. */
  lemma TransactionUpsertKeepsReviewState(m: map<int, Transaction>, next: int, t: Transaction)
    requires TransactionsOk(m, next)
    ensures var r := TransactionUpsert(m, next, t);
            && TransactionsOk(r.table, r.next)
            && m.Keys <= r.table.Keys
            && (forall k :: k in m ==>
                  r.table[k].status == m[k].status && r.table[k].assignedCategoryId == m[k].assignedCategoryId)
            && (forall k :: k in m && k != r.id ==> r.table[k] == m[k])
            && TransactionByQboId(r.table, r.next, t.qboId) == Some(r.table[r.id])
            && (TransactionByQboId(m, next, t.qboId).Some? ==>
                  !r.inserted && r.table.Keys == m.Keys
                  && r.table[r.id] == RefreshTransaction(TransactionByQboId(m, next, t.qboId).value, t))
  {
    var r := TransactionUpsert(m, next, t);
    assert r.table[r.id].qboId == t.qboId;
  }

  /** `get_transactions_by_status` (and `get_pending_transactions`): the rows with that status,
      oldest date first. */
  function TransactionsByStatus(m: map<int, Transaction>, next: int, status: TransactionStatus): (r: seq<Transaction>)
  {
    SortBy(Filter(Rows(m, 1, next), (x: Transaction) => x.status == status), DateFirst)
  }

  /** The filters of `search_transactions`; absent ones do not restrict. */
  datatype TransactionQuery = TransactionQuery(
    status: Option<TransactionStatus>,
    text: Option<string>,
    minAmount: Option<Cents>,
    maxAmount: Option<Cents>,
    startDate: Option<Date>,
    endDate: Option<Date>)

  const NoFilters := TransactionQuery(None, None, None, None, None, None)

  /** `LIKE '%text%'`, case-insensitive in ASCII; a NULL column never matches. */
  predicate Like(column: Option<string>, text: string) {
    column.Some? && Strings.Contains(Strings.AsciiLower(column.value), Strings.AsciiLower(text))
  }

  /** The `WHERE` clause `search_transactions` builds: the text filter applies only to a
      non-empty text, the bounds are inclusive. */
  predicate MatchesQuery(t: Transaction, q: TransactionQuery) {
    && (q.status.Some? ==> t.status == q.status.value)
    && (q.text.Some? && q.text.value != "" ==> Like(Some(t.description), q.text.value) || Like(t.vendorName, q.text.value))
    && (q.minAmount.Some? ==> t.amount >= q.minAmount.value)
    && (q.maxAmount.Some? ==> t.amount <= q.maxAmount.value)
    && (q.startDate.Some? ==> DateLessEq(q.startDate.value, t.date))
    && (q.endDate.Some? ==> DateLessEq(t.date, q.endDate.value))
  }

  /** `search_transactions`. */
  function SearchTransactions(m: map<int, Transaction>, next: int, q: TransactionQuery): (r: seq<Transaction>)
  {
    SortBy(Filter(Rows(m, 1, next), (x: Transaction) => MatchesQuery(x, q)), DateFirst)
  }

  /** A search returns exactly the stored rows meeting every filter given, each once, oldest
      date first; with no filters it returns every stored row. */
  lemma SearchTransactionsExact(m: map<int, Transaction>, next: int, q: TransactionQuery, t: Transaction)
    ensures Sorted(SearchTransactions(m, next, q), DateFirst)
    ensures t in SearchTransactions(m, next, q) <==>
              (exists k :: 1 <= k < next && k in m && m[k] == t) && MatchesQuery(t, q)
    ensures multiset(SearchTransactions(m, next, q)) == multiset(Filter(Rows(m, 1, next), (x: Transaction) => MatchesQuery(x, q)))
    ensures multiset(SearchTransactions(m, next, NoFilters)) == multiset(Rows(m, 1, next))
  {
    var p := (x: Transaction) => MatchesQuery(x, q);
    DateFirstIsStrictWeakOrder();
    SortBySorted(Filter(Rows(m, 1, next), p), DateFirst);
    SortByMembers(Filter(Rows(m, 1, next), p), DateFirst, t);
    FilterMember(Rows(m, 1, next), p, t);
    RowsMembers(m, 1, next, t);
    SortByPermutation(Filter(Rows(m, 1, next), p), DateFirst);
    var all := (x: Transaction) => MatchesQuery(x, NoFilters);
    FilterAll(Rows(m, 1, next), all);
    SortByPermutation(Filter(Rows(m, 1, next), all), DateFirst);
  }

  /** Listing by status is searching by that status alone. */
  lemma TransactionsByStatusIsSearch(m: map<int, Transaction>, next: int, status: TransactionStatus)
    ensures TransactionsByStatus(m, next, status) == SearchTransactions(m, next, NoFilters.(status := Some(status)))
  {
    var q := NoFilters.(status := Some(status));
    FilterCongruent(Rows(m, 1, next), (x: Transaction) => x.status == status, (x: Transaction) => MatchesQuery(x, q));
  }

  /** `update_transaction_status`: that row alone gets the status and the category (which is
      cleared when none is given); a missing id changes nothing. */
  function SetTransactionStatus(m: map<int, Transaction>, id: int, status: TransactionStatus,
                                categoryId: Option<int>): (r: map<int, Transaction>)
    ensures r.Keys == m.Keys
    ensures forall k :: k in m && k != id ==> r[k] == m[k]
    ensures id in m ==> r[id] == m[id].(status := status, assignedCategoryId := categoryId)
  {
    if id in m then m[id := m[id].(status := status, assignedCategoryId := categoryId)] else m
  }

  /** `clear_posted_transactions`: the rows left and the number deleted. */
  function ClearPosted(m: map<int, Transaction>): (r: (map<int, Transaction>, nat))
  {
    var posted := (x: Transaction) => x.status == Posted;
    (RemoveWhere(m, posted), |KeysWhere(m, posted)|)
  }

  /** Clearing deletes exactly the posted rows, keeps every other row unchanged, and counts
      the rows it deleted. */
  lemma ClearPostedExact(m: map<int, Transaction>)
    ensures forall k :: k in ClearPosted(m).0 <==> k in m && m[k].status != Posted
    ensures forall k :: k in ClearPosted(m).0 ==> ClearPosted(m).0[k] == m[k]
    ensures ClearPosted(m).1 == |m.Keys| - |ClearPosted(m).0.Keys|
    ensures ClearPosted(m).1 == |set k | k in m && m[k].status == Posted|
  {
    var posted := (x: Transaction) => x.status == Posted;
    RemoveWhereSplits(m, posted);
    assert KeysWhere(m, posted) == set k | k in m && m[k].status == Posted;
  }

  // ---------------------------------------------------------------------------------------
  // splits

  ghost predicate SplitsOk(m: map<int, TransactionSplit>, next: int) {
    next >= 1 && forall k :: k in m ==> 1 <= k < next && m[k].id == Some(k)
  }

  /** The update path of `save_transaction_split`: every column is written. */
  function SplitUpdate(m: map<int, TransactionSplit>, split: TransactionSplit): (r: map<int, TransactionSplit>)
    requires split.id.Some?
    ensures r.Keys == m.Keys
    ensures forall k :: k in m && k != split.id.value ==> r[k] == m[k]
    ensures split.id.value in m ==> r[split.id.value] == split
  {
    if split.id.value in m then m[split.id.value := split] else m
  }

  /** `get_splits_for_transaction`: in id order. */
  function SplitsFor(m: map<int, TransactionSplit>, next: int, transactionId: int): (r: seq<TransactionSplit>)
  {
    Filter(Rows(m, 1, next), (x: TransactionSplit) => x.transactionId == transactionId)
  }

  /** Deleting a transaction's splits leaves no split of it, and the other splits as they
      were. */
  lemma DeleteSplitsForExact(m: map<int, TransactionSplit>, next: int, transactionId: int, split: TransactionSplit)
    ensures var r := RemoveWhere(m, (x: TransactionSplit) => x.transactionId == transactionId);
            && SplitsFor(r, next, transactionId) == []
            && (forall k :: k in r <==> k in m && m[k].transactionId != transactionId)
            && (forall k :: k in r ==> r[k] == m[k])
    ensures split in SplitsFor(m, next, transactionId) <==>
              (exists k :: 1 <= k < next && k in m && m[k] == split) && split.transactionId == transactionId
  {
    var p := (x: TransactionSplit) => x.transactionId == transactionId;
    var r := RemoveWhere(m, p);
    forall x | x in Rows(r, 1, next)
      ensures !p(x)
    {
      RowsMembers(r, 1, next, x);
    }
    FilterNone(Rows(r, 1, next), p);
    FilterMember(Rows(m, 1, next), p, split);
    RowsMembers(m, 1, next, split);
  }

  // ---------------------------------------------------------------------------------------
  // the repository

  /** `Repository` over one connection: the tables, their AUTOINCREMENT counters, the
      settings and the `schema_version` table (None until the first migration creates it). */
  class Store {
    var tokens: map<int, Token>
    var nextTokenId: int
    var categories: map<int, Category>
    var nextCategoryId: int
    var rules: map<int, Rule>
    var nextRuleId: int
    var vendorMappings: map<int, VendorMapping>
    var nextVendorMappingId: int
    var transactions: map<int, Transaction>
    var nextTransactionId: int
    var splits: map<int, TransactionSplit>
    var nextSplitId: int
    var settings: map<string, string>
    var versionTable: Option<seq<int>>

    /** Every table keeps its keys and its `UNIQUE` columns. */
    ghost predicate Valid()
      reads this
    {
      && TokensOk(tokens, nextTokenId)
      && CategoriesOk(categories, nextCategoryId)
      && RulesOk(rules, nextRuleId)
      && VendorMappingsOk(vendorMappings, nextVendorMappingId)
      && TransactionsOk(transactions, nextTransactionId)
      && SplitsOk(splits, nextSplitId)
    }

    /** A new, empty database file. */
    constructor()
      ensures Valid()
      ensures tokens == map[] && categories == map[] && rules == map[] && vendorMappings == map[]
      ensures transactions == map[] && splits == map[] && settings == map[]
      ensures nextTokenId == 1 && nextCategoryId == 1 && nextRuleId == 1 && nextVendorMappingId == 1
      ensures nextTransactionId == 1 && nextSplitId == 1
      ensures versionTable == None
    {
      tokens, nextTokenId := map[], 1;
      categories, nextCategoryId := map[], 1;
      rules, nextRuleId := map[], 1;
      vendorMappings, nextVendorMappingId := map[], 1;
      transactions, nextTransactionId := map[], 1;
      splits, nextSplitId := map[], 1;
      settings := map[];
      versionTable := None;
    }

    /** `_get_schema_version`. */
    method GetSchemaVersion() returns (v: int)
      ensures v == Migrations.SchemaVersion(versionTable)
    {
      v := Migrations.SchemaVersion(versionTable);
    }

    /** `_run_migrations` (run by `connect`): when the stored version is behind, the pending
        scripts run in order; a failing script raises and leaves the earlier ones applied. */
    method RunMigrations() returns (error: Option<string>)
      modifies this`versionTable
      ensures versionTable == Migrations.AppliedScripts(old(versionTable), Migrations.PendingMigrations(old(versionTable)))
      ensures error.None? <==> Migrations.RunMigrations(old(versionTable)).Ok?
      ensures error.None? ==> Migrations.RunMigrations(old(versionTable)) == Ok(versionTable)
    {
      error := None;
      var current := GetSchemaVersion();
      if current < Migrations.SCHEMA_VERSION {
        var scripts := Migrations.GetMigrationSql(current, Migrations.SCHEMA_VERSION);
        var i := 0;
        while i < |scripts|
          invariant 0 <= i <= |scripts|
          invariant Migrations.AppliedScripts(versionTable, scripts[i..]) == Migrations.AppliedScripts(old(versionTable), scripts)
          invariant Migrations.RunScripts(versionTable, scripts[i..]) == Migrations.RunScripts(old(versionTable), scripts)
        {
          match Migrations.RunScript(versionTable, scripts[i]) {
            case Err(e) =>
              error := Some(e);
              return;
            case Ok(t) =>
              versionTable := t;
          }
          i := i + 1;
        }
      }
    }

    // tokens

    /** `save_token`: without an id, insert or refresh the realm's row; with one, refresh that
        row. Returns the row read back. */
    method SaveToken(token: Token, now: Instant) returns (saved: Option<Token>)
      requires Valid()
      modifies this`tokens, this`nextTokenId
      ensures Valid()
      ensures token.id.None? ==>
                var up := TokenUpsert(old(tokens), old(nextTokenId), token, now);
                tokens == up.table && nextTokenId == up.next && saved == Some(up.table[up.id])
      ensures token.id.Some? ==>
                tokens == TokenUpdate(old(tokens), token, now) && nextTokenId == old(nextTokenId)
                && saved == ById(tokens, token.id.value)
    {
      if token.id.None? {
        var up := TokenUpsert(tokens, nextTokenId, token, now);
        TokenUpsertOneRowPerRealm(tokens, nextTokenId, token, now);
        tokens, nextTokenId := up.table, up.next;
        saved := TokenByRealm(tokens, nextTokenId, token.realmId);
      } else {
        tokens := TokenUpdate(tokens, token, now);
        saved := ById(tokens, token.id.value);
      }
    }

    method GetTokenById(id: int) returns (r: Option<Token>)
      ensures r == ById(tokens, id)
    {
      r := ById(tokens, id);
    }

    method GetTokenByRealm(realmId: string) returns (r: Option<Token>)
      ensures r == TokenByRealm(tokens, nextTokenId, realmId)
    {
      r := TokenByRealm(tokens, nextTokenId, realmId);
    }

    method GetLatestToken() returns (r: Option<Token>)
      ensures r == LatestToken(tokens, nextTokenId)
    {
      r := LatestToken(tokens, nextTokenId);
    }

    method DeleteToken(id: int)
      requires Valid()
      modifies this`tokens
      ensures Valid()
      ensures tokens == old(tokens) - {id}
    {
      tokens := tokens - {id};
    }

    // categories

    /** `save_category`: without an id, insert or refresh the row of that `qbo_id`; with one,
        overwrite that row, which raises on a `qbo_id` clash. */
    method SaveCategory(c: Category) returns (r: Result<Option<Category>, string>)
      requires Valid()
      modifies this`categories, this`nextCategoryId
      ensures Valid()
      ensures c.id.None? ==>
                var up := CategoryUpsert(old(categories), old(nextCategoryId), c);
                categories == up.table && nextCategoryId == up.next && r == Ok(Some(up.table[up.id]))
      ensures c.id.Some? ==>
                nextCategoryId == old(nextCategoryId)
                && match CategoryUpdate(old(categories), old(nextCategoryId), c)
                   case Err(e) => r == Err(e) && categories == old(categories)
                   case Ok(m) => categories == m && r == Ok(ById(m, c.id.value))
    {
      if c.id.None? {
        r := InsertCategory(c);
      } else {
        r := UpdateCategory(c);
      }
    }

    /** The `INSERT ... ON CONFLICT(qbo_id) DO UPDATE` branch of `save_category`. */
    method InsertCategory(c: Category) returns (r: Result<Option<Category>, string>)
      requires Valid() && c.id.None?
      modifies this`categories, this`nextCategoryId
      ensures Valid()
      ensures var up := CategoryUpsert(old(categories), old(nextCategoryId), c);
              categories == up.table && nextCategoryId == up.next && r == Ok(Some(up.table[up.id]))
    {
      var up := CategoryUpsert(categories, nextCategoryId, c);
      CategoryUpsertKeepsUserColumns(categories, nextCategoryId, c);
      categories, nextCategoryId := up.table, up.next;
      r := Ok(CategoryByQboId(categories, nextCategoryId, c.qboId));
    }

    /** The `UPDATE ... WHERE id = ?` branch of `save_category`. */
    method UpdateCategory(c: Category) returns (r: Result<Option<Category>, string>)
      requires Valid() && c.id.Some?
      modifies this`categories
      ensures Valid()
      ensures match CategoryUpdate(old(categories), nextCategoryId, c)
              case Err(e) => r == Err(e) && categories == old(categories)
              case Ok(m) => categories == m && r == Ok(ById(m, c.id.value))
    {
      match CategoryUpdate(categories, nextCategoryId, c) {
        case Err(e) =>
          r := Err(e);
        case Ok(m) =>
          categories := m;
          r := Ok(ById(m, c.id.value));
      }
    }

    method GetCategoryById(id: int) returns (r: Option<Category>)
      ensures r == ById(categories, id)
    {
      r := ById(categories, id);
    }

    method GetCategoryByQboId(qboId: string) returns (r: Option<Category>)
      ensures r == CategoryByQboId(categories, nextCategoryId, qboId)
    {
      r := CategoryByQboId(categories, nextCategoryId, qboId);
    }

    method GetAllCategories() returns (r: seq<Category>)
      ensures r == AllCategories(categories, nextCategoryId)
    {
      r := AllCategories(categories, nextCategoryId);
    }

    method GetVisibleCategories() returns (r: seq<Category>)
      ensures r == VisibleCategories(categories, nextCategoryId)
    {
      r := VisibleCategories(categories, nextCategoryId);
    }

    method UpdateCategoryVisibility(id: int, isVisible: bool)
      requires Valid()
      modifies this`categories
      ensures Valid()
      ensures categories == SetCategoryVisibility(old(categories), id, isVisible)
    {
      categories := SetCategoryVisibility(categories, id, isVisible);
    }

    // rules

    /** `save_rule`: without an id, insert a row with the next id; with one, overwrite that
        row but its `created_at`. */
    method SaveRule(rule: Rule) returns (saved: Option<Rule>)
      requires Valid()
      modifies this`rules, this`nextRuleId
      ensures Valid()
      ensures rule.id.None? ==>
                rules == old(rules)[old(nextRuleId) := rule.(id := Some(old(nextRuleId)))]
                && nextRuleId == old(nextRuleId) + 1 && saved == Some(rules[old(nextRuleId)])
      ensures rule.id.Some? ==>
                rules == RuleUpdate(old(rules), rule) && nextRuleId == old(nextRuleId)
                && saved == ById(rules, rule.id.value)
    {
      if rule.id.None? {
        var id := nextRuleId;
        rules, nextRuleId := rules[id := rule.(id := Some(id))], id + 1;
        saved := ById(rules, id);
      } else {
        rules := RuleUpdate(rules, rule);
        saved := ById(rules, rule.id.value);
      }
    }

    method GetRuleById(id: int) returns (r: Option<Rule>)
      ensures r == ById(rules, id)
    {
      r := ById(rules, id);
    }

    method GetActiveRules() returns (r: seq<Rule>)
      ensures r == ActiveRules(rules, nextRuleId)
    {
      r := ActiveRules(rules, nextRuleId);
    }

    method GetAllRules() returns (r: seq<Rule>)
      ensures r == AllRules(rules, nextRuleId)
    {
      r := AllRules(rules, nextRuleId);
    }

    method DeleteRule(id: int)
      requires Valid()
      modifies this`rules
      ensures Valid()
      ensures rules == old(rules) - {id}
    {
      rules := rules - {id};
    }

    // vendor mappings

    /** `save_vendor_mapping`: without an id, insert or refresh the row of that vendor name;
        with one, overwrite that row's name, vendor id and default category, which raises on a
        name clash. The row returned after an insert or refresh is the vendor's own row. */
    method SaveVendorMapping(mapping: VendorMapping, now: Instant) returns (r: Result<Option<VendorMapping>, string>)
      requires Valid()
      modifies this`vendorMappings, this`nextVendorMappingId
      ensures Valid()
      ensures mapping.id.None? ==>
                var up := VendorMappingUpsert(old(vendorMappings), old(nextVendorMappingId), mapping, now);
                vendorMappings == up.table && nextVendorMappingId == up.next
                && r == Ok(VendorMappingSaved(old(vendorMappings), old(nextVendorMappingId), mapping, now))
                && r == Ok(Some(up.table[up.id]))
      ensures mapping.id.Some? ==>
                nextVendorMappingId == old(nextVendorMappingId)
                && match VendorMappingUpdate(old(vendorMappings), old(nextVendorMappingId), mapping, now)
                   case Err(e) => r == Err(e) && vendorMappings == old(vendorMappings)
                   case Ok(m) => vendorMappings == m && r == Ok(ById(m, mapping.id.value))
    {
      if mapping.id.None? {
        VendorMappingSavedIsTheVendorsRow(vendorMappings, nextVendorMappingId, mapping, now);
        r := Ok(VendorMappingSaved(vendorMappings, nextVendorMappingId, mapping, now));
        var up := VendorMappingUpsert(vendorMappings, nextVendorMappingId, mapping, now);
        vendorMappings, nextVendorMappingId := up.table, up.next;
      } else {
        match VendorMappingUpdate(vendorMappings, nextVendorMappingId, mapping, now) {
          case Err(e) =>
            r := Err(e);
          case Ok(m) =>
            vendorMappings := m;
            r := Ok(ById(m, mapping.id.value));
        }
      }
    }

    method GetVendorMappingById(id: int) returns (r: Option<VendorMapping>)
      ensures r == ById(vendorMappings, id)
    {
      r := ById(vendorMappings, id);
    }

    method GetVendorMappingByName(vendorName: string) returns (r: Option<VendorMapping>)
      ensures r == VendorMappingByName(vendorMappings, nextVendorMappingId, vendorName)
    {
      r := VendorMappingByName(vendorMappings, nextVendorMappingId, vendorName);
    }

    method GetAllVendorMappings() returns (r: seq<VendorMapping>)
      ensures r == AllVendorMappings(vendorMappings, nextVendorMappingId)
    {
      r := AllVendorMappings(vendorMappings, nextVendorMappingId);
    }

    method DeleteVendorMapping(id: int)
      requires Valid()
      modifies this`vendorMappings
      ensures Valid()
      ensures vendorMappings == old(vendorMappings) - {id}
    {
      vendorMappings := vendorMappings - {id};
    }

    // transactions

    /** `save_transaction`: without an id, insert or refresh the row of that `qbo_id` (keeping
        its review state); with one, overwrite that row, which raises on a `qbo_id` clash. */
    method SaveTransaction(t: Transaction) returns (r: Result<Option<Transaction>, string>)
      requires Valid()
      modifies this`transactions, this`nextTransactionId
      ensures Valid()
      ensures t.id.None? ==>
                var up := TransactionUpsert(old(transactions), old(nextTransactionId), t);
                transactions == up.table && nextTransactionId == up.next && r == Ok(Some(up.table[up.id]))
      ensures t.id.Some? ==>
                nextTransactionId == old(nextTransactionId)
                && match TransactionUpdate(old(transactions), old(nextTransactionId), t)
                   case Err(e) => r == Err(e) && transactions == old(transactions)
                   case Ok(m) => transactions == m && r == Ok(ById(m, t.id.value))
    {
      if t.id.None? {
        r := InsertTransaction(t);
      } else {
        r := UpdateTransaction(t);
      }
    }

    /** The `INSERT ... ON CONFLICT(qbo_id) DO UPDATE` branch of `save_transaction`. */
    method InsertTransaction(t: Transaction) returns (r: Result<Option<Transaction>, string>)
      requires Valid() && t.id.None?
      modifies this`transactions, this`nextTransactionId
      ensures Valid()
      ensures var up := TransactionUpsert(old(transactions), old(nextTransactionId), t);
              transactions == up.table && nextTransactionId == up.next && r == Ok(Some(up.table[up.id]))
    {
      var up := TransactionUpsert(transactions, nextTransactionId, t);
      TransactionUpsertKeepsReviewState(transactions, nextTransactionId, t);
      transactions, nextTransactionId := up.table, up.next;
      r := Ok(TransactionByQboId(transactions, nextTransactionId, t.qboId));
    }

    /** The `UPDATE ... WHERE id = ?` branch of `save_transaction`. */
    method UpdateTransaction(t: Transaction) returns (r: Result<Option<Transaction>, string>)
      requires Valid() && t.id.Some?
      modifies this`transactions
      ensures Valid()
      ensures match TransactionUpdate(old(transactions), nextTransactionId, t)
              case Err(e) => r == Err(e) && transactions == old(transactions)
              case Ok(m) => transactions == m && r == Ok(ById(m, t.id.value))
    {
      match TransactionUpdate(transactions, nextTransactionId, t) {
        case Err(e) =>
          r := Err(e);
        case Ok(m) =>
          TransactionUpdateKeepsTable(transactions, nextTransactionId, t);
          transactions := m;
          r := Ok(ById(m, t.id.value));
      }
    }

    method GetTransactionById(id: int) returns (r: Option<Transaction>)
      ensures r == ById(transactions, id)
    {
      r := ById(transactions, id);
    }

    method GetTransactionByQboId(qboId: string) returns (r: Option<Transaction>)
      ensures r == TransactionByQboId(transactions, nextTransactionId, qboId)
    {
      r := TransactionByQboId(transactions, nextTransactionId, qboId);
    }

    method GetTransactionsByStatus(status: TransactionStatus) returns (r: seq<Transaction>)
      ensures r == TransactionsByStatus(transactions, nextTransactionId, status)
    {
      r := TransactionsByStatus(transactions, nextTransactionId, status);
    }

    method GetPendingTransactions() returns (r: seq<Transaction>)
      ensures r == TransactionsByStatus(transactions, nextTransactionId, Pending)
    {
      r := GetTransactionsByStatus(Pending);
    }

    method Search(q: TransactionQuery) returns (r: seq<Transaction>)
      ensures r == SearchTransactions(transactions, nextTransactionId, q)
    {
      r := SearchTransactions(transactions, nextTransactionId, q);
    }

    method UpdateTransactionStatus(id: int, status: TransactionStatus, categoryId: Option<int>)
      requires Valid()
      modifies this`transactions
      ensures Valid()
      ensures transactions == SetTransactionStatus(old(transactions), id, status, categoryId)
    {
      transactions := SetTransactionStatus(transactions, id, status, categoryId);
    }

    /** `delete_transaction`: foreign keys are not switched on for the connection, so the
        splits' `ON DELETE CASCADE` does not fire and the splits stay. */
    method DeleteTransaction(id: int)
      requires Valid()
      modifies this`transactions
      ensures Valid()
      ensures transactions == old(transactions) - {id}
    {
      transactions := transactions - {id};
    }

    method ClearPostedTransactions() returns (count: nat)
      requires Valid()
      modifies this`transactions
      ensures Valid()
      ensures (transactions, count) == ClearPosted(old(transactions))
    {
      var posted := (x: Transaction) => x.status == Posted;
      count := |KeysWhere(transactions, posted)|;
      transactions := RemoveWhere(transactions, posted);
    }

    // splits

    /** `save_transaction_split`: without an id, insert a row with the next id; with one,
        overwrite that row. */
    method SaveTransactionSplit(split: TransactionSplit) returns (saved: Option<TransactionSplit>)
      requires Valid()
      modifies this`splits, this`nextSplitId
      ensures Valid()
      ensures split.id.None? ==>
                splits == old(splits)[old(nextSplitId) := split.(id := Some(old(nextSplitId)))]
                && nextSplitId == old(nextSplitId) + 1 && saved == Some(splits[old(nextSplitId)])
      ensures split.id.Some? ==>
                splits == SplitUpdate(old(splits), split) && nextSplitId == old(nextSplitId)
                && saved == ById(splits, split.id.value)
    {
      if split.id.None? {
        var id := nextSplitId;
        splits, nextSplitId := splits[id := split.(id := Some(id))], id + 1;
        saved := ById(splits, id);
      } else {
        splits := SplitUpdate(splits, split);
        saved := ById(splits, split.id.value);
      }
    }

    method GetSplitById(id: int) returns (r: Option<TransactionSplit>)
      ensures r == ById(splits, id)
    {
      r := ById(splits, id);
    }

    method GetSplitsForTransaction(transactionId: int) returns (r: seq<TransactionSplit>)
      ensures r == SplitsFor(splits, nextSplitId, transactionId)
    {
      r := SplitsFor(splits, nextSplitId, transactionId);
    }

    method DeleteSplitsForTransaction(transactionId: int)
      requires Valid()
      modifies this`splits
      ensures Valid()
      ensures splits == RemoveWhere(old(splits), (x: TransactionSplit) => x.transactionId == transactionId)
    {
      splits := RemoveWhere(splits, (x: TransactionSplit) => x.transactionId == transactionId);
    }

    // settings

    method GetSetting(key: string) returns (r: Option<string>)
      ensures r.Some? <==> key in settings
      ensures r.Some? ==> r.value == settings[key]
    {
      r := if key in settings then Some(settings[key]) else None;
    }

    /** `save_setting`: insert, or replace the value of an existing key. */
    method SaveSetting(key: string, value: string)
      modifies this`settings
      ensures settings == old(settings)[key := value]
    {
      settings := settings[key := value];
    }

    method DeleteSetting(key: string)
      modifies this`settings
      ensures settings == old(settings) - {key}
    {
      settings := settings - {key};
    }
  }
}
