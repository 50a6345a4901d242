/** The transaction review screen: the category display map, the categories offered for
    assignment, the account list and account filter, the status-bar counts, assigning a category
    (and the batch of look-alike transactions it offers), saving visibility changes and the full
    name of a new category.

    The screen's lists share `Transaction` objects with each other and with the table: mutating a
    transaction is seen through every list that holds it. A transaction's `qbo_id` is unique (a
    `UNIQUE` column), so the model identifies the shared object by its `qbo_id` and writes the
    change to every entry with that `qbo_id`. */
module Transactions {
  import opened Wrappers
  import opened Seqs
  import opened Models
  import Strings
  import Api
  import Repository
  import TT = TransactionTable

  const SELECTED_ACCOUNT_KEY: string := "selected_account_id"

  // ---------------------------------------------------------------------------------------
  // category map

  /** `{c.qbo_id: c.name for c in categories}`: a later category wins a repeated `qbo_id`. */
  function QboNames(cats: seq<Category>): (m: map<string, string>)
  {
    if cats == [] then map[] else QboNames(cats[..|cats| - 1])[cats[|cats| - 1].qboId := cats[|cats| - 1].name]
  }

  /** The name map holds exactly the categories' `qbo_id`s, each with the name of the last
      category carrying it. */
  lemma {:induction false} QboNamesSpec(cats: seq<Category>)
    ensures forall q :: q in QboNames(cats) <==> exists i :: 0 <= i < |cats| && cats[i].qboId == q
    ensures forall i :: 0 <= i < |cats| && (forall j :: i < j < |cats| ==> cats[j].qboId != cats[i].qboId) ==>
              QboNames(cats)[cats[i].qboId] == cats[i].name
  {
    if cats != [] {
      var init := cats[..|cats| - 1];
      QboNamesSpec(init);
      assert forall i :: 0 <= i < |init| ==> init[i] == cats[i];
    }
  }

  /** The parent's name: the name under the parent's `qbo_id`, or None without a parent or
      without a category carrying that `qbo_id`. */
  function ParentName(c: Category, names: map<string, string>): (r: Option<string>)
    ensures r.Some? <==> c.parentId.Some? && c.parentId.value in names
    ensures r.Some? ==> r.value == names[c.parentId.value]
  {
    if c.parentId.Some? && c.parentId.value in names then Some(names[c.parentId.value]) else None
  }

  /** The loop of `_build_category_map` over `cats`, with the name map `names`. */
  function CategoryMapFrom(cats: seq<Category>, names: map<string, string>): (m: TT.CategoryMap)
  {
    if cats == [] then map[]
    else
      var m := CategoryMapFrom(cats[..|cats| - 1], names);
      var c := cats[|cats| - 1];
      if c.id.Some? then m[c.id.value := (c.name, ParentName(c, names))] else m
  }

  /** `_build_category_map`. */
  function CategoryMapOf(cats: seq<Category>): (m: TT.CategoryMap)
    ensures forall k :: k in m <==> exists i :: 0 <= i < |cats| && cats[i].id == Some(k)
  {
    CategoryMapFromSpec(cats, QboNames(cats));
    CategoryMapFrom(cats, QboNames(cats))
  }

  /** The map's keys are exactly the categories' local ids; each holds the name and the parent
      name of the last category with that id. */
  lemma {:induction false} CategoryMapFromSpec(cats: seq<Category>, names: map<string, string>)
    ensures forall k :: k in CategoryMapFrom(cats, names) <==> exists i :: 0 <= i < |cats| && cats[i].id == Some(k)
    ensures forall i :: 0 <= i < |cats| && cats[i].id.Some? && (forall j :: i < j < |cats| ==> cats[j].id != cats[i].id) ==>
              && cats[i].id.value in CategoryMapFrom(cats, names)
              && CategoryMapFrom(cats, names)[cats[i].id.value] == (cats[i].name, ParentName(cats[i], names))
  {
    if cats != [] {
      var init, c := cats[..|cats| - 1], cats[|cats| - 1];
      var m0, m := CategoryMapFrom(init, names), CategoryMapFrom(cats, names);
      CategoryMapFromSpec(init, names);
      assert m == if c.id.Some? then m0[c.id.value := (c.name, ParentName(c, names))] else m0;
      forall k
        ensures k in m <==> exists i :: 0 <= i < |cats| && cats[i].id == Some(k)
      {
        if k in m && c.id != Some(k) {
          var i :| 0 <= i < |init| && init[i].id == Some(k);
          assert cats[i] == init[i];
        }
        if exists i :: 0 <= i < |cats| && cats[i].id == Some(k) {
          var i :| 0 <= i < |cats| && cats[i].id == Some(k);
          if i < |init| {
            assert init[i] == cats[i];
          }
        }
      }
      forall i | 0 <= i < |cats| && cats[i].id.Some? && (forall j :: i < j < |cats| ==> cats[j].id != cats[i].id)
        ensures cats[i].id.value in m && m[cats[i].id.value] == (cats[i].name, ParentName(cats[i], names))
      {
        if i < |init| {
          assert init[i] == cats[i];
          assert forall j :: i < j < |init| ==> init[j] == cats[j];
          assert c.id != cats[i].id;
        }
      }
    }
  }

  /** No two categories share a local id. */
  ghost predicate UniqueIds(cats: seq<Category>) {
    forall i, j :: 0 <= i < j < |cats| && cats[i].id.Some? ==> cats[i].id != cats[j].id
  }

  /** No two categories share a `qbo_id`. */
  ghost predicate UniqueQboIds(cats: seq<Category>) {
    forall i, j :: 0 <= i < j < |cats| ==> cats[i].qboId != cats[j].qboId
  }

  /** With unique ids the category map sends each category's id to its name and to the name of
      the category whose `qbo_id` is its `parent_id`, or None when there is none; ids-less
      categories are left out. */
  lemma CategoryMapSpec(cats: seq<Category>)
    requires UniqueIds(cats) && UniqueQboIds(cats)
    ensures forall k :: k in CategoryMapOf(cats) <==> exists i :: 0 <= i < |cats| && cats[i].id == Some(k)
    ensures forall i :: 0 <= i < |cats| && cats[i].id.Some? ==>
              && cats[i].id.value in CategoryMapOf(cats)
              && CategoryMapOf(cats)[cats[i].id.value].0 == cats[i].name
              && (CategoryMapOf(cats)[cats[i].id.value].1.Some? <==>
                    cats[i].parentId.Some? && exists j :: 0 <= j < |cats| && cats[j].qboId == cats[i].parentId.value)
    ensures forall i, j :: 0 <= i < |cats| && 0 <= j < |cats| && cats[i].id.Some? && cats[i].parentId == Some(cats[j].qboId) ==>
              cats[i].id.value in CategoryMapOf(cats) && CategoryMapOf(cats)[cats[i].id.value].1 == Some(cats[j].name)
  {
    var names := QboNames(cats);
    CategoryMapFromSpec(cats, names);
    QboNamesSpec(cats);
  }

  // ---------------------------------------------------------------------------------------
  // effective visibility

  /** The `qbo_id`s of the hidden categories. */
  function HiddenQboIds(cats: seq<Category>): (r: set<string>)
  {
    if cats == [] then {}
    else HiddenQboIds(cats[..|cats| - 1]) + (if !cats[|cats| - 1].isVisible then {cats[|cats| - 1].qboId} else {})
  }

  lemma {:induction false} HiddenQboIdsSpec(cats: seq<Category>)
    ensures forall q :: q in HiddenQboIds(cats) <==> exists i :: 0 <= i < |cats| && !cats[i].isVisible && cats[i].qboId == q
  {
    if cats != [] {
      var init := cats[..|cats| - 1];
      HiddenQboIdsSpec(init);
      assert forall i :: 0 <= i < |init| ==> init[i] == cats[i];
    }
  }

  /** The test the second loop of `_get_effectively_visible_categories` applies. */
  function ShownUnder(hidden: set<string>): (p: Category -> bool)
    ensures forall c: Category :: p(c) <==> c.isVisible && !(c.parentId.Some? && c.parentId.value in hidden)
  {
    (c: Category) => c.isVisible && !(c.parentId.Some? && c.parentId.value in hidden)
  }

  /** The categories offered for assignment are, in order, exactly the visible ones whose direct
      parent is not a hidden category. */
  lemma EffectivelyVisibleSpec(cats: seq<Category>, c: Category)
    ensures c in Filter(cats, ShownUnder(HiddenQboIds(cats))) <==>
              && c in cats && c.isVisible
              && !(c.parentId.Some? && exists i :: 0 <= i < |cats| && !cats[i].isVisible && cats[i].qboId == c.parentId.value)
  {
    HiddenQboIdsSpec(cats);
    FilterMember(cats, ShownUnder(HiddenQboIds(cats)), c);
  }

  // ---------------------------------------------------------------------------------------
  // accounts

  /** The account ids already in `accounts`. */
  predicate Listed(accounts: seq<(string, string)>, id: string) {
    exists j | 0 <= j < |accounts| :: accounts[j].0 == id
  }

  /** The loop of `_build_account_list`: the `seen` dict, kept in insertion order. */
  function AccountList(ts: seq<Transaction>): (r: seq<(string, string)>)
  {
    if ts == [] then []
    else
      var seen := AccountList(ts[..|ts| - 1]);
      var t := ts[|ts| - 1];
      if Listed(seen, t.accountId) then seen else seen + [(t.accountId, t.accountName)]
  }

  /** The test for a transaction of an account. */
  function OnAccount(id: string): (p: Transaction -> bool)
    ensures forall t: Transaction :: p(t) <==> t.accountId == id
  {
    (t: Transaction) => t.accountId == id
  }

  lemma FirstIndexSnoc<T>(s: seq<T>, x: T, p: T -> bool)
    ensures FirstIndex(s, p).Some? ==> FirstIndex(s + [x], p) == FirstIndex(s, p)
    ensures FirstIndex(s, p).None? && p(x) ==> FirstIndex(s + [x], p) == Some(|s|)
    ensures FirstIndex(s, p).None? && !p(x) ==> FirstIndex(s + [x], p).None?
  {
    var r := FirstIndex(s + [x], p);
    assert forall j :: 0 <= j < |s| ==> (s + [x])[j] == s[j];
    assert (s + [x])[|s|] == x;
  }

  /** The account list names exactly the accounts of the transactions. */
  lemma {:induction false} AccountListMembers(ts: seq<Transaction>)
    ensures forall id :: Listed(AccountList(ts), id) <==> exists i :: 0 <= i < |ts| && ts[i].accountId == id
  {
    if ts != [] {
      var init := ts[..|ts| - 1];
      var t := ts[|ts| - 1];
      AccountListMembers(init);
      var seen := AccountList(init);
      var r := AccountList(ts);
      forall id
        ensures Listed(r, id) <==> exists i :: 0 <= i < |ts| && ts[i].accountId == id
      {
        if exists i :: 0 <= i < |ts| && ts[i].accountId == id {
          var i :| 0 <= i < |ts| && ts[i].accountId == id;
          if i < |init| {
            assert init[i].accountId == id;
            assert Listed(seen, id);
            var j :| 0 <= j < |seen| && seen[j].0 == id;
            assert r[j].0 == id;
          } else if !Listed(seen, id) {
            assert r[|seen|].0 == id;
          }
        }
        if Listed(r, id) {
          var j :| 0 <= j < |r| && r[j].0 == id;
          if j < |seen| {
            assert r[j] == seen[j];
            assert Listed(seen, id);
            var i :| 0 <= i < |init| && init[i].accountId == id;
            assert ts[i] == init[i];
          } else {
            assert ts[|ts| - 1].accountId == id;
          }
        }
      }
    }
  }

  /** No account is listed twice. */
  lemma {:induction false} AccountListDistinct(ts: seq<Transaction>)
    ensures forall a, b :: 0 <= a < b < |AccountList(ts)| ==> AccountList(ts)[a].0 != AccountList(ts)[b].0
  {
    if ts != [] {
      AccountListDistinct(ts[..|ts| - 1]);
    }
  }

  /** Each listed account carries the name of its first transaction, and the accounts come in
      the order of their first transactions. */
  lemma {:induction false} AccountListFirstSeen(ts: seq<Transaction>)
    ensures forall a :: 0 <= a < |AccountList(ts)| ==>
              var f := FirstIndex(ts, OnAccount(AccountList(ts)[a].0));
              f.Some? && ts[f.value].accountName == AccountList(ts)[a].1
    ensures forall a, b :: 0 <= a < b < |AccountList(ts)| ==>
              FirstIndex(ts, OnAccount(AccountList(ts)[a].0)).Some? &&
              FirstIndex(ts, OnAccount(AccountList(ts)[b].0)).Some? &&
              FirstIndex(ts, OnAccount(AccountList(ts)[a].0)).value < FirstIndex(ts, OnAccount(AccountList(ts)[b].0)).value
  {
    if ts != [] {
      var init := ts[..|ts| - 1];
      var t := ts[|ts| - 1];
      assert ts == init + [t];
      AccountListFirstSeen(init);
      var seen := AccountList(init);
      forall a | 0 <= a < |seen|
        ensures FirstIndex(ts, OnAccount(seen[a].0)) == FirstIndex(init, OnAccount(seen[a].0))
        ensures FirstIndex(init, OnAccount(seen[a].0)).value < |init|
      {
        FirstIndexSnoc(init, t, OnAccount(seen[a].0));
      }
      if !Listed(seen, t.accountId) {
        AccountListMembers(init);
        FirstIndexSnoc(init, t, OnAccount(t.accountId));
        assert FirstIndex(ts, OnAccount(t.accountId)) == Some(|init|);
      }
    }
  }

  /** The account index `_load_saved_account` and `_handle_account_selected` choose: the first
      position with the id, or the current index when there is no id or no such account. */
  function SelectAccount(index: nat, accounts: seq<(string, string)>, id: Option<string>): (r: nat)
    ensures id.None? ==> r == index
    ensures r == index || (id.Some? && r < |accounts| && accounts[r].0 == id.value)
  {
    if id.None? then index
    else match FirstIndex(accounts, (a: (string, string)) => a.0 == id.value)
      case None => index
      case Some(i) => i
  }

  lemma SelectAccountSpec(index: nat, accounts: seq<(string, string)>, id: Option<string>)
    ensures id.None? ==> SelectAccount(index, accounts, id) == index
    ensures id.Some? && (exists i :: 0 <= i < |accounts| && accounts[i].0 == id.value) ==>
              var r := SelectAccount(index, accounts, id);
              r < |accounts| && accounts[r].0 == id.value && forall j :: 0 <= j < r ==> accounts[j].0 != id.value
    ensures id.Some? && (forall i :: 0 <= i < |accounts| ==> accounts[i].0 != id.value) ==>
              SelectAccount(index, accounts, id) == index
  {
  }

  // ---------------------------------------------------------------------------------------
  // status counts

  predicate IsPendingTxn(t: Transaction) { t.status == Pending }
  predicate IsCategorizedTxn(t: Transaction) { t.status == Categorized }
  predicate IsPostedTxn(t: Transaction) { t.status == Posted }

  /** What `_update_status_bar` shows. */
  datatype Counts = Counts(total: nat, pending: nat, categorized: nat)

  function StatusCounts(ts: seq<Transaction>): (c: Counts)
    ensures c.total == |ts|
    ensures c.pending == |Filter(ts, IsPendingTxn)| && c.categorized == |Filter(ts, IsCategorizedTxn)|
  {
    CountIsFilterLength(ts, IsPendingTxn);
    CountIsFilterLength(ts, IsCategorizedTxn);
    Counts(|ts|, Count(ts, IsPendingTxn), Count(ts, IsCategorizedTxn))
  }

  /** Every transaction is counted once: the pending, the categorized and the posted make up the
      total. */
  lemma {:induction false} StatusCountsPartition(ts: seq<Transaction>)
    ensures StatusCounts(ts).pending + StatusCounts(ts).categorized + Count(ts, IsPostedTxn) == StatusCounts(ts).total
  {
    if ts != [] {
      StatusCountsPartition(ts[1..]);
    }
  }

  // ---------------------------------------------------------------------------------------
  // account filter

  /** `next((i for i, t in enumerate(ts) if t.status == PENDING), 0)`. */
  function FirstPendingOrZero(ts: seq<Transaction>): (r: nat)
    ensures ts != [] ==> r < |ts|
  {
    match FirstIndex(ts, IsPendingTxn)
    case None => 0
    case Some(i) => i
  }

  /** The first transaction shown is the first pending one, or the first of all when none is
      pending. */
  lemma FirstPendingSpec(ts: seq<Transaction>)
    requires ts != []
    ensures (exists i :: 0 <= i < |ts| && ts[i].status == Pending) ==>
              ts[FirstPendingOrZero(ts)].status == Pending
              && forall j :: 0 <= j < FirstPendingOrZero(ts) ==> ts[j].status != Pending
    ensures (forall i :: 0 <= i < |ts| ==> ts[i].status != Pending) ==> FirstPendingOrZero(ts) == 0
  {
    if exists i :: 0 <= i < |ts| && ts[i].status == Pending {
      var i :| 0 <= i < |ts| && ts[i].status == Pending;
      assert IsPendingTxn(ts[i]);
    }
  }

  lemma {:induction false} FilterKeepsDistinctQboIds(ts: seq<Transaction>, p: Transaction -> bool)
    requires TT.DistinctQboIds(ts)
    ensures TT.DistinctQboIds(Filter(ts, p))
  {
    if ts != [] {
      var rest := ts[1..];
      assert TT.DistinctQboIds(rest) by {
        forall i, j | 0 <= i < j < |rest| ensures rest[i].qboId != rest[j].qboId {
          assert rest[i] == ts[i + 1] && rest[j] == ts[j + 1];
        }
      }
      FilterKeepsDistinctQboIds(rest, p);
      var fr := Filter(rest, p);
      forall k | 0 <= k < |fr|
        ensures fr[k].qboId != ts[0].qboId
      {
        FilterMember(rest, p, fr[k]);
        var m :| 0 <= m < |rest| && rest[m] == fr[k];
        assert rest[m] == ts[m + 1];
      }
      var head := if p(ts[0]) then [ts[0]] else [];
      assert Filter(ts, p) == head + fr;
    }
  }

  lemma FilterKeepsValidDates(ts: seq<Transaction>, p: Transaction -> bool)
    requires TT.ValidDates(ts)
    ensures TT.ValidDates(Filter(ts, p))
  {
    var f := Filter(ts, p);
    forall i | 0 <= i < |f|
      ensures Api.ValidDate(f[i].date)
    {
      FilterMember(ts, p, f[i]);
    }
  }

  // ---------------------------------------------------------------------------------------
  // assigning a category

  /** `txn.assigned_category_id = category_id; txn.status = CATEGORIZED`. */
  function Marked(t: Transaction, categoryId: int): (r: Transaction)
  {
    t.(assignedCategoryId := Some(categoryId), status := Categorized)
  }

  /** Every entry sharing the transaction's `qbo_id`, seen after the transaction was changed. */
  function Retag(s: seq<Transaction>, t: Transaction): (r: seq<Transaction>)
    ensures |r| == |s|
    ensures forall i :: 0 <= i < |s| ==> r[i] == if s[i].qboId == t.qboId then t else s[i]
  {
    seq(|s|, i requires 0 <= i < |s| => if s[i].qboId == t.qboId then t else s[i])
  }

  function RetagOne(c: Option<Transaction>, t: Transaction): (r: Option<Transaction>)
  {
    if c.Some? && c.value.qboId == t.qboId then Some(t) else c
  }

  /** Changing a transaction keeps the `qbo_id`s, and every entry stays one of the list's. */
  lemma RetagFacts(s: seq<Transaction>, t: Transaction, x: Transaction)
    requires TT.DistinctQboIds(s) && TT.ValidDates(s) && Api.ValidDate(t.date)
    ensures TT.DistinctQboIds(Retag(s, t)) && TT.ValidDates(Retag(s, t))
    ensures x in s ==> (if x.qboId == t.qboId then t else x) in Retag(s, t)
  {
    if x in s {
      var i :| 0 <= i < |s| && s[i] == x;
      assert Retag(s, t)[i] == if x.qboId == t.qboId then t else x;
    }
  }

  /** Every entry of `f` is an entry of `a`. */
  ghost predicate EntriesOf(f: seq<Transaction>, a: seq<Transaction>)
  {
    forall x :: x in f ==> x in a
  }

  /** A list whose entries are all entries of another stays so after both see the change. */
  lemma {:induction false} RetagKeepsSublist(f: seq<Transaction>, a: seq<Transaction>, t: Transaction)
    requires EntriesOf(f, a)
    ensures EntriesOf(Retag(f, t), Retag(a, t))
  {
    forall y | y in Retag(f, t)
      ensures y in Retag(a, t)
    {
      var i :| 0 <= i < |f| && Retag(f, t)[i] == y;
      assert f[i] in a;
      var j :| 0 <= j < |a| && a[j] == f[i];
      assert Retag(a, t)[j] == y;
    }
  }

  /** With distinct `qbo_id`s, the table's replace-the-first-match is the shared-object update. */
  lemma RetagIsReplaceFirst(ts: seq<Transaction>, t: Transaction)
    requires TT.DistinctQboIds(ts)
    ensures TT.ReplaceFirst(ts, t) == Retag(ts, t)
  {
    var f := FirstIndex(ts, TT.HasQboId(t.qboId));
    if f.Some? {
      forall j | 0 <= j < |ts| && j != f.value
        ensures ts[j].qboId != t.qboId
      {
      }
    }
  }

  /** The truthiness of an optional id (`if txn.id`): present and not zero. */
  predicate Truthy(id: Option<int>) {
    id.Some? && id.value != 0
  }

  /** The batch candidate test: pending, the same description, a different id. */
  function IsBatchCandidate(txn: Transaction): (p: Transaction -> bool)
    ensures forall t: Transaction :: p(t) <==>
              t.status == Pending && t.description == txn.description && t.id != txn.id
  {
    (t: Transaction) => t.status == Pending && t.description == txn.description && t.id != txn.id
  }

  function BatchCandidates(all: seq<Transaction>, txn: Transaction): (r: seq<Transaction>)
    ensures |r| <= |all|
    ensures forall i :: 0 <= i < |r| ==>
              r[i].status == Pending && r[i].description == txn.description && r[i].id != txn.id
  {
    FilterSatisfies(all, IsBatchCandidate(txn));
    Filter(all, IsBatchCandidate(txn))
  }

  /** The candidates are, in order, exactly the pending transactions with an identical
      description and a different id; the just-categorized transaction is never one of them. */
  lemma BatchCandidatesSpec(all: seq<Transaction>, txn: Transaction, t: Transaction)
    ensures t in BatchCandidates(all, txn) <==>
              t in all && t.status == Pending && t.description == txn.description && t.id != txn.id
    ensures txn.status == Categorized ==> txn !in BatchCandidates(all, txn)
  {
    FilterMember(all, IsBatchCandidate(txn), t);
    FilterMember(all, IsBatchCandidate(txn), txn);
  }

  /** What the batch confirmation shows. */
  datatype BatchPrompt = BatchPrompt(count: nat, description: string, categoryName: string)

  /** The category name in the batch confirmation: the category's name, or `#id` for an id the
      map does not know. */
  function BatchLabel(categoryMap: TT.CategoryMap, categoryId: int): (r: string)
    ensures categoryId in categoryMap ==> r == categoryMap[categoryId].0
    ensures categoryId !in categoryMap ==> |r| >= 2 && r[0] == '#' && r[1..] == Strings.IntToString(categoryId)
  {
    if categoryId in categoryMap then categoryMap[categoryId].0 else "#" + Strings.IntToString(categoryId)
  }

  /** The batch confirmation names the category as its table cell does. */
  lemma BatchLabelMatchesCategoryCell(categoryMap: TT.CategoryMap, categoryId: int)
    ensures BatchLabel(categoryMap, categoryId) == TT.CategoryCell(Some(categoryId), categoryMap)[0].text
  {
  }

  /** The value `self._category_map.get(category_id, f'#{category_id}')` yields: a map value is
      the whole `(name, parent_name)` pair. */
  datatype LabelValue = Text(s: string) | NameAndParent(name: string, parent: Option<string>)

  function BatchLabelAsWritten(categoryMap: TT.CategoryMap, categoryId: int): (r: LabelValue)
    ensures categoryId !in categoryMap ==> r == Text("#" + Strings.IntToString(categoryId))
  {
    if categoryId in categoryMap then NameAndParent(categoryMap[categoryId].0, categoryMap[categoryId].1)
    else Text("#" + Strings.IntToString(categoryId))
  }

  /** For a known category the value handed to the confirmation is a pair, not the name text. */
  lemma BatchLabelAsWrittenIsAPair(categoryMap: TT.CategoryMap, categoryId: int)
    requires categoryId in categoryMap
    ensures !BatchLabelAsWritten(categoryMap, categoryId).Text?
    ensures BatchLabelAsWritten(categoryMap, categoryId).name == BatchLabel(categoryMap, categoryId)
  {
  }

  /** The confirmation pushed when there are candidates. */
  function BatchPromptFor(matching: seq<Transaction>, txn: Transaction, categoryMap: TT.CategoryMap,
                         categoryId: int): (r: Option<BatchPrompt>)
    ensures r.Some? <==> matching != []
    ensures r.Some? ==> r.value.count == |matching| && r.value.description == txn.description
                        && r.value.categoryName == BatchLabel(categoryMap, categoryId)
  {
    if matching == [] then None else Some(BatchPrompt(|matching|, txn.description, BatchLabel(categoryMap, categoryId)))
  }

  /** The lists after `_batch_categorize_async` marks each transaction in turn. */
  function BatchApply(s: seq<Transaction>, txns: seq<Transaction>, categoryId: int): (r: seq<Transaction>)
    ensures |r| == |s|
  {
    if txns == [] then s else Retag(BatchApply(s, txns[..|txns| - 1], categoryId), Marked(txns[|txns| - 1], categoryId))
  }

  function BatchApplyOne(c: Option<Transaction>, txns: seq<Transaction>, categoryId: int): (r: Option<Transaction>)
  {
    if txns == [] then c else RetagOne(BatchApplyOne(c, txns[..|txns| - 1], categoryId), Marked(txns[|txns| - 1], categoryId))
  }

  /** The store after the batch: one `update_transaction_status` per transaction with an id. */
  function StoreBatch(m: map<int, Transaction>, txns: seq<Transaction>, categoryId: int): (r: map<int, Transaction>)
  {
    if txns == [] then m
    else
      var before := StoreBatch(m, txns[..|txns| - 1], categoryId);
      var t := txns[|txns| - 1];
      if Truthy(t.id) then Repository.SetTransactionStatus(before, t.id.value, Categorized, Some(categoryId)) else before
  }

  /** Some member of the batch has the `qbo_id`. */
  ghost predicate InBatch(txns: seq<Transaction>, qboId: string) {
    exists j :: 0 <= j < |txns| && txns[j].qboId == qboId
  }

  lemma InBatchSnoc(txns: seq<Transaction>, qboId: string)
    requires txns != []
    ensures InBatch(txns, qboId) <==> InBatch(txns[..|txns| - 1], qboId) || txns[|txns| - 1].qboId == qboId
  {
    var init := txns[..|txns| - 1];
    if InBatch(txns, qboId) && txns[|txns| - 1].qboId != qboId {
      var j :| 0 <= j < |txns| && txns[j].qboId == qboId;
      assert init[j] == txns[j];
    }
    if InBatch(init, qboId) {
      var j :| 0 <= j < |init| && init[j].qboId == qboId;
      assert txns[j] == init[j];
    }
  }

  /** When the batch holds entries of the list, exactly the entries sharing a batch member's
      `qbo_id` end up Categorized under the category; every other entry is unchanged. */
  lemma {:induction false} BatchApplyCategorizes(s: seq<Transaction>, txns: seq<Transaction>, categoryId: int)
    requires TT.DistinctQboIds(s)
    requires forall t :: t in txns ==> t in s
    ensures forall i :: 0 <= i < |s| ==>
              BatchApply(s, txns, categoryId)[i] == if InBatch(txns, s[i].qboId) then Marked(s[i], categoryId) else s[i]
  {
    if txns != [] {
      var init := txns[..|txns| - 1];
      var t := txns[|txns| - 1];
      assert forall x :: x in init ==> x in txns;
      BatchApplyCategorizes(s, init, categoryId);
      assert t in txns;
      assert txns == init + [t];
      var k :| 0 <= k < |s| && s[k] == t;
      forall i | 0 <= i < |s|
        ensures BatchApply(s, txns, categoryId)[i] == if InBatch(txns, s[i].qboId) then Marked(s[i], categoryId) else s[i]
      {
        InBatchSnoc(txns, s[i].qboId);
        BatchApplyStep(s, init, t, categoryId, i, k);
      }
    }
  }

  /** One more batch member: entry `i` changes exactly when it shares that member's `qbo_id`. */
  lemma BatchApplyStep(s: seq<Transaction>, init: seq<Transaction>, t: Transaction, categoryId: int, i: nat, k: nat)
    requires TT.DistinctQboIds(s)
    requires i < |s| && k < |s| && s[k] == t
    requires BatchApply(s, init, categoryId)[i] == if InBatch(init, s[i].qboId) then Marked(s[i], categoryId) else s[i]
    ensures BatchApply(s, init + [t], categoryId)[i] ==
              if InBatch(init, s[i].qboId) || t.qboId == s[i].qboId then Marked(s[i], categoryId) else s[i]
  {
    var txns := init + [t];
    assert txns[..|txns| - 1] == init;
    assert s[i].qboId == t.qboId ==> i == k;
  }

  /** The batch's store writes: every row keeps its key; a row whose id is a batch member's
      (non-zero) id is Categorized under the category, and every other row is unchanged. */
  lemma {:induction false} StoreBatchSpec(m: map<int, Transaction>, txns: seq<Transaction>, categoryId: int)
    ensures StoreBatch(m, txns, categoryId).Keys == m.Keys
    ensures forall k :: k in m ==>
              StoreBatch(m, txns, categoryId)[k] ==
                if exists j :: 0 <= j < |txns| && Truthy(txns[j].id) && txns[j].id.value == k
                then m[k].(status := Categorized, assignedCategoryId := Some(categoryId)) else m[k]
  {
    if txns != [] {
      var init := txns[..|txns| - 1];
      var t := txns[|txns| - 1];
      StoreBatchSpec(m, init, categoryId);
      forall k | k in m
        ensures (exists j :: 0 <= j < |txns| && Truthy(txns[j].id) && txns[j].id.value == k) <==>
                (exists j :: 0 <= j < |init| && Truthy(init[j].id) && init[j].id.value == k) || (Truthy(t.id) && t.id.value == k)
      {
        assert forall j :: 0 <= j < |init| ==> init[j] == txns[j];
        if Truthy(t.id) && t.id.value == k {
          assert Truthy(txns[|txns| - 1].id) && txns[|txns| - 1].id.value == k;
        }
      }
    }
  }

  // ---------------------------------------------------------------------------------------
  // visibility changes

  /** The no-repository path: every category whose id is in the change map takes its flag. */
  function ApplyVisibility(cats: seq<Category>, changes: map<int, bool>): (r: seq<Category>)
    ensures |r| == |cats|
  {
    Map(cats, (c: Category) => if c.id.Some? && c.id.value in changes then c.(isVisible := changes[c.id.value]) else c)
  }

  /** `cats[i]` is the first category with its id. */
  predicate FirstWithId(cats: seq<Category>, i: nat)
    requires i < |cats|
  {
    cats[i].id.Some? && forall j | 0 <= j < i :: cats[j].id != cats[i].id
  }

  /** The repository path after the keys `keys` of the change map: for each of them the first
      category with that id takes its flag. */
  function VisibilitySaved(cats: seq<Category>, changes: map<int, bool>, keys: set<int>): (r: seq<Category>)
    requires keys <= changes.Keys
    ensures |r| == |cats|
    ensures forall i :: 0 <= i < |cats| ==>
              r[i] == if FirstWithId(cats, i) && cats[i].id.value in keys then cats[i].(isVisible := changes[cats[i].id.value]) else cats[i]
  {
    seq(|cats|, i requires 0 <= i < |cats| =>
      if FirstWithId(cats, i) && cats[i].id.value in keys then cats[i].(isVisible := changes[cats[i].id.value]) else cats[i])
  }

  /** The store's categories after the keys `keys` of the change map. */
  function StoreVisibility(m: map<int, Category>, changes: map<int, bool>, keys: set<int>): (r: map<int, Category>)
    requires keys <= changes.Keys
    ensures r.Keys == m.Keys
    ensures forall k :: k in m ==> r[k] == if k in keys then m[k].(isVisible := changes[k]) else m[k]
  {
    map k | k in m :: if k in keys then m[k].(isVisible := changes[k]) else m[k]
  }

  /** Both save paths change only the visibility, and only of categories whose id is in the
      change map; with unique ids they agree. */
  lemma VisibilitySaveSpec(cats: seq<Category>, changes: map<int, bool>)
    ensures forall i :: 0 <= i < |cats| ==>
              && ApplyVisibility(cats, changes)[i] == cats[i].(isVisible := ApplyVisibility(cats, changes)[i].isVisible)
              && VisibilitySaved(cats, changes, changes.Keys)[i] == cats[i].(isVisible := VisibilitySaved(cats, changes, changes.Keys)[i].isVisible)
    ensures forall i :: 0 <= i < |cats| && (cats[i].id.None? || cats[i].id.value !in changes) ==>
              ApplyVisibility(cats, changes)[i] == cats[i] && VisibilitySaved(cats, changes, changes.Keys)[i] == cats[i]
    ensures forall i :: 0 <= i < |cats| && cats[i].id.Some? && cats[i].id.value in changes ==>
              ApplyVisibility(cats, changes)[i].isVisible == changes[cats[i].id.value]
    ensures UniqueIds(cats) ==> VisibilitySaved(cats, changes, changes.Keys) == ApplyVisibility(cats, changes)
  {
    if UniqueIds(cats) {
      forall i | 0 <= i < |cats| && cats[i].id.Some?
        ensures FirstWithId(cats, i)
      {
      }
    }
  }

  // ---------------------------------------------------------------------------------------
  // creating a category

  /** The `full_name` given to a new category: the parent's full name, `:` and the name when a
      parent `qbo_id` is given and a category carries it (the first one); otherwise the name. */
  method FullNameFor(cats: seq<Category>, name: string, parentQboId: Option<string>) returns (fullName: string)
    ensures parentQboId.Some? && parentQboId.value != [] &&
            FirstIndex(cats, (c: Category) => c.qboId == parentQboId.value).Some? ==>
              fullName == cats[FirstIndex(cats, (c: Category) => c.qboId == parentQboId.value).value].fullName + ":" + name
    ensures parentQboId.None? || parentQboId.value == [] ||
            FirstIndex(cats, (c: Category) => c.qboId == parentQboId.value).None? ==>
              fullName == name
    ensures fullName[|fullName| - |name|..] == name
  {
    fullName := name;
    if parentQboId.Some? && parentQboId.value != [] {
      var parent := parentQboId.value;
      ghost var p := (c: Category) => c.qboId == parent;
      var i := 0;
      while i < |cats|
        invariant 0 <= i <= |cats|
        invariant forall j :: 0 <= j < i ==> cats[j].qboId != parent
        invariant fullName == name
      {
        if cats[i].qboId == parent {
          assert FirstIndex(cats, p) == Some(i);
          fullName := cats[i].fullName + ":" + name;
          break;
        }
        i := i + 1;
      }
    }
  }

  // ---------------------------------------------------------------------------------------
  // the screen

  /** `TransactionsScreen`. The status bar is kept as what it shows: the account name and the
      counts. */
  class TransactionsScreen {
    var currentTransaction: Option<Transaction>
    var allTransactions: seq<Transaction>
    var filteredTransactions: seq<Transaction>
    var categories: seq<Category>
    var categoryMap: TT.CategoryMap
    var accounts: seq<(string, string)>
    var currentAccountIndex: nat
    var accountLabel: string
    var counts: Counts
    const table: TT.TransactionTable

    /** The loaded transactions have distinct `qbo_id`s and calendar dates; the filtered list
        holds loaded transactions only, so that an entry's `qbo_id` stands for the shared
        object; the table shows the filtered list (the same list object) and is in step; the
        current transaction is one of the loaded ones. */
    ghost predicate Valid()
      reads this, table
    {
      && TT.DistinctQboIds(allTransactions) && TT.ValidDates(allTransactions)
      && EntriesOf(filteredTransactions, allTransactions)
      && table.Synced() && table.transactions == filteredTransactions
      && (currentTransaction.Some? ==> currentTransaction.value in allTransactions)
    }

    constructor(money: Cents -> string)
      ensures Valid()
      ensures currentTransaction.None? && allTransactions == [] && filteredTransactions == []
      ensures categories == [] && categoryMap == map[] && accounts == [] && currentAccountIndex == 0
      ensures table.transactions == [] && table.categories == map[] && table.money == money
      ensures fresh(table)
    {
      currentTransaction := None;
      allTransactions := [];
      filteredTransactions := [];
      categories := [];
      categoryMap := map[];
      accounts := [];
      currentAccountIndex := 0;
      accountLabel := "";
      counts := Counts(0, 0, 0);
      table := new TT.TransactionTable(None, money);
    }

    /** `_build_category_map`. */
    method BuildCategoryMap() returns (result: TT.CategoryMap)
      ensures result == CategoryMapOf(categories)
    {
      var names := QboNames(categories);
      result := map[];
      var i := 0;
      while i < |categories|
        invariant 0 <= i <= |categories|
        invariant result == CategoryMapFrom(categories[..i], names)
      {
        var c := categories[i];
        assert categories[..i + 1][..i] == categories[..i];
        if c.id.Some? {
          var parentName: Option<string> := None;
          if c.parentId.Some? {
            parentName := if c.parentId.value in names then Some(names[c.parentId.value]) else None;
          }
          result := result[c.id.value := (c.name, parentName)];
        }
        i := i + 1;
      }
      assert categories[..|categories|] == categories;
    }

    /** `_get_effectively_visible_categories`. */
    method EffectivelyVisibleCategories() returns (result: seq<Category>)
      ensures result == Filter(categories, ShownUnder(HiddenQboIds(categories)))
    {
      var hidden: set<string> := {};
      var i := 0;
      while i < |categories|
        invariant 0 <= i <= |categories|
        invariant hidden == HiddenQboIds(categories[..i])
      {
        assert categories[..i + 1][..i] == categories[..i];
        if !categories[i].isVisible {
          hidden := hidden + {categories[i].qboId};
        }
        i := i + 1;
      }
      assert categories[..|categories|] == categories;
      result := [];
      i := 0;
      while i < |categories|
        invariant 0 <= i <= |categories|
        invariant result == Filter(categories[..i], ShownUnder(hidden))
      {
        var c := categories[i];
        assert categories[..i + 1] == categories[..i] + [c];
        FilterSnoc(categories[..i], c, ShownUnder(hidden));
        if !c.isVisible {
          i := i + 1;
          continue;
        }
        if c.parentId.Some? && c.parentId.value in hidden {
          i := i + 1;
          continue;
        }
        result := result + [c];
        i := i + 1;
      }
      assert categories[..|categories|] == categories;
    }

    /** `_build_account_list`. */
    method BuildAccountList()
      modifies this`accounts
      ensures accounts == AccountList(allTransactions)
    {
      var seen: seq<(string, string)> := [];
      var i := 0;
      while i < |allTransactions|
        invariant 0 <= i <= |allTransactions|
        invariant seen == AccountList(allTransactions[..i])
      {
        var txn := allTransactions[i];
        assert allTransactions[..i + 1][..i] == allTransactions[..i];
        if !Listed(seen, txn.accountId) {
          seen := seen + [(txn.accountId, txn.accountName)];
        }
        i := i + 1;
      }
      assert allTransactions[..|allTransactions|] == allTransactions;
      accounts := seen;
    }

    /** The loop both account handlers run: the first position with `accountId`, if any. */
    method SelectAccountIndex(accountId: string)
      modifies this`currentAccountIndex
      ensures currentAccountIndex == SelectAccount(old(currentAccountIndex), accounts, Some(accountId))
    {
      ghost var p := (a: (string, string)) => a.0 == accountId;
      var i := 0;
      while i < |accounts|
        invariant 0 <= i <= |accounts|
        invariant forall j :: 0 <= j < i ==> accounts[j].0 != accountId
        invariant currentAccountIndex == old(currentAccountIndex)
      {
        if accounts[i].0 == accountId {
          assert FirstIndex(accounts, p) == Some(i);
          currentAccountIndex := i;
          return;
        }
        i := i + 1;
      }
      assert FirstIndex(accounts, p).None?;
    }

    /** `_load_saved_account`: without a repository nothing happens. */
    method LoadSavedAccount(store: Repository.Store?)
      modifies this`currentAccountIndex
      ensures store == null ==> currentAccountIndex == old(currentAccountIndex)
      ensures store != null ==>
                currentAccountIndex == SelectAccount(old(currentAccountIndex), accounts,
                                                     if SELECTED_ACCOUNT_KEY in store.settings
                                                     then Some(store.settings[SELECTED_ACCOUNT_KEY]) else None)
    {
      if store == null {
        return;
      }
      var saved := store.GetSetting(SELECTED_ACCOUNT_KEY);
      if saved.Some? {
        SelectAccountIndex(saved.value);
      }
    }

    /** `_update_status_bar`. */
    method UpdateStatusBar(ts: seq<Transaction>)
      modifies this`counts
      ensures counts == StatusCounts(ts)
    {
      var total := |ts|;
      var pending := Count(ts, IsPendingTxn);
      var categorized := Count(ts, IsCategorizedTxn);
      counts := Counts(total, pending, categorized);
    }

    /** The screen shows account `i`: the filtered list is the account's transactions in order,
        the table and the status bar show it, and a non-empty list starts at its first pending
        transaction (or its first). */
    ghost predicate ShowsAccount(i: nat)
      reads this, table
    {
      i < |accounts| && ShowsList(accounts[i].0, accounts[i].1) && Focused()
    }

    /** The filtered list, the table and the status bar show the account `accountId`. */
    ghost predicate ShowsList(accountId: string, name: string)
      reads this`filteredTransactions, this`allTransactions, this`accountLabel, this`counts, table`transactions
    {
      && filteredTransactions == Filter(allTransactions, OnAccount(accountId))
      && accountLabel == name
      && table.transactions == filteredTransactions
      && counts == StatusCounts(filteredTransactions)
    }

    /** A non-empty filtered list has its first pending transaction (or its first) current and
        under the cursor. */
    ghost predicate Focused()
      reads this`filteredTransactions, this`currentTransaction, table`cursorRow
    {
      filteredTransactions != [] ==>
        && currentTransaction == Some(filteredTransactions[FirstPendingOrZero(filteredTransactions)])
        && table.cursorRow == FirstPendingOrZero(filteredTransactions)
    }

    /** `_apply_account_filter`: an index past the account list raises `IndexError` and changes
        nothing. */
    method ApplyAccountFilter() returns (indexError: bool)
      requires Valid()
      modifies this`filteredTransactions, this`accountLabel, this`counts, this`currentTransaction
      modifies table`transactions, table`transactionMap, table`rows, table`cursorRow
      ensures Valid()
      ensures indexError <==> old(currentAccountIndex) >= |accounts|
      ensures indexError ==> unchanged(this) && unchanged(table)
      ensures !indexError ==> ShowsAccount(currentAccountIndex)
      ensures !indexError ==> table.transactionMap == TT.QboMap(filteredTransactions)
      ensures filteredTransactions == [] ==> currentTransaction == old(currentTransaction)
      ensures !indexError && filteredTransactions == [] ==> table.cursorRow == 0
    {
      if currentAccountIndex >= |accounts| {
        return true;
      }
      ShowSelectedAccount();
      return false;
    }

    /** `_apply_account_filter` for an index within the account list. */
    method ShowSelectedAccount()
      requires Valid() && currentAccountIndex < |accounts|
      modifies this`filteredTransactions, this`accountLabel, this`counts, this`currentTransaction
      modifies table`transactions, table`transactionMap, table`rows, table`cursorRow
      ensures Valid()
      ensures ShowsAccount(currentAccountIndex)
      ensures table.transactionMap == TT.QboMap(filteredTransactions)
      ensures filteredTransactions == [] ==> currentTransaction == old(currentTransaction) && table.cursorRow == 0
    {
      var accountId, accountName := accounts[currentAccountIndex].0, accounts[currentAccountIndex].1;
      var p := OnAccount(accountId);
      FilterKeepsDistinctQboIds(allTransactions, p);
      FilterKeepsValidDates(allTransactions, p);
      forall t | t in Filter(allTransactions, p)
        ensures t in allTransactions
      {
        FilterMember(allTransactions, p, t);
      }
      ShowList(Filter(allTransactions, p), accountName);
    }

    /** A list goes to the filtered list, the table and the status bar; when it is not empty
        its first pending transaction (or its first) becomes current and goes under the cursor. */
    method ShowList(shown: seq<Transaction>, name: string)
      requires Valid()
      requires TT.DistinctQboIds(shown) && TT.ValidDates(shown)
      requires forall t :: t in shown ==> t in allTransactions
      modifies this`filteredTransactions, this`accountLabel, this`counts, this`currentTransaction
      modifies table`transactions, table`transactionMap, table`rows, table`cursorRow
      ensures Valid()
      ensures filteredTransactions == shown && accountLabel == name && table.transactions == shown
      ensures table.transactionMap == TT.QboMap(shown)
      ensures counts == StatusCounts(shown)
      ensures Focused()
      ensures shown == [] ==> currentTransaction == old(currentTransaction) && table.cursorRow == 0
    {
      LoadList(shown, name);
      FocusList(shown);
    }

    /** The list goes to the filtered list, the table and the status bar; the cleared table has
        its cursor on row 0. */
    method LoadList(shown: seq<Transaction>, name: string)
      requires Valid()
      requires TT.DistinctQboIds(shown) && TT.ValidDates(shown)
      requires forall t :: t in shown ==> t in allTransactions
      modifies this`filteredTransactions, this`accountLabel, this`counts
      modifies table`transactions, table`transactionMap, table`rows, table`cursorRow
      ensures Valid()
      ensures table.cursorRow == 0
      ensures filteredTransactions == shown && accountLabel == name && table.transactions == shown
      ensures table.transactionMap == TT.QboMap(shown)
      ensures counts == StatusCounts(shown)
    {
      table.LoadTransactions(shown);
      filteredTransactions := shown;
      accountLabel := name;
      UpdateStatusBar(shown);
    }

    /** A non-empty list has its first pending transaction (or its first) made current and put
        under the cursor. */
    method FocusList(shown: seq<Transaction>)
      requires Valid() && filteredTransactions == shown
      requires forall t :: t in shown ==> t in allTransactions
      modifies this`currentTransaction, table`cursorRow
      ensures Valid()
      ensures Focused()
      ensures shown == [] ==> currentTransaction == old(currentTransaction) && table.cursorRow == old(table.cursorRow)
    {
      if shown != [] {
        var firstPending := FirstPendingOrZero(shown);
        table.MoveCursor(firstPending);
        currentTransaction := Some(shown[firstPending]);
      }
    }

    /** `_handle_account_selected` and `_save_account_preference`: no id changes nothing; an id
        selects its first position (an unknown one keeps the index), the account filter is
        applied, and the id is saved as a setting when there is a repository. */
    method HandleAccountSelected(accountId: Option<string>, store: Repository.Store?) returns (indexError: bool)
      requires Valid()
      modifies this`currentAccountIndex, this`filteredTransactions, this`accountLabel, this`counts, this`currentTransaction
      modifies table`transactions, table`transactionMap, table`rows, table`cursorRow
      modifies (if store == null then {} else {store})`settings
      ensures Valid()
      ensures accountId.None? ==> !indexError && unchanged(this) && unchanged(table) && (store != null ==> unchanged(store))
      ensures accountId.Some? ==>
                && currentAccountIndex == SelectAccount(old(currentAccountIndex), accounts, accountId)
                && (indexError <==> currentAccountIndex >= |accounts|)
                && (!indexError ==> ShowsAccount(currentAccountIndex))
                && (indexError ==> unchanged(this) && unchanged(table))
                && (store != null ==>
                      store.settings == if indexError then old(store.settings)
                                        else old(store.settings)[SELECTED_ACCOUNT_KEY := accountId.value])
      ensures filteredTransactions == [] ==> currentTransaction == old(currentTransaction)
    {
      if accountId.None? {
        return false;
      }
      SelectAccountIndex(accountId.value);
      indexError := ApplyAccountFilter();
      if indexError {
        return;
      }
      if store != null {
        store.SaveSetting(SELECTED_ACCOUNT_KEY, accountId.value);
      }
    }

    /** Marking one transaction as `_assign_category_async` and `_batch_categorize_async` both
        do: the changed transaction is seen in every list holding an entry with its `qbo_id`,
        written to the store when there is one and it has a (non-zero) id, and updated in the
        table. */
    method Categorize(u: Transaction, store: Repository.Store?)
      requires Valid()
      requires store != null ==> store.Valid()
      requires Api.ValidDate(u.date)
      modifies this`currentTransaction, this`allTransactions, this`filteredTransactions
      modifies table`transactions, table`transactionMap, table`rows
      modifies (if store == null then {} else {store})`transactions
      ensures Valid()
      ensures allTransactions == Retag(old(allTransactions), u)
      ensures filteredTransactions == Retag(old(filteredTransactions), u)
      ensures currentTransaction == RetagOne(old(currentTransaction), u)
      ensures store != null ==>
                && store.Valid()
                && store.transactions == if Truthy(u.id)
                                         then Repository.SetTransactionStatus(old(store.transactions), u.id.value, u.status, u.assignedCategoryId)
                                         else old(store.transactions)
    {
      SaveStatus(store, u);
      RetagShown(u);
    }

    /** The lists and the table after the shared transaction object was changed. */
    method RetagShown(u: Transaction)
      requires Valid()
      requires Api.ValidDate(u.date)
      modifies this`currentTransaction, this`allTransactions, this`filteredTransactions
      modifies table`transactions, table`transactionMap, table`rows
      ensures Valid()
      ensures allTransactions == Retag(old(allTransactions), u)
      ensures filteredTransactions == Retag(old(filteredTransactions), u)
      ensures currentTransaction == RetagOne(old(currentTransaction), u)
    {
      RetagIsReplaceFirst(filteredTransactions, u);
      NoEntryNoReplace(table.transactions, table.transactionMap, u);
      RetagLists(u);
      table.UpdateTransaction(u);
    }

    /** The screen's own lists after the shared transaction object was changed. */
    method RetagLists(u: Transaction)
      requires TT.DistinctQboIds(allTransactions) && TT.ValidDates(allTransactions) && Api.ValidDate(u.date)
      requires currentTransaction.Some? ==> currentTransaction.value in allTransactions
      requires EntriesOf(filteredTransactions, allTransactions)
      modifies this`currentTransaction, this`allTransactions, this`filteredTransactions
      ensures TT.DistinctQboIds(allTransactions) && TT.ValidDates(allTransactions)
      ensures currentTransaction.Some? ==> currentTransaction.value in allTransactions
      ensures EntriesOf(filteredTransactions, allTransactions)
      ensures allTransactions == Retag(old(allTransactions), u)
      ensures filteredTransactions == Retag(old(filteredTransactions), u)
      ensures currentTransaction == RetagOne(old(currentTransaction), u)
    {
      RetagFacts(allTransactions, u, if currentTransaction.Some? then currentTransaction.value else u);
      RetagKeepsSublist(filteredTransactions, allTransactions, u);
      allTransactions := Retag(allTransactions, u);
      filteredTransactions := Retag(filteredTransactions, u);
      currentTransaction := RetagOne(currentTransaction, u);
    }

    /** `_assign_category_async`: the current transaction is categorized (in every list that
        holds it), written to the store when there is one and the transaction has an id, and
        updated in the table; the counts are refreshed; the batch confirmation offered is that
        of the pending look-alike transactions. */
    method AssignCategory(categoryId: int, store: Repository.Store?) returns (prompt: Option<BatchPrompt>)
      requires Valid()
      requires store != null ==> store.Valid()
      modifies this`currentTransaction, this`allTransactions, this`filteredTransactions, this`counts
      modifies table`transactions, table`transactionMap, table`rows
      modifies (if store == null then {} else {store})`transactions
      ensures Valid()
      ensures store != null ==> store.Valid()
      ensures old(currentTransaction).None? ==>
                prompt.None? && unchanged(this) && unchanged(table) && (store != null ==> unchanged(store))
      ensures old(currentTransaction).Some? ==>
                var txn := Marked(old(currentTransaction).value, categoryId);
                && currentTransaction == Some(txn)
                && allTransactions == Retag(old(allTransactions), txn)
                && filteredTransactions == Retag(old(filteredTransactions), txn)
                && (store != null ==>
                      store.transactions == if Truthy(txn.id)
                                            then Repository.SetTransactionStatus(old(store.transactions), txn.id.value, Categorized, Some(categoryId))
                                            else old(store.transactions))
                && counts == StatusCounts(filteredTransactions)
                && prompt == BatchPromptFor(BatchCandidates(allTransactions, txn), txn, categoryMap, categoryId)
    {
      if currentTransaction.None? {
        return None;
      }
      prompt := AssignCurrent(categoryId, store);
    }

    /** `_assign_category_async` once there is a current transaction. */
    method AssignCurrent(categoryId: int, store: Repository.Store?) returns (prompt: Option<BatchPrompt>)
      requires Valid() && currentTransaction.Some?
      requires store != null ==> store.Valid()
      modifies this`currentTransaction, this`allTransactions, this`filteredTransactions, this`counts
      modifies table`transactions, table`transactionMap, table`rows
      modifies (if store == null then {} else {store})`transactions
      ensures Valid()
      ensures store != null ==> store.Valid()
      ensures var txn := Marked(old(currentTransaction).value, categoryId);
              && currentTransaction == Some(txn)
              && allTransactions == Retag(old(allTransactions), txn)
              && filteredTransactions == Retag(old(filteredTransactions), txn)
              && (store != null ==>
                    store.transactions == if Truthy(txn.id)
                                          then Repository.SetTransactionStatus(old(store.transactions), txn.id.value, Categorized, Some(categoryId))
                                          else old(store.transactions))
              && counts == StatusCounts(filteredTransactions)
              && prompt == BatchPromptFor(BatchCandidates(allTransactions, txn), txn, categoryMap, categoryId)
    {
      var txn := Marked(currentTransaction.value, categoryId);
      assert Api.ValidDate(txn.date) by {
        var k :| 0 <= k < |allTransactions| && allTransactions[k] == currentTransaction.value;
      }
      CategorizeAndCount(txn, store);
      var matching := BatchCandidates(allTransactions, txn);
      prompt := BatchPromptFor(matching, txn, categoryMap, categoryId);
    }

    /** `Categorize`, then `_update_status_bar`. */
    method CategorizeAndCount(u: Transaction, store: Repository.Store?)
      requires Valid()
      requires store != null ==> store.Valid()
      requires Api.ValidDate(u.date)
      modifies this`currentTransaction, this`allTransactions, this`filteredTransactions, this`counts
      modifies table`transactions, table`transactionMap, table`rows
      modifies (if store == null then {} else {store})`transactions
      ensures Valid()
      ensures allTransactions == Retag(old(allTransactions), u)
      ensures filteredTransactions == Retag(old(filteredTransactions), u)
      ensures currentTransaction == RetagOne(old(currentTransaction), u)
      ensures store != null ==>
                && store.Valid()
                && store.transactions == if Truthy(u.id)
                                         then Repository.SetTransactionStatus(old(store.transactions), u.id.value, u.status, u.assignedCategoryId)
                                         else old(store.transactions)
      ensures counts == StatusCounts(filteredTransactions)
    {
      Categorize(u, store);
      UpdateStatusBar(filteredTransactions);
    }

    /** `_batch_categorize_async`: each transaction in turn is categorized (in every list that
        holds it), written to the store when there is one and it has an id, and updated in the
        table; then the counts are refreshed. A `datetime` is always a calendar date. */
    method BatchCategorize(txns: seq<Transaction>, categoryId: int, store: Repository.Store?)
      requires Valid()
      requires store != null ==> store.Valid()
      requires TT.ValidDates(txns)
      modifies this`currentTransaction, this`allTransactions, this`filteredTransactions, this`counts
      modifies table`transactions, table`transactionMap, table`rows
      modifies (if store == null then {} else {store})`transactions
      ensures Valid()
      ensures store != null ==> store.Valid() && store.transactions == StoreBatch(old(store.transactions), txns, categoryId)
      ensures allTransactions == BatchApply(old(allTransactions), txns, categoryId)
      ensures filteredTransactions == BatchApply(old(filteredTransactions), txns, categoryId)
      ensures currentTransaction == BatchApplyOne(old(currentTransaction), txns, categoryId)
      ensures counts == StatusCounts(filteredTransactions)
    {
      var i := 0;
      while i < |txns|
        invariant 0 <= i <= |txns|
        invariant Valid()
        invariant store != null ==> store.Valid() && store.transactions == StoreBatch(old(store.transactions), txns[..i], categoryId)
        invariant allTransactions == BatchApply(old(allTransactions), txns[..i], categoryId)
        invariant filteredTransactions == BatchApply(old(filteredTransactions), txns[..i], categoryId)
        invariant currentTransaction == BatchApplyOne(old(currentTransaction), txns[..i], categoryId)
      {
        assert txns[..i + 1][..i] == txns[..i];
        assert txns[..i + 1][i] == txns[i];
        Categorize(Marked(txns[i], categoryId), store);
        i := i + 1;
      }
      assert txns[..|txns|] == txns;
      UpdateStatusBar(filteredTransactions);
    }

    /** `_save_visibility_changes_async`. Without a repository every category whose id is in
        the change map takes its flag; with one, each key of the map is written to the store and
        to the first category with that id. The category map is rebuilt either way. */
    method SaveVisibilityChanges(changes: map<int, bool>, store: Repository.Store?)
      requires store != null ==> store.Valid()
      modifies this`categories, this`categoryMap, (if store == null then {} else {store})`categories
      ensures store == null ==> categories == ApplyVisibility(old(categories), changes)
      ensures store != null ==>
                && categories == VisibilitySaved(old(categories), changes, changes.Keys)
                && store.Valid()
                && store.categories == StoreVisibility(old(store.categories), changes, changes.Keys)
      ensures categoryMap == CategoryMapOf(categories)
    {
      if store == null {
        ApplyVisibilityLocally(changes);
      } else {
        SaveVisibilityToStore(changes, store);
      }
      categoryMap := BuildCategoryMap();
    }

    /** The path without a repository. */
    method ApplyVisibilityLocally(changes: map<int, bool>)
      modifies this`categories
      ensures categories == ApplyVisibility(old(categories), changes)
    {
      var i := 0;
      while i < |categories|
        invariant 0 <= i <= |categories|
        invariant |categories| == |old(categories)|
        invariant forall j :: 0 <= j < |categories| ==>
                    categories[j] == if j < i then ApplyVisibility(old(categories), changes)[j] else old(categories)[j]
      {
        var cat := categories[i];
        if cat.id.Some? && cat.id.value in changes {
          categories := categories[i := cat.(isVisible := changes[cat.id.value])];
        }
        i := i + 1;
      }
    }

    /** The path with a repository, over the keys of the change map. */
    method SaveVisibilityToStore(changes: map<int, bool>, store: Repository.Store)
      requires store.Valid()
      modifies this`categories, store`categories
      ensures categories == VisibilitySaved(old(categories), changes, changes.Keys)
      ensures store.Valid()
      ensures store.categories == StoreVisibility(old(store.categories), changes, changes.Keys)
    {
      var pending := changes.Keys;
      var done: set<int> := {};
      while pending != {}
        invariant pending + done == changes.Keys && pending !! done
        invariant categories == VisibilitySaved(old(categories), changes, done)
        invariant store.Valid()
        invariant store.categories == StoreVisibility(old(store.categories), changes, done)
        decreases pending
      {
        assert (forall x :: x !in pending) ==> pending == {};
        var catId :| catId in pending;
        var isVisible := changes[catId];
        StoreVisibilityStep(old(store.categories), changes, done, catId);
        VisibilitySavedStep(old(categories), changes, done, catId);
        store.UpdateCategoryVisibility(catId, isVisible);
        SetFirstVisibility(catId, isVisible);
        pending, done := pending - {catId}, done + {catId};
      }
    }

    /** The inner loop of the repository path: the first category with id `catId` takes the
        flag. */
    method SetFirstVisibility(catId: int, isVisible: bool)
      modifies this`categories
      ensures categories == SetFirst(old(categories), catId, isVisible)
    {
      var i := 0;
      while i < |categories|
        invariant 0 <= i <= |categories|
        invariant forall j :: 0 <= j < i ==> categories[j].id != Some(catId)
        invariant categories == old(categories)
      {
        if categories[i].id == Some(catId) {
          assert FirstIndex(categories, HasId(catId)) == Some(i);
          categories := categories[i := categories[i].(isVisible := isVisible)];
          return;
        }
        i := i + 1;
      }
      assert FirstIndex(categories, HasId(catId)).None?;
    }
  }

  function HasId(k: int): (p: Category -> bool)
    ensures forall c: Category :: p(c) <==> c.id == Some(k)
  {
    (c: Category) => c.id == Some(k)
  }

  /** The first category with id `k` takes the flag `v`. */
  function SetFirst(cats: seq<Category>, k: int, v: bool): (r: seq<Category>)
  {
    match FirstIndex(cats, HasId(k))
    case None => cats
    case Some(i) => cats[i := cats[i].(isVisible := v)]
  }

  lemma StoreVisibilityStep(m: map<int, Category>, changes: map<int, bool>, done: set<int>, k: int)
    requires done <= changes.Keys && k in changes && k !in done
    ensures Repository.SetCategoryVisibility(StoreVisibility(m, changes, done), k, changes[k]) ==
            StoreVisibility(m, changes, done + {k})
  {
  }

  /** Saving key `k` after the keys `done`. */
  lemma VisibilitySavedStep(cats: seq<Category>, changes: map<int, bool>, done: set<int>, k: int)
    requires done <= changes.Keys && k in changes && k !in done
    ensures SetFirst(VisibilitySaved(cats, changes, done), k, changes[k]) == VisibilitySaved(cats, changes, done + {k})
  {
    var before := VisibilitySaved(cats, changes, done);
    var after := VisibilitySaved(cats, changes, done + {k});
    assert forall j :: 0 <= j < |cats| ==> before[j].id == cats[j].id;
    var f := FirstIndex(before, HasId(k));
    if f.Some? {
      var i := f.value;
      assert FirstWithId(cats, i);
      forall j | 0 <= j < |cats|
        ensures before[i := before[i].(isVisible := changes[k])][j] == after[j]
      {
      }
    } else {
      forall j | 0 <= j < |cats|
        ensures before[j] == after[j]
      {
        assert cats[j].id != Some(k);
      }
    }
  }

  /** `update_transaction_status`, run when there is a repository and the transaction has a
      (non-zero) id. */
  method SaveStatus(store: Repository.Store?, u: Transaction)
    requires store != null ==> store.Valid()
    modifies (if store == null then {} else {store})`transactions
    ensures store != null ==>
              && store.Valid()
              && store.transactions == if Truthy(u.id)
                                       then Repository.SetTransactionStatus(old(store.transactions), u.id.value, u.status, u.assignedCategoryId)
                                       else old(store.transactions)
  {
    if store != null && Truthy(u.id) {
      store.UpdateTransactionStatus(u.id.value, u.status, u.assignedCategoryId);
    }
  }

  lemma NoEntryNoReplace(ts: seq<Transaction>, m: map<string, Transaction>, t: Transaction)
    ensures TT.KeysListed(ts, m) && t.qboId !in m ==> TT.ReplaceFirst(ts, t) == ts
  {
    if TT.KeysListed(ts, m) && t.qboId !in m {
      assert forall i :: 0 <= i < |ts| ==> ts[i].qboId != t.qboId;
      assert FirstIndex(ts, TT.HasQboId(t.qboId)).None?;
    }
  }
}
