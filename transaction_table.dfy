/** The transaction table widget: the cells a transaction is shown with, and the table's own
    state (its transaction list, the lookup by `qbo_id`, the rows and the cursor). Rich `Text`
    values are sequences of styled spans. */
module TransactionTable {
  import opened Wrappers
  import opened Seqs
  import opened Models
  import Strings
  import Api

  /** A run of text with a Rich style. */
  datatype Span = Span(text: string, style: string)

  function PlainText(spans: seq<Span>): (r: string)
    ensures spans == [] ==> r == ""
  {
    if spans == [] then "" else PlainText(spans[..|spans| - 1]) + spans[|spans| - 1].text
  }

  /** `STATUS_ICONS`: an icon and a colour for each status. */
  function StatusIcon(s: TransactionStatus): (r: (string, string))
    ensures |r.0| == 1 && r.1 != ""
  {
    match s
    case Pending => ("●", "yellow")
    case Categorized => ("✓", "green")
    case Posted => ("✔", "blue")
  }

  /** The icon table covers every status and tells the statuses apart by icon and by colour. */
  lemma StatusIconsDistinct(a: TransactionStatus, b: TransactionStatus)
    ensures StatusIcon(a).0 == StatusIcon(b).0 <==> a == b
    ensures StatusIcon(a).1 == StatusIcon(b).1 <==> a == b
    ensures |StatusIcon(a).0| == 1
  {
  }

  /** `_status_cell`. */
  function StatusCell(s: TransactionStatus): (r: Span)
    ensures r.text == StatusIcon(s).0 && r.style == StatusIcon(s).1
  {
    Span(StatusIcon(s).0, StatusIcon(s).1)
  }

  /** `_amount_cell`: `$` and the magnitude, formatted by `money` (`,.2f`), with a leading `-`
      and red for a negative amount, green otherwise. */
  function AmountCell(amount: Cents, money: Cents -> string): (r: Span)
    ensures r.style == (if amount < 0 then "red" else "green")
    ensures amount >= 0 ==> r.text == "$" + money(amount)
    ensures amount < 0 ==> r.text == "-$" + money(-amount)
  {
    var formatted := "$" + money(if amount < 0 then -amount else amount);
    if amount < 0 then Span("-" + formatted, "red") else Span(formatted, "green")
  }

  /** The amount cell starts with `-`, and is red, exactly for a negative amount; a negative
      amount reads as `-` followed by the cell of its magnitude. */
  lemma AmountCellSign(amount: Cents, money: Cents -> string)
    ensures var r := AmountCell(amount, money);
            && (r.text[0] == '-' <==> amount < 0)
            && (r.style == "red" <==> amount < 0)
            && (amount >= 0 ==> r.text == "$" + money(amount))
            && (amount < 0 ==> r.text == "-" + AmountCell(-amount, money).text)
  {
  }

  const MAX_DESCRIPTION: nat := 40
  const MAX_VENDOR: nat := 20

  /** Truncation to `maxLen` characters, the last three of them an ellipsis. */
  function Truncated(s: string, maxLen: nat): (r: string)
    requires maxLen >= 3
    ensures |r| <= maxLen
    ensures |s| <= maxLen ==> r == s
    ensures |s| > maxLen ==> |r| == maxLen
  {
    if |s| > maxLen then s[..maxLen - 3] + "..." else s
  }

  /** A text that fits is kept; a longer one becomes exactly `maxLen` characters: its first
      `maxLen - 3` and an ellipsis. */
  lemma TruncatedSpec(s: string, maxLen: nat)
    requires maxLen >= 3
    ensures |s| <= maxLen ==> Truncated(s, maxLen) == s
    ensures |s| > maxLen ==>
              |Truncated(s, maxLen)| == maxLen
              && Truncated(s, maxLen)[..maxLen - 3] == s[..maxLen - 3]
              && Truncated(s, maxLen)[maxLen - 3..] == "..."
    ensures |Truncated(s, maxLen)| <= maxLen
  {
  }

  /** `_description_cell`. */
  function DescriptionCell(description: string): (r: string)
    ensures |r| <= MAX_DESCRIPTION
  {
    TruncatedSpec(description, MAX_DESCRIPTION);
    Truncated(description, MAX_DESCRIPTION)
  }

  /** `_vendor_cell`: `-` for a missing or empty name. */
  function VendorCell(vendorName: Option<string>): (r: string)
    ensures vendorName.None? || vendorName.value == [] ==> r == "-"
    ensures vendorName.Some? && vendorName.value != [] ==> r == Truncated(vendorName.value, MAX_VENDOR)
    ensures |r| <= MAX_VENDOR
  {
    if vendorName.None? || vendorName.value == [] then "-"
    else
      TruncatedSpec(vendorName.value, MAX_VENDOR);
      Truncated(vendorName.value, MAX_VENDOR)
  }

  /** The category display map: local id to name and parent name. */
  type CategoryMap = map<int, (string, Option<string>)>

  /** `_category_cell`. */
  function CategoryCell(categoryId: Option<int>, categories: CategoryMap): (r: seq<Span>)
    ensures 1 <= |r| <= 3
    ensures categoryId.None? ==> r[0].text == "Uncategorized"
    ensures categoryId.Some? && categoryId.value !in categories ==> r == [Span("#" + Strings.IntToString(categoryId.value), "cyan")]
    ensures categoryId.Some? && categoryId.value in categories ==> r[0].text == categories[categoryId.value].0
  {
    if categoryId.None? then [Span("Uncategorized", "dim italic")]
    else if categoryId.value !in categories then [Span("#" + Strings.IntToString(categoryId.value), "cyan")]
    else
      var (name, parentName) := categories[categoryId.value];
      if Strings.Contains(name, "Uncategorized") then [Span(name, "dim italic")]
      else if parentName.Some? && parentName.value != [] then
        [Span(name, "cyan"), Span(" < ", "dim"), Span(parentName.value, "dim cyan")]
      else [Span(name, "cyan")]
  }

  /** What the category cell reads: "Uncategorized" when nothing is assigned, `#id` for an id
      with no entry, a name containing "Uncategorized" alone, and otherwise the name, followed by
      " < " and the parent's name when there is a non-empty one. */
  lemma CategoryCellText(categoryId: Option<int>, categories: CategoryMap)
    ensures var text := PlainText(CategoryCell(categoryId, categories));
            && (categoryId.None? ==> text == "Uncategorized")
            && (categoryId.Some? && categoryId.value !in categories ==>
                  text == "#" + Strings.IntToString(categoryId.value))
            && (categoryId.Some? && categoryId.value in categories ==>
                  var (name, parentName) := categories[categoryId.value];
                  && (Strings.Contains(name, "Uncategorized") ==> text == name)
                  && (!Strings.Contains(name, "Uncategorized") && parentName.Some? && parentName.value != [] ==>
                        text == name + " < " + parentName.value)
                  && (!Strings.Contains(name, "Uncategorized") && (parentName.None? || parentName.value == []) ==>
                        text == name))
  {
    var r := CategoryCell(categoryId, categories);
    if |r| == 3 {
      assert r[..2][..1] == [r[0]];
      assert PlainText(r) == PlainText(r[..2]) + r[2].text;
      assert PlainText(r[..2]) == PlainText(r[..1]) + r[1].text;
      assert PlainText(r[..1]) == PlainText([]) + r[0].text;
    } else {
      assert PlainText(r) == PlainText(r[..0]) + r[0].text;
    }
  }

  /** The cells of a row. */
  datatype RowCells = RowCells(status: Span, date: string, amount: Span, description: string,
                               vendor: string, category: seq<Span>)

  /** A table row and its key. */
  datatype Row = Row(key: string, cells: RowCells)

  /** The row `load_transactions` adds for a transaction. */
  function RowOf(t: Transaction, categories: CategoryMap, money: Cents -> string): (r: Row)
    requires Api.ValidDate(t.date)
    ensures r.key == t.qboId
    ensures |r.cells.date| == 10 && |r.cells.description| <= MAX_DESCRIPTION && |r.cells.vendor| <= MAX_VENDOR
  {
    Row(t.qboId, RowCells(StatusCell(t.status), Api.FormatDate(t.date), AmountCell(t.amount, money),
                          DescriptionCell(t.description), VendorCell(t.vendorName),
                          CategoryCell(t.assignedCategoryId, categories)))
  }

  ghost predicate ValidDates(ts: seq<Transaction>) {
    forall i :: 0 <= i < |ts| ==> Api.ValidDate(ts[i].date)
  }

  /** The rows `load_transactions` adds for `ts`, one per transaction, in order. */
  function Rows(ts: seq<Transaction>, categories: CategoryMap, money: Cents -> string): (r: seq<Row>)
    requires ValidDates(ts)
    ensures |r| == |ts|
  {
    if ts == [] then []
    else Rows(ts[..|ts| - 1], categories, money) + [RowOf(ts[|ts| - 1], categories, money)]
  }

  /** One more transaction loaded: one more entry in the lookup and one more row. */
  lemma LoadStep(ts: seq<Transaction>, i: nat, categories: CategoryMap, money: Cents -> string)
    requires i < |ts| && ValidDates(ts)
    ensures ValidDates(ts[..i + 1])
    ensures QboMap(ts[..i + 1]) == QboMap(ts[..i])[ts[i].qboId := ts[i]]
    ensures Rows(ts[..i + 1], categories, money) == Rows(ts[..i], categories, money) + [RowOf(ts[i], categories, money)]
  {
    assert ts[..i + 1][..i] == ts[..i];
    assert ts[..i + 1][i] == ts[i];
  }

  /** The loop of `load_transactions`: each transaction is added to the lookup and gets its
      row, in order. */
  method LoadedRows(ts: seq<Transaction>, categories: CategoryMap, money: Cents -> string)
    returns (lookup: map<string, Transaction>, added: seq<Row>)
    requires ValidDates(ts)
    ensures lookup == QboMap(ts)
    ensures added == Rows(ts, categories, money)
  {
    lookup, added := map[], [];
    var i := 0;
    while i < |ts|
      invariant 0 <= i <= |ts|
      invariant ValidDates(ts[..i])
      invariant lookup == QboMap(ts[..i])
      invariant added == Rows(ts[..i], categories, money)
    {
      var txn := ts[i];
      LoadStep(ts, i, categories, money);
      lookup := lookup[txn.qboId := txn];
      added := added + [RowOf(txn, categories, money)];
      i := i + 1;
    }
    assert ts[..|ts|] == ts;
  }

  ghost predicate DistinctQboIds(ts: seq<Transaction>) {
    forall i, j :: 0 <= i < j < |ts| ==> ts[i].qboId != ts[j].qboId
  }

  /** `_transaction_map` after loading `ts`: each `qbo_id` to the last transaction with it. */
  function QboMap(ts: seq<Transaction>): (m: map<string, Transaction>)
  {
    if ts == [] then map[] else QboMap(ts[..|ts| - 1])[ts[|ts| - 1].qboId := ts[|ts| - 1]]
  }

  /** The lookup holds exactly the loaded `qbo_id`s, and with distinct ids each maps to its
      transaction. */
  lemma {:induction false} QboMapSpec(ts: seq<Transaction>)
    ensures forall k :: k in QboMap(ts) <==> exists i :: 0 <= i < |ts| && ts[i].qboId == k
    ensures DistinctQboIds(ts) ==> forall i :: 0 <= i < |ts| ==> QboMap(ts)[ts[i].qboId] == ts[i]
  {
    if ts != [] {
      var init := ts[..|ts| - 1];
      QboMapSpec(init);
      assert forall i :: 0 <= i < |init| ==> init[i] == ts[i];
      if DistinctQboIds(ts) {
        assert DistinctQboIds(init);
      }
    }
  }

  /** The lookup's keys are exactly the listed `qbo_id`s. */
  ghost predicate KeysListed(ts: seq<Transaction>, m: map<string, Transaction>) {
    forall k :: k in m <==> exists i :: 0 <= i < |ts| && ts[i].qboId == k
  }

  /** The lookup maps each listed `qbo_id` to its transaction. */
  ghost predicate LookupAgrees(ts: seq<Transaction>, m: map<string, Transaction>) {
    forall i :: 0 <= i < |ts| ==> ts[i].qboId in m && m[ts[i].qboId] == ts[i]
  }

  /** One row per listed transaction, in order, keyed by it and showing its status. */
  ghost predicate RowsAgree(ts: seq<Transaction>, rows: seq<Row>) {
    && |rows| == |ts|
    && (forall i :: 0 <= i < |rows| ==> rows[i].key == ts[i].qboId && rows[i].cells.status == StatusCell(ts[i].status))
  }

  /** The list, the lookup and the rows describe the same transactions. */
  ghost predicate SyncedState(ts: seq<Transaction>, m: map<string, Transaction>, rows: seq<Row>) {
    DistinctQboIds(ts) && KeysListed(ts, m) && LookupAgrees(ts, m) && RowsAgree(ts, rows)
  }

  lemma {:induction false} RowsAgreeLoaded(ts: seq<Transaction>, categories: CategoryMap, money: Cents -> string)
    requires ValidDates(ts)
    ensures RowsAgree(ts, Rows(ts, categories, money))
  {
    if ts != [] {
      var init := ts[..|ts| - 1];
      assert ValidDates(init);
      RowsAgreeLoaded(init, categories, money);
      var before := Rows(init, categories, money);
      var last := RowOf(ts[|ts| - 1], categories, money);
      assert Rows(ts, categories, money) == before + [last];
      forall i | 0 <= i < |ts|
        ensures (before + [last])[i].key == ts[i].qboId
        ensures (before + [last])[i].cells.status == StatusCell(ts[i].status)
      {
        if i < |init| {
          assert (before + [last])[i] == before[i] && init[i] == ts[i];
        }
      }
    }
  }

  /** Loading transactions with distinct `qbo_id`s puts the table in step. */
  lemma LoadedSynced(ts: seq<Transaction>, categories: CategoryMap, money: Cents -> string)
    requires DistinctQboIds(ts) && ValidDates(ts)
    ensures SyncedState(ts, QboMap(ts), Rows(ts, categories, money))
  {
    QboMapSpec(ts);
    RowsAgreeLoaded(ts, categories, money);
  }

  /** The row list with the status and category cells of the row with key `key` replaced. */
  function UpdatedRows(rows: seq<Row>, key: string, status: Span, category: seq<Span>): (r: seq<Row>)
    ensures |r| == |rows|
    ensures forall i :: 0 <= i < |rows| ==>
              r[i] == if rows[i].key == key then rows[i].(cells := rows[i].cells.(status := status, category := category)) else rows[i]
  {
    Map(rows, (row: Row) => if row.key == key then row.(cells := row.cells.(status := status, category := category)) else row)
  }

  /** The test `update_transaction` looks for its transaction with. */
  function HasQboId(key: string): (p: Transaction -> bool)
    ensures forall x: Transaction :: p(x) <==> x.qboId == key
  {
    (x: Transaction) => x.qboId == key
  }

  /** The transaction list with its first entry for `t.qbo_id` replaced by `t`. */
  function ReplaceFirst(ts: seq<Transaction>, t: Transaction): (r: seq<Transaction>)
    ensures |r| == |ts|
    ensures FirstIndex(ts, HasQboId(t.qboId)).None? ==> r == ts
    ensures FirstIndex(ts, HasQboId(t.qboId)).Some? ==>
              r == ts[FirstIndex(ts, HasQboId(t.qboId)).value := t]
  {
    match FirstIndex(ts, HasQboId(t.qboId))
    case None => ts
    case Some(i) => ts[i := t]
  }

  /** `TransactionTable`. `money` formats an amount (`,.2f`). */
  class TransactionTable {
    var transactions: seq<Transaction>
    var transactionMap: map<string, Transaction>
    var categories: CategoryMap
    var rows: seq<Row>
    var cursorRow: int
    const money: Cents -> string

    ghost predicate Synced()
      reads this`transactions, this`transactionMap, this`rows
    {
      SyncedState(transactions, transactionMap, rows)
    }

    /** `categories or {}`. */
    constructor(categories: Option<CategoryMap>, money: Cents -> string)
      ensures transactions == [] && transactionMap == map[] && rows == [] && cursorRow == 0
      ensures this.categories == (if categories.Some? then categories.value else map[])
      ensures this.money == money
      ensures Synced()
    {
      transactions := [];
      transactionMap := map[];
      this.categories := if categories.Some? then categories.value else map[];
      rows := [];
      cursorRow := 0;
      this.money := money;
    }

    /** `set_categories`. */
    method SetCategories(categories: CategoryMap)
      modifies this`categories
      ensures this.categories == categories
    {
      this.categories := categories;
    }

    /** `load_transactions`. The table refuses two rows with one key, so the `qbo_id`s are
        distinct; `clear()` puts the cursor back on row 0. */
    method LoadTransactions(ts: seq<Transaction>)
      requires DistinctQboIds(ts) && ValidDates(ts)
      modifies this`transactions, this`transactionMap, this`rows, this`cursorRow
      ensures transactions == ts
      ensures transactionMap == QboMap(ts)
      ensures rows == Rows(ts, categories, money)
      ensures cursorRow == 0
      ensures Synced()
    {
      var lookup, added := LoadedRows(ts, categories, money);
      transactions, transactionMap, rows, cursorRow := ts, lookup, added, 0;
      LoadedSynced(ts, categories, money);
    }

    /** `move_cursor(row=...)`. */
    method MoveCursor(row: int)
      modifies this`cursorRow
      ensures cursorRow == row
    {
      cursorRow := row;
    }

    /** `get_current_transaction`. */
    method GetCurrentTransaction() returns (r: Option<Transaction>)
      ensures r.Some? <==> |rows| > 0 && 0 <= cursorRow < |transactions|
      ensures r.Some? ==> r.value == transactions[cursorRow]
    {
      if |rows| == 0 {
        return None;
      }
      var row := cursorRow;
      if row < 0 || row >= |transactions| {
        return None;
      }
      return Some(transactions[row]);
    }

    /** `update_transaction`: an unknown `qbo_id` changes nothing. */
    method UpdateTransaction(t: Transaction)
      modifies this`transactionMap, this`transactions, this`rows
      ensures t.qboId !in old(transactionMap) ==>
                transactionMap == old(transactionMap) && transactions == old(transactions) && rows == old(rows)
      ensures t.qboId in old(transactionMap) ==>
                && transactionMap == old(transactionMap)[t.qboId := t]
                && transactions == ReplaceFirst(old(transactions), t)
                && rows == UpdatedRows(old(rows), t.qboId, StatusCell(t.status), CategoryCell(t.assignedCategoryId, categories))
      ensures old(Synced()) ==> Synced()
    {
      var key := t.qboId;
      if key in transactionMap {
        var category := CategoryCell(t.assignedCategoryId, categories);
        ReplaceFirstSynced(transactions, transactionMap, rows, t, category);
        var list := transactions;
        var i := 0;
        while i < |list|
          invariant 0 <= i <= |list|
          invariant forall j :: 0 <= j < i ==> list[j].qboId != key
          invariant list == transactions
        {
          if list[i].qboId == key {
            FirstIndexOfKey(list, key, i);
            list := list[i := t];
            break;
          }
          i := i + 1;
        }
        transactionMap, transactions := transactionMap[key := t], list;
        rows := UpdatedRows(rows, key, StatusCell(t.status), category);
      }
    }
  }

  /** The index `update_transaction` replaces is the first with the key. */
  lemma FirstIndexOfKey(ts: seq<Transaction>, key: string, i: nat)
    requires i < |ts| && ts[i].qboId == key
    requires forall j :: 0 <= j < i ==> ts[j].qboId != key
    ensures FirstIndex(ts, HasQboId(key)) == Some(i)
  {
    var p := HasQboId(key);
    assert p(ts[i]);
    assert forall j :: 0 <= j < i ==> !p(ts[j]);
  }

  /** Replacing a known transaction keeps the list, the lookup and the rows in step. */
  lemma ReplaceFirstSynced(ts: seq<Transaction>, m: map<string, Transaction>, rows: seq<Row>,
                           t: Transaction, category: seq<Span>)
    requires t.qboId in m
    ensures SyncedState(ts, m, rows) ==>
              SyncedState(ReplaceFirst(ts, t), m[t.qboId := t], UpdatedRows(rows, t.qboId, StatusCell(t.status), category))
  {
    if SyncedState(ts, m, rows) {
      var i := ReplacedIndex(ts, m, t);
      ReplaceKeepsIds(ts, m, t, i);
      ReplaceKeepsLookup(ts, m, t, i);
      ReplaceKeepsRows(ts, rows, t, i, category);
    }
  }

  /** The transaction `update_transaction` replaces: the only one with the key. */
  lemma ReplacedIndex(ts: seq<Transaction>, m: map<string, Transaction>, t: Transaction) returns (i: nat)
    requires DistinctQboIds(ts) && KeysListed(ts, m) && t.qboId in m
    ensures i < |ts| && ReplaceFirst(ts, t) == ts[i := t] && ts[i].qboId == t.qboId
    ensures forall j :: 0 <= j < |ts| && j != i ==> ts[j].qboId != t.qboId
  {
    var k :| 0 <= k < |ts| && ts[k].qboId == t.qboId;
    var f := FirstIndex(ts, HasQboId(t.qboId));
    assert f.Some?;
    i := f.value;
  }

  lemma ReplaceKeepsIds(ts: seq<Transaction>, m: map<string, Transaction>, t: Transaction, i: nat)
    requires DistinctQboIds(ts) && KeysListed(ts, m) && t.qboId in m
    requires i < |ts| && ts[i].qboId == t.qboId
    ensures DistinctQboIds(ts[i := t]) && KeysListed(ts[i := t], m[t.qboId := t])
  {
    var ts' := ts[i := t];
    var m' := m[t.qboId := t];
    assert forall j :: 0 <= j < |ts| ==> ts'[j].qboId == ts[j].qboId;
    forall key
      ensures key in m' <==> exists j :: 0 <= j < |ts'| && ts'[j].qboId == key
    {
      if key in m' && key != t.qboId {
        assert key in m;
        var j :| 0 <= j < |ts| && ts[j].qboId == key;
        assert ts'[j].qboId == key;
      }
      if key == t.qboId {
        assert ts'[i].qboId == key;
      }
    }
  }

  lemma ReplaceKeepsLookup(ts: seq<Transaction>, m: map<string, Transaction>, t: Transaction, i: nat)
    requires DistinctQboIds(ts) && LookupAgrees(ts, m)
    requires i < |ts| && ts[i].qboId == t.qboId
    ensures LookupAgrees(ts[i := t], m[t.qboId := t])
  {
    var ts' := ts[i := t];
    forall j | 0 <= j < |ts'|
      ensures ts'[j].qboId in m[t.qboId := t] && m[t.qboId := t][ts'[j].qboId] == ts'[j]
    {
      if j != i {
        assert ts[j].qboId != ts[i].qboId;
      }
    }
  }

  lemma ReplaceKeepsRows(ts: seq<Transaction>, rows: seq<Row>, t: Transaction, i: nat, category: seq<Span>)
    requires DistinctQboIds(ts) && RowsAgree(ts, rows)
    requires i < |ts| && ts[i].qboId == t.qboId
    ensures RowsAgree(ts[i := t], UpdatedRows(rows, t.qboId, StatusCell(t.status), category))
  {
    var ts' := ts[i := t];
    var rows' := UpdatedRows(rows, t.qboId, StatusCell(t.status), category);
    forall j | 0 <= j < |rows'|
      ensures rows'[j].key == ts'[j].qboId && rows'[j].cells.status == StatusCell(ts'[j].status)
    {
      assert rows'[j].key == rows[j].key;
      if j != i {
        assert ts[j].qboId != ts[i].qboId;
      }
    }
  }
}
