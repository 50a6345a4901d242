/** The QuickBooks Online client: the records it parses from JSON responses, the request URLs,
    queries and payloads it builds, and whether its HTTP session is open. Requests are not sent:
    the decoded response bodies are inputs of the functions that read them. */
module Api {
  import opened Wrappers
  import opened Json
  import opened Models
  import Config
  import Strings

  const SANDBOX_BASE_URL: string := "https://sandbox-quickbooks.api.intuit.com"
  const PRODUCTION_BASE_URL: string := "https://quickbooks.api.intuit.com"
  const API_VERSION: string := "v3"
  const MINOR_VERSION: string := "75"

  datatype QBOAccount = QBOAccount(
    id: string,
    name: string,
    fullName: string,
    accountType: string,
    accountSubType: Option<string>,
    parentId: Option<string>,
    active: bool,
    currentBalance: Option<Cents>)

  datatype QBOLineItem = QBOLineItem(
    id: Option<string>,
    amount: Cents,
    description: Option<string>,
    accountId: Option<string>,
    accountName: Option<string>)

  datatype QBOTransaction = QBOTransaction(
    id: string,
    txnDate: Date,
    totalAmount: Cents,
    accountId: string,
    accountName: string,
    docNumber: Option<string>,
    memo: Option<string>,
    entityName: Option<string>,
    entityId: Option<string>,
    lineItems: seq<QBOLineItem>)

  datatype QBOVendor = QBOVendor(id: string, displayName: string, active: bool)

  // ---------------------------------------------------------------------------------------
  // reading fields of a JSON object. A missing required key raises `KeyError`; a value of
  // the wrong JSON type, where the code goes on to use it, is an error too. Amounts are JSON
  // numbers held as whole cents, so an amount given as numeric text is an error here.

  /** `data[key]` holding a string. */
  function RequiredStr(d: map<string, Json>, key: string): (r: Result<string, string>)
    ensures r.Ok? <==> key in d && d[key].JStr?
    ensures r.Ok? ==> r.value == d[key].s
  {
    if key in d && d[key].JStr? then Ok(d[key].s) else Err("KeyError: " + key)
  }

  /** `data.get(key)` for an optional string: absent or `null` is None. */
  function OptionalStr(d: map<string, Json>, key: string): (r: Result<Option<string>, string>)
    ensures key !in d || d[key].JNull? ==> r == Ok(None)
    ensures key in d && d[key].JStr? ==> r == Ok(Some(d[key].s))
    ensures r.Err? <==> key in d && !d[key].JNull? && !d[key].JStr?
  {
    if key !in d || d[key].JNull? then Ok(None)
    else if d[key].JStr? then Ok(Some(d[key].s))
    else Err("TypeError: " + key)
  }

  /** `data.get(key, default)` for a string. */
  function StrOr(d: map<string, Json>, key: string, default: string): (r: Result<string, string>)
    ensures key !in d ==> r == Ok(default)
    ensures key in d && d[key].JStr? ==> r == Ok(d[key].s)
    ensures r.Err? <==> key in d && !d[key].JStr?
  {
    if key !in d then Ok(default) else if d[key].JStr? then Ok(d[key].s) else Err("TypeError: " + key)
  }

  /** `data.get(key, {})` when the result is then used as an object. */
  function ObjectOr(d: map<string, Json>, key: string): (r: Result<map<string, Json>, string>)
    ensures key !in d ==> r == Ok(map[])
    ensures key in d && d[key].JObj? ==> r == Ok(d[key].fields)
    ensures r.Err? <==> key in d && !d[key].JObj?
  {
    if key !in d then Ok(map[]) else if d[key].JObj? then Ok(d[key].fields) else Err("AttributeError: " + key)
  }

  /** `ref.get(sub) if ref else None` with `ref = data.get(key, {})`: a false reference
      (absent, `null`, empty) gives None. */
  function RefStr(d: map<string, Json>, key: string, sub: string): (r: Result<Option<string>, string>)
    ensures key !in d || !Truthy(d[key]) ==> r == Ok(None)
    ensures key in d && d[key].JObj? && Truthy(d[key]) ==> r == OptionalStr(d[key].fields, sub)
  {
    if key !in d || !Truthy(d[key]) then Ok(None)
    else if d[key].JObj? then OptionalStr(d[key].fields, sub)
    else Err("AttributeError: " + key)
  }

  /** `data.get(key, default)` for a flag. */
  function BoolOr(d: map<string, Json>, key: string, default: bool): (r: Result<bool, string>)
    ensures key !in d ==> r == Ok(default)
    ensures key in d && d[key].JBool? ==> r == Ok(d[key].b)
    ensures r.Err? <==> key in d && !d[key].JBool?
  {
    if key !in d then Ok(default) else if d[key].JBool? then Ok(d[key].b) else Err("TypeError: " + key)
  }

  /** `Decimal(str(data.get(key, default)))` for an amount given as a JSON number; numeric
      text, which `Decimal(str(x))` also reads, is an error here. */
  function AmountOr(d: map<string, Json>, key: string, default: Option<Cents>): (r: Result<Cents, string>)
    ensures key !in d && default.Some? ==> r == Ok(default.value)
    ensures key in d && d[key].JNum? ==> r == Ok(d[key].n)
    ensures r.Err? <==> (key !in d && default.None?) || (key in d && !d[key].JNum?)
  {
    if key !in d then (if default.Some? then Ok(default.value) else Err("KeyError: " + key))
    else if d[key].JNum? then Ok(d[key].n) else Err("InvalidOperation: " + key)
  }

  // ---------------------------------------------------------------------------------------
  // dates as `%Y-%m-%d`

  predicate IsLeapYear(y: int) {
    (y % 4 == 0 && y % 100 != 0) || y % 400 == 0
  }

  function DaysInMonth(y: int, m: int): (n: int)
    requires 1 <= m <= 12
    ensures 28 <= n <= 31
  {
    if m == 2 then (if IsLeapYear(y) then 29 else 28)
    else if m == 4 || m == 6 || m == 9 || m == 11 then 30
    else 31
  }

  /** The calendar dates `datetime` can hold. */
  predicate ValidDate(d: Date) {
    1 <= d.year <= 9999 && 1 <= d.month <= 12 && 1 <= d.day <= DaysInMonth(d.year, d.month)
  }

  predicate IsDigit(c: char) {
    '0' <= c <= '9'
  }

  predicate AllDigits(s: string) {
    forall i :: 0 <= i < |s| ==> IsDigit(s[i])
  }

  /** The value of a run of decimal digits. */
  function DigitsToNat(s: string): (n: nat)
    requires AllDigits(s)
  {
    if s == [] then 0
    else
      var c := s[|s| - 1];
      assert IsDigit(c);
      DigitsToNat(s[..|s| - 1]) * 10 + (c as int - '0' as int)
  }

  function Pow10(k: nat): (p: nat)
    ensures p >= 1
  {
    if k == 0 then 1 else 10 * Pow10(k - 1)
  }

  /** `n` written with exactly `width` digits, zero-padded (`%04d`, `%02d`). */
  function Padded(n: nat, width: nat): (s: string)
    ensures |s| == width
    ensures AllDigits(s)
  {
    if width == 0 then [] else Padded(n / 10, width - 1) + [('0' as int + n % 10) as char]
  }

  /** A number below `10^width` is read back from its padded digits. */
  lemma {:induction false} PaddedValue(n: nat, width: nat)
    requires n < Pow10(width)
    ensures DigitsToNat(Padded(n, width)) == n
  {
    if width > 0 {
      var s := Padded(n, width);
      assert s[..|s| - 1] == Padded(n / 10, width - 1);
      PaddedValue(n / 10, width - 1);
    }
  }

  /** Digits are the padding of their value to their own width. */
  lemma {:induction false} PaddedIsDigits(s: string)
    requires AllDigits(s)
    ensures Padded(DigitsToNat(s), |s|) == s
  {
    if s != [] {
      var init := s[..|s| - 1];
      assert AllDigits(init) by {
        forall i | 0 <= i < |init| ensures IsDigit(init[i]) { assert init[i] == s[i]; }
      }
      PaddedIsDigits(init);
      var n := DigitsToNat(s);
      assert n / 10 == DigitsToNat(init);
      assert s == init + [s[|s| - 1]];
    }
  }

  /** `d.strftime('%Y-%m-%d')`. */
  function FormatDate(d: Date): (s: string)
    requires ValidDate(d)
    ensures |s| == 10 && s[4] == '-' && s[7] == '-'
  {
    Padded(d.year, 4) + "-" + Padded(d.month, 2) + "-" + Padded(d.day, 2)
  }

  /** `datetime.strptime(s, '%Y-%m-%d').date()`, for the zero-padded form. */
  function ParseDate(s: string): (r: Option<Date>)
    ensures r.Some? ==> ValidDate(r.value)
  {
    if |s| == 10 && s[4] == '-' && s[7] == '-' && AllDigits(s[..4]) && AllDigits(s[5..7]) && AllDigits(s[8..]) then
      var d := Date(DigitsToNat(s[..4]), DigitsToNat(s[5..7]), DigitsToNat(s[8..]));
      if ValidDate(d) then Some(d) else None
    else None
  }

  /** A formatted date parses back to itself. */
  lemma ParseFormattedDate(d: Date)
    requires ValidDate(d)
    ensures ParseDate(FormatDate(d)) == Some(d)
  {
    var t := FormatDate(d);
    assert t[..4] == Padded(d.year, 4);
    assert t[5..7] == Padded(d.month, 2);
    assert t[8..] == Padded(d.day, 2);
    assert Pow10(4) == 10000 && Pow10(2) == 100;
    PaddedValue(d.year, 4);
    PaddedValue(d.month, 2);
    PaddedValue(d.day, 2);
  }

  /** A text that parses as a date is the formatting of that date. */
  lemma FormatParsedDate(s: string)
    requires ParseDate(s).Some?
    ensures FormatDate(ParseDate(s).value) == s
  {
    PaddedIsDigits(s[..4]);
    PaddedIsDigits(s[5..7]);
    PaddedIsDigits(s[8..]);
    assert s == s[..4] + "-" + s[5..7] + "-" + s[8..];
  }

  // ---------------------------------------------------------------------------------------
  // parsers

  /** `_parse_account`. */
  function ParseAccount(data: Json): (r: Result<QBOAccount, string>)
    ensures !data.JObj? ==> r.Err?
    ensures data.JObj? && ("Id" !in data.fields || "Name" !in data.fields || "AccountType" !in data.fields) ==> r.Err?
    ensures r.Ok? ==>
              && data.JObj?
              && data.fields["Id"] == JStr(r.value.id) && data.fields["Name"] == JStr(r.value.name)
              && data.fields["AccountType"] == JStr(r.value.accountType)
              && ("FullyQualifiedName" !in data.fields ==> r.value.fullName == r.value.name)
              && ("AccountSubType" !in data.fields ==> r.value.accountSubType.None?)
              && ("ParentRef" !in data.fields ==> r.value.parentId.None?)
              && ("Active" !in data.fields ==> r.value.active)
              && ("CurrentBalance" !in data.fields ==> r.value.currentBalance.None?)
  {
    if !data.JObj? then Err("TypeError: account")
    else
      var d := data.fields;
      match (RequiredStr(d, "Id"), RequiredStr(d, "Name"), RequiredStr(d, "AccountType"))
      case (Ok(id), Ok(name), Ok(accountType)) =>
        (match (StrOr(d, "FullyQualifiedName", name), OptionalStr(d, "AccountSubType"), RefStr(d, "ParentRef", "value"))
         case (Ok(fullName), Ok(subType), Ok(parentId)) =>
           (match (BoolOr(d, "Active", true), if "CurrentBalance" in d then (if d["CurrentBalance"].JNum? then Ok(Some(d["CurrentBalance"].n)) else Err("InvalidOperation: CurrentBalance")) else Ok(None))
            case (Ok(active), Ok(balance)) => Ok(QBOAccount(id, name, fullName, accountType, subType, parentId, active, balance))
            case _ => Err("bad account"))
         case _ => Err("bad account"))
      case _ => Err("KeyError: account")
  }

  /** An account object with only its required keys: the full name is the name, the optional
      fields are absent and the account is active. */
  lemma ParseAccountDefaults(id: string, name: string, accountType: string, parent: Json)
    requires !Truthy(parent)
    ensures ParseAccount(JObj(map["Id" := JStr(id), "Name" := JStr(name), "AccountType" := JStr(accountType)]))
            == Ok(QBOAccount(id, name, name, accountType, None, None, true, None))
    ensures ParseAccount(JObj(map["Id" := JStr(id), "Name" := JStr(name), "AccountType" := JStr(accountType), "ParentRef" := parent]))
            == Ok(QBOAccount(id, name, name, accountType, None, None, true, None))
  {
  }

  /** The JSON object QuickBooks sends for an account. */
  function AccountJson(a: QBOAccount): (j: Json)
    ensures j.JObj? && "Id" in j.fields && "Name" in j.fields
  {
    var base := map["Id" := JStr(a.id), "Name" := JStr(a.name), "FullyQualifiedName" := JStr(a.fullName),
                    "AccountType" := JStr(a.accountType), "Active" := JBool(a.active)];
    var withSub := if a.accountSubType.Some? then base["AccountSubType" := JStr(a.accountSubType.value)] else base;
    var withParent := if a.parentId.Some? then withSub["ParentRef" := JObj(map["value" := JStr(a.parentId.value)])] else withSub;
    JObj(if a.currentBalance.Some? then withParent["CurrentBalance" := JNum(a.currentBalance.value)] else withParent)
  }

  /** Parsing recovers every account from its JSON. */
  lemma ParseAccountRoundTrip(a: QBOAccount)
    ensures ParseAccount(AccountJson(a)) == Ok(a)
  {
    var d := AccountJson(a).fields;
    assert RequiredStr(d, "Id") == Ok(a.id);
    assert RequiredStr(d, "Name") == Ok(a.name);
    assert RequiredStr(d, "AccountType") == Ok(a.accountType);
    assert StrOr(d, "FullyQualifiedName", a.name) == Ok(a.fullName);
    assert OptionalStr(d, "AccountSubType") == Ok(a.accountSubType);
    if a.parentId.Some? {
      var ref := map["value" := JStr(a.parentId.value)];
      assert "value" in ref;
      assert Truthy(JObj(ref));
    }
    assert RefStr(d, "ParentRef", "value") == Ok(a.parentId);
    assert BoolOr(d, "Active", true) == Ok(a.active);
  }

  /** `_parse_line_item`. */
  function ParseLineItem(data: Json): (r: Result<QBOLineItem, string>)
    ensures !data.JObj? ==> r.Err?
    ensures r.Ok? ==>
              && data.JObj?
              && ("Id" !in data.fields ==> r.value.id.None?)
              && ("Amount" !in data.fields ==> r.value.amount == 0)
              && ("Description" !in data.fields ==> r.value.description.None?)
              && ("AccountBasedExpenseLineDetail" !in data.fields ==> r.value.accountId.None? && r.value.accountName.None?)
  {
    if !data.JObj? then Err("AttributeError: line")
    else
      var d := data.fields;
      match ObjectOr(d, "AccountBasedExpenseLineDetail")
      case Err(e) => Err(e)
      case Ok(detail) =>
        match (OptionalStr(d, "Id"), AmountOr(d, "Amount", Some(0)), OptionalStr(d, "Description"),
               RefStr(detail, "AccountRef", "value"), RefStr(detail, "AccountRef", "name"))
        case (Ok(id), Ok(amount), Ok(description), Ok(accountId), Ok(accountName)) =>
          Ok(QBOLineItem(id, amount, description, accountId, accountName))
        case _ => Err("bad line item")
  }

  /** An empty line object is a line of amount 0 with nothing else. */
  lemma ParseLineItemDefaults()
    ensures ParseLineItem(JObj(map[])) == Ok(QBOLineItem(None, 0, None, None, None))
  {
  }

  /** The JSON object QuickBooks sends for a line. */
  function LineItemJson(li: QBOLineItem): (j: Json)
    ensures j.JObj?
  {
    var ref := (if li.accountId.Some? then map["value" := JStr(li.accountId.value)] else map[])
               + (if li.accountName.Some? then map["name" := JStr(li.accountName.value)] else map[]);
    var base := map["Amount" := JNum(li.amount)];
    var withId := if li.id.Some? then base["Id" := JStr(li.id.value)] else base;
    var withDesc := if li.description.Some? then withId["Description" := JStr(li.description.value)] else withId;
    JObj(if ref != map[] then withDesc["AccountBasedExpenseLineDetail" := JObj(map["AccountRef" := JObj(ref)])] else withDesc)
  }

  lemma ParseLineItemRoundTrip(li: QBOLineItem)
    ensures ParseLineItem(LineItemJson(li)) == Ok(li)
  {
    var d := LineItemJson(li).fields;
    var ref := (if li.accountId.Some? then map["value" := JStr(li.accountId.value)] else map[])
               + (if li.accountName.Some? then map["name" := JStr(li.accountName.value)] else map[]);
    assert li.accountId.Some? ==> "value" in ref;
    assert li.accountName.Some? ==> "name" in ref;
    if ref != map[] {
      var detail := map["AccountRef" := JObj(ref)];
      assert ObjectOr(d, "AccountBasedExpenseLineDetail") == Ok(detail);
      assert Truthy(JObj(ref));
      assert RefStr(detail, "AccountRef", "value") == Ok(li.accountId);
      assert RefStr(detail, "AccountRef", "name") == Ok(li.accountName);
    } else {
      assert ObjectOr(d, "AccountBasedExpenseLineDetail") == Ok(map[]);
    }
    assert OptionalStr(d, "Id") == Ok(li.id);
    assert OptionalStr(d, "Description") == Ok(li.description);
    assert AmountOr(d, "Amount", Some(0)) == Ok(li.amount);
  }

  /** `[parse(x) for x in items]`: one record per element, in order, or the first failure. */
  function ParseLineItems(items: seq<Json>): (r: Result<seq<QBOLineItem>, string>)
    ensures r.Ok? ==> |r.value| == |items|
    ensures r.Ok? ==> forall i :: 0 <= i < |items| ==> ParseLineItem(items[i]) == Ok(r.value[i])
    ensures r.Err? <==> exists i :: 0 <= i < |items| && ParseLineItem(items[i]).Err?
  {
    if items == [] then Ok([])
    else match (ParseLineItem(items[0]), ParseLineItems(items[1..]))
      case (Ok(x), Ok(rest)) =>
        assert forall i :: 1 <= i < |items| ==> items[i] == items[1..][i - 1];
        Ok([x] + rest)
      case (Err(e), _) => Err(e)
      case (_, Err(e)) =>
        assert exists i :: 0 <= i < |items| - 1 && ParseLineItem(items[1..][i]).Err?;
        Err(e)
  }

  /** `_parse_purchase`. */
  function ParsePurchase(data: Json): (r: Result<QBOTransaction, string>)
    ensures !data.JObj? ==> r.Err?
    ensures data.JObj? && "Line" in data.fields && ObjectsIn(data.fields["Line"]).Err? ==> r.Err?
    ensures r.Ok? ==>
              && data.JObj?
              && "Id" in data.fields && data.fields["Id"] == JStr(r.value.id)
              && "TxnDate" in data.fields && data.fields["TxnDate"].JStr?
              && ParseDate(data.fields["TxnDate"].s) == Some(r.value.txnDate)
              && ("AccountRef" !in data.fields ==> r.value.accountId == "" && r.value.accountName == "")
              && ("EntityRef" !in data.fields ==> r.value.entityName.None? && r.value.entityId.None?)
              && ("Line" !in data.fields || data.fields["Line"] == JObj(map[]) || data.fields["Line"] == JStr("") ==>
                    r.value.lineItems == [])
              && ("Line" in data.fields && data.fields["Line"].JArr? ==>
                    |r.value.lineItems| == |data.fields["Line"].items|)
  {
    if !data.JObj? then Err("AttributeError: purchase")
    else
      var d := data.fields;
      match (ObjectOr(d, "AccountRef"), if "Line" in d then ObjectsIn(d["Line"]) else Ok([]))
      case (Ok(accountRef), Ok(lines)) =>
        (match (ParseLineItems(lines), RequiredStr(d, "Id"), RequiredStr(d, "TxnDate"), AmountOr(d, "TotalAmt", None))
         case (Ok(items), Ok(id), Ok(dateText), Ok(total)) =>
           (match (ParseDate(dateText), StrOr(accountRef, "value", ""), StrOr(accountRef, "name", ""),
                   OptionalStr(d, "DocNumber"), OptionalStr(d, "PrivateNote"))
            case (Some(date), Ok(accountId), Ok(accountName), Ok(docNumber), Ok(memo)) =>
              (match (RefStr(d, "EntityRef", "name"), RefStr(d, "EntityRef", "value"))
               case (Ok(entityName), Ok(entityId)) =>
                 Ok(QBOTransaction(id, date, total, accountId, accountName, docNumber, memo, entityName, entityId, items))
               case _ => Err("bad purchase"))
            case _ => Err("bad purchase"))
         case _ => Err("bad purchase"))
      case _ => Err("bad purchase")
  }

  /** A purchase without account or entity reference: empty account id and name, no entity,
      no lines. */
  lemma ParsePurchaseDefaults(id: string, date: Date, total: Cents, entity: Json)
    requires ValidDate(date)
    requires !Truthy(entity)
    ensures ParsePurchase(JObj(map["Id" := JStr(id), "TxnDate" := JStr(FormatDate(date)), "TotalAmt" := JNum(total)]))
            == Ok(QBOTransaction(id, date, total, "", "", None, None, None, None, []))
    ensures ParsePurchase(JObj(map["Id" := JStr(id), "TxnDate" := JStr(FormatDate(date)), "TotalAmt" := JNum(total),
                                   "EntityRef" := entity]))
            == Ok(QBOTransaction(id, date, total, "", "", None, None, None, None, []))
  {
    ParseFormattedDate(date);
  }

  /** The JSON object QuickBooks sends for a purchase. */
  function PurchaseJson(t: QBOTransaction): (j: Json)
    requires ValidDate(t.txnDate)
    ensures j.JObj?
  {
    var entity := EntityMembers(t.entityName, t.entityId);
    var withMemo := PurchaseCore(t);
    JObj(if entity != map[] then withMemo["EntityRef" := JObj(entity)] else withMemo)
  }

  /** The members of a purchase's JSON other than its entity reference. */
  function PurchaseCore(t: QBOTransaction): (d: map<string, Json>)
    requires ValidDate(t.txnDate)
    ensures "Id" in d && "TxnDate" in d
  {
    var base := map["Id" := JStr(t.id), "TxnDate" := JStr(FormatDate(t.txnDate)), "TotalAmt" := JNum(t.totalAmount),
                    "AccountRef" := JObj(map["value" := JStr(t.accountId), "name" := JStr(t.accountName)]),
                    "Line" := JArr(LineItemsJson(t.lineItems))];
    var withDoc := if t.docNumber.Some? then base["DocNumber" := JStr(t.docNumber.value)] else base;
    if t.memo.Some? then withDoc["PrivateNote" := JStr(t.memo.value)] else withDoc
  }

  function LineItemsJson(items: seq<QBOLineItem>): (r: seq<Json>)
    ensures |r| == |items|
    ensures forall i :: 0 <= i < |items| ==> r[i] == LineItemJson(items[i])
  {
    if items == [] then [] else [LineItemJson(items[0])] + LineItemsJson(items[1..])
  }

  /** Parsing recovers every purchase from its JSON, its lines in order. */
  lemma ParsePurchaseRoundTrip(t: QBOTransaction)
    requires ValidDate(t.txnDate)
    ensures ParsePurchase(PurchaseJson(t)) == Ok(t)
  {
    var d := PurchaseJson(t).fields;
    ParseLineItemsRoundTrip(t.lineItems);
    ParseFormattedDate(t.txnDate);
    PurchaseJsonFields(t);
    assert ObjectOr(d, "AccountRef") == Ok(map["value" := JStr(t.accountId), "name" := JStr(t.accountName)]);
  }

  /** What each field reader finds in the JSON of a purchase. */
  lemma PurchaseJsonFields(t: QBOTransaction)
    requires ValidDate(t.txnDate)
    ensures var d := PurchaseJson(t).fields;
            && RequiredStr(d, "Id") == Ok(t.id)
            && RequiredStr(d, "TxnDate") == Ok(FormatDate(t.txnDate))
            && AmountOr(d, "TotalAmt", None) == Ok(t.totalAmount)
            && "AccountRef" in d && d["AccountRef"] == JObj(map["value" := JStr(t.accountId), "name" := JStr(t.accountName)])
            && "Line" in d && d["Line"] == JArr(LineItemsJson(t.lineItems))
            && OptionalStr(d, "DocNumber") == Ok(t.docNumber)
            && OptionalStr(d, "PrivateNote") == Ok(t.memo)
            && RefStr(d, "EntityRef", "name") == Ok(t.entityName)
            && RefStr(d, "EntityRef", "value") == Ok(t.entityId)
  {
    var d := PurchaseJson(t).fields;
    var entity := EntityMembers(t.entityName, t.entityId);
    EntityMembersFields(t.entityName, t.entityId);
    var withMemo := PurchaseCore(t);
    assert d == if entity != map[] then withMemo["EntityRef" := JObj(entity)] else withMemo;
    PurchaseCoreFields(t);
  }

  /** The members of a purchase's `EntityRef`: the name and the id that are present. */
  function EntityMembers(name: Option<string>, id: Option<string>): (m: map<string, Json>)
  {
    (if name.Some? then map["name" := JStr(name.value)] else map[])
    + (if id.Some? then map["value" := JStr(id.value)] else map[])
  }

  /** Reading the entity reference back gives its name and id; it is empty exactly when both
      are absent. */
  lemma EntityMembersFields(name: Option<string>, id: Option<string>)
    ensures var m := EntityMembers(name, id);
            && (m == map[] <==> name.None? && id.None?)
            && (m != map[] ==> Truthy(JObj(m)))
            && OptionalStr(m, "name") == Ok(name)
            && OptionalStr(m, "value") == Ok(id)
  {
    var m := EntityMembers(name, id);
    assert name.Some? ==> "name" in m;
    assert id.Some? ==> "value" in m;
  }

  lemma PurchaseCoreFields(t: QBOTransaction)
    requires ValidDate(t.txnDate)
    ensures var d := PurchaseCore(t);
            && RequiredStr(d, "Id") == Ok(t.id)
            && RequiredStr(d, "TxnDate") == Ok(FormatDate(t.txnDate))
            && AmountOr(d, "TotalAmt", None) == Ok(t.totalAmount)
            && "AccountRef" in d && d["AccountRef"] == JObj(map["value" := JStr(t.accountId), "name" := JStr(t.accountName)])
            && "Line" in d && d["Line"] == JArr(LineItemsJson(t.lineItems))
            && OptionalStr(d, "DocNumber") == Ok(t.docNumber)
            && OptionalStr(d, "PrivateNote") == Ok(t.memo)
            && "EntityRef" !in d
  {
    var d := PurchaseCore(t);
    assert d["Id"] == JStr(t.id) && d["TxnDate"] == JStr(FormatDate(t.txnDate)) && d["TotalAmt"] == JNum(t.totalAmount);
    assert t.docNumber.None? <==> "DocNumber" !in d;
    assert t.docNumber.Some? ==> d["DocNumber"] == JStr(t.docNumber.value);
    assert t.memo.None? <==> "PrivateNote" !in d;
    assert t.memo.Some? ==> d["PrivateNote"] == JStr(t.memo.value);
  }

  /** Parsing the lines of a purchase recovers them in order. */
  lemma ParseLineItemsRoundTrip(items: seq<QBOLineItem>)
    ensures ParseLineItems(LineItemsJson(items)) == Ok(items)
  {
    var lines := LineItemsJson(items);
    forall i | 0 <= i < |lines|
      ensures ParseLineItem(lines[i]) == Ok(items[i])
    {
      ParseLineItemRoundTrip(items[i]);
    }
    var parsed := ParseLineItems(lines);
    assert parsed.Ok?;
    assert parsed.value == items;
  }

  /** `_parse_vendor`. */
  function ParseVendor(data: Json): (r: Result<QBOVendor, string>)
    ensures r.Ok? <==> data.JObj? && RequiredStr(data.fields, "Id").Ok? && RequiredStr(data.fields, "DisplayName").Ok?
                       && BoolOr(data.fields, "Active", true).Ok?
    ensures r.Ok? && "Active" !in data.fields ==> r.value.active
    ensures r.Ok? ==>
              && data.fields["Id"] == JStr(r.value.id)
              && data.fields["DisplayName"] == JStr(r.value.displayName)
              && ("Active" in data.fields ==> data.fields["Active"] == JBool(r.value.active))
  {
    if !data.JObj? then Err("TypeError: vendor")
    else
      var d := data.fields;
      match (RequiredStr(d, "Id"), RequiredStr(d, "DisplayName"), BoolOr(d, "Active", true))
      case (Ok(id), Ok(name), Ok(active)) => Ok(QBOVendor(id, name, active))
      case _ => Err("bad vendor")
  }

  // ---------------------------------------------------------------------------------------
  // requests

  /** `_build_url`. */
  function BuildUrl(realmId: string, endpoint: string): (url: string)
    ensures url == "/v3/company/" + realmId + "/" + endpoint
  {
    "/" + API_VERSION + "/company/" + realmId + "/" + endpoint
  }

  const CATEGORIZATION_ACCOUNTS_QUERY: string :=
    "SELECT * FROM Account WHERE AccountType IN ('Expense', 'Other Expense', 'Cost of Goods Sold', 'Income', 'Other Income') AND Active = true"

  const PURCHASE_QUERY_HEAD: string := "SELECT * FROM Purchase"
  const PURCHASE_QUERY_TAIL: string := " ORDERBY TxnDate ASC MAXRESULTS 1000"

  /** The query of `get_uncategorized_transactions`, built by appending the date conditions
      that are given. */
  method PurchaseQuery(startDate: Option<Date>, endDate: Option<Date>) returns (query: string)
    requires startDate.Some? ==> ValidDate(startDate.value)
    requires endDate.Some? ==> ValidDate(endDate.value)
    ensures query == PurchaseQueryText(PurchaseConditions(startDate, endDate))
  {
    query := PURCHASE_QUERY_HEAD;
    var conditions: seq<string> := [];
    if startDate.Some? {
      conditions := conditions + ["TxnDate >= '" + FormatDate(startDate.value) + "'"];
    }
    if endDate.Some? {
      conditions := conditions + ["TxnDate <= '" + FormatDate(endDate.value) + "'"];
    }
    if conditions != [] {
      query := query + " WHERE " + Strings.Join(" AND ", conditions);
    }
    query := query + PURCHASE_QUERY_TAIL;
  }

  /** The date conditions, start before end. */
  function PurchaseConditions(startDate: Option<Date>, endDate: Option<Date>): (cs: seq<string>)
    requires startDate.Some? ==> ValidDate(startDate.value)
    requires endDate.Some? ==> ValidDate(endDate.value)
    ensures |cs| == (if startDate.Some? then 1 else 0) + (if endDate.Some? then 1 else 0)
  {
    (if startDate.Some? then ["TxnDate >= '" + FormatDate(startDate.value) + "'"] else [])
    + (if endDate.Some? then ["TxnDate <= '" + FormatDate(endDate.value) + "'"] else [])
  }

  function PurchaseQueryText(conditions: seq<string>): (q: string)
  {
    PURCHASE_QUERY_HEAD + (if conditions == [] then "" else " WHERE " + Strings.Join(" AND ", conditions))
    + PURCHASE_QUERY_TAIL
  }

  /** The purchase query always selects purchases and ends with the ordering and the page
      size; it has a `WHERE` clause exactly when a date is given. */
  lemma PurchaseQueryShape(startDate: Option<Date>, endDate: Option<Date>)
    requires startDate.Some? ==> ValidDate(startDate.value)
    requires endDate.Some? ==> ValidDate(endDate.value)
    ensures var q := PurchaseQueryText(PurchaseConditions(startDate, endDate));
            && q[..|PURCHASE_QUERY_HEAD|] == PURCHASE_QUERY_HEAD
            && q[|q| - |PURCHASE_QUERY_TAIL|..] == PURCHASE_QUERY_TAIL
            && (startDate.None? && endDate.None? <==> q == PURCHASE_QUERY_HEAD + PURCHASE_QUERY_TAIL)
  {
    var cs := PurchaseConditions(startDate, endDate);
    var q := PurchaseQueryText(cs);
    if cs != [] {
      var mid := " WHERE " + Strings.Join(" AND ", cs);
      assert q == PURCHASE_QUERY_HEAD + mid + PURCHASE_QUERY_TAIL;
      assert |q| > |PURCHASE_QUERY_HEAD + PURCHASE_QUERY_TAIL|;
    }
  }

  /** The body `update_purchase` posts: a sparse update of the purchase's lines. */
  function UpdatePurchasePayload(purchase: Json, lines: seq<Json>): (r: Result<Json, string>)
    ensures r.Ok? <==> purchase.JObj? && "Id" in purchase.fields && "PaymentType" in purchase.fields
                       && "AccountRef" in purchase.fields
    ensures r.Ok? ==>
              var p := purchase.fields;
              r.value == JObj(map["Id" := p["Id"],
                                  "SyncToken" := (if "SyncToken" in p then p["SyncToken"] else JStr("0")),
                                  "PaymentType" := p["PaymentType"], "AccountRef" := p["AccountRef"],
                                  "Line" := JArr(lines), "sparse" := JBool(true)])
  {
    if !purchase.JObj? then Err("TypeError: purchase")
    else
      var p := purchase.fields;
      if "Id" in p && "PaymentType" in p && "AccountRef" in p then
        Ok(JObj(map["Id" := p["Id"], "SyncToken" := Get(p, "SyncToken").GetOr(JStr("0")),
                    "PaymentType" := p["PaymentType"], "AccountRef" := p["AccountRef"],
                    "Line" := JArr(lines), "sparse" := JBool(true)]))
      else Err("KeyError: purchase")
  }

  /** The body `create_account` posts: a sub-account reference is added only for a parent. */
  method CreateAccountPayload(name: string, accountType: string, parentId: Option<string>) returns (payload: map<string, Json>)
    ensures payload.Keys == {"Name", "AccountType"} + (if parentId.Some? then {"SubAccount", "ParentRef"} else {})
    ensures payload["Name"] == JStr(name) && payload["AccountType"] == JStr(accountType)
    ensures parentId.Some? ==> payload["SubAccount"] == JBool(true)
                               && payload["ParentRef"] == JObj(map["value" := JStr(parentId.value)])
  {
    payload := map["Name" := JStr(name), "AccountType" := JStr(accountType)];
    if parentId.Some? {
      payload := payload["SubAccount" := JBool(true)];
      payload := payload["ParentRef" := JObj(map["value" := JStr(parentId.value)])];
    }
  }

  // ---------------------------------------------------------------------------------------
  // the client session

  /** `QuickBooksClient`: `open` stands for `_client` being set, which holds between entering
      and leaving the async context. */
  class QuickBooksClient {
    const realmId: string
    const accessToken: string
    const baseUrl: string
    var open: bool

    constructor(config: Config.QuickBooksConfig, realmId: string, accessToken: string)
      ensures this.realmId == realmId && this.accessToken == accessToken
      ensures baseUrl == SANDBOX_BASE_URL <==> config.IsSandbox()
      ensures baseUrl == (if config.IsSandbox() then SANDBOX_BASE_URL else PRODUCTION_BASE_URL)
      ensures !open
    {
      this.realmId := realmId;
      this.accessToken := accessToken;
      baseUrl := if config.IsSandbox() then SANDBOX_BASE_URL else PRODUCTION_BASE_URL;
      open := false;
    }

    /** `_get_headers`: the bearer token and JSON in both directions. */
    function Headers(): (h: map<string, string>)
      ensures h.Keys == {"Authorization", "Accept", "Content-Type"}
      ensures h["Authorization"] == "Bearer " + accessToken
      ensures h["Accept"] == "application/json" && h["Content-Type"] == "application/json"
    {
      map["Authorization" := "Bearer " + accessToken, "Accept" := "application/json",
          "Content-Type" := "application/json"]
    }

    /** `__aenter__`. */
    method Enter()
      modifies this`open
      ensures open
    {
      open := true;
    }

    /** `__aexit__`: the session is closed, whether or not one was open. */
    method Exit()
      modifies this`open
      ensures !open
    {
      if open {
        open := false;
      }
    }
  }
}
