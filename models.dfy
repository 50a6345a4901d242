/** The records and enumerations the store, the rules engine and the screens share.
    Amounts are exact integers in cents; instants are integer seconds; a calendar date is a
    year, month and day. */
module Models {
  import opened Wrappers

  /** A point in time, in seconds. */
  type Instant = int

  /** Money in cents. */
  type Cents = int

  /** A calendar date, ordered year first (the order of its ISO 8601 text for four-digit years). */
  datatype Date = Date(year: int, month: int, day: int)

  predicate DateLess(a: Date, b: Date) {
    || a.year < b.year
    || (a.year == b.year && a.month < b.month)
    || (a.year == b.year && a.month == b.month && a.day < b.day)
  }

  predicate DateLessEq(a: Date, b: Date) {
    DateLess(a, b) || a == b
  }

  /** Dates are totally ordered: exactly one of before, equal and after holds. */
  lemma DateTrichotomy(a: Date, b: Date)
    ensures DateLess(a, b) || a == b || DateLess(b, a)
    ensures !(DateLess(a, b) && DateLess(b, a))
    ensures !DateLess(a, a)
  {
  }

  /** Where a transaction is in the review workflow. */
  datatype TransactionStatus = Pending | Categorized | Posted {
    /** The text stored in the database. */
    function Value(): (s: string)
      ensures |s| > 0
    {
      match this
      case Pending => "pending"
      case Categorized => "categorized"
      case Posted => "posted"
    }
  }

  /** `TransactionStatus(s)`: the member with value `s`, or the `ValueError` it raises. */
  function StatusFromValue(s: string): (r: Option<TransactionStatus>)
    ensures r.Some? ==> r.value.Value() == s
  {
    if s == "pending" then Some(Pending)
    else if s == "categorized" then Some(Categorized)
    else if s == "posted" then Some(Posted)
    else None
  }

  /** Every status round-trips through its value, and the three values are distinct. */
  lemma StatusValueRoundTrip(st: TransactionStatus, other: TransactionStatus)
    ensures StatusFromValue(st.Value()) == Some(st)
    ensures st != other ==> st.Value() != other.Value()
  {
  }

  /** How a rule's pattern is compared with a transaction's text. */
  datatype PatternType = ContainsPattern | RegexPattern | ExactPattern {
    function Value(): (s: string)
      ensures |s| > 0
    {
      match this
      case ContainsPattern => "contains"
      case RegexPattern => "regex"
      case ExactPattern => "exact"
    }
  }

  /** `PatternType(s)`. */
  function PatternTypeFromValue(s: string): (r: Option<PatternType>)
    ensures r.Some? ==> r.value.Value() == s
  {
    if s == "contains" then Some(ContainsPattern)
    else if s == "regex" then Some(RegexPattern)
    else if s == "exact" then Some(ExactPattern)
    else None
  }

  lemma PatternTypeValueRoundTrip(pt: PatternType, other: PatternType)
    ensures PatternTypeFromValue(pt.Value()) == Some(pt)
    ensures pt != other ==> pt.Value() != other.Value()
  {
  }

  /** OAuth tokens for one QuickBooks company (realm). */
  datatype Token = Token(
    id: Option<int>,
    realmId: string,
    accessToken: string,
    refreshToken: string,
    expiresAt: Instant,
    createdAt: Instant,
    updatedAt: Instant)

  /** An account of the QuickBooks chart of accounts. `parentId` holds the parent's `qboId`:
      every lookup compares it with a category's `qboId`, never with its local id. */
  datatype Category = Category(
    id: Option<int>,
    qboId: string,
    name: string,
    fullName: string,
    parentId: Option<string>,
    accountType: string,
    isVisible: bool,
    displayOrder: int,
    syncedAt: Instant)

  /** A categorisation rule; an absent bound is unbounded on that side. */
  datatype Rule = Rule(
    id: Option<int>,
    name: string,
    pattern: string,
    patternType: PatternType,
    categoryId: int,
    minAmount: Option<Cents>,
    maxAmount: Option<Cents>,
    priority: int,
    isActive: bool,
    createdAt: Instant)

  /** The default category of a vendor. */
  datatype VendorMapping = VendorMapping(
    id: Option<int>,
    vendorName: string,
    vendorId: Option<string>,
    defaultCategoryId: int,
    createdAt: Instant,
    updatedAt: Instant)

  /** A purchase fetched from QuickBooks and cached locally for review. */
  datatype Transaction = Transaction(
    id: Option<int>,
    qboId: string,
    accountId: string,
    accountName: string,
    date: Date,
    amount: Cents,
    description: string,
    vendorName: Option<string>,
    status: TransactionStatus,
    assignedCategoryId: Option<int>,
    fetchedAt: Instant)

  /** A part of a transaction's amount assigned to one category. */
  datatype TransactionSplit = TransactionSplit(
    id: Option<int>,
    transactionId: int,
    categoryId: int,
    amount: Cents,
    memo: Option<string>)

  /** `Category(...)` without `is_visible` and `display_order`: visible, first in display order. */
  function NewCategory(id: Option<int>, qboId: string, name: string, fullName: string,
                       parentId: Option<string>, accountType: string, now: Instant): (c: Category)
    ensures c.isVisible && c.displayOrder == 0
    ensures c.id == id && c.qboId == qboId && c.name == name && c.fullName == fullName
    ensures c.parentId == parentId && c.accountType == accountType && c.syncedAt == now
  {
    Category(id, qboId, name, fullName, parentId, accountType, true, 0, now)
  }

  /** `Rule(...)` without the optional fields: no amount bounds, priority 0, active. */
  function NewRule(id: Option<int>, name: string, pattern: string, patternType: PatternType,
                   categoryId: int, now: Instant): (r: Rule)
    ensures r.minAmount.None? && r.maxAmount.None? && r.priority == 0 && r.isActive
    ensures r.id == id && r.name == name && r.pattern == pattern && r.patternType == patternType
    ensures r.categoryId == categoryId && r.createdAt == now
  {
    Rule(id, name, pattern, patternType, categoryId, None, None, 0, true, now)
  }

  /** `Transaction(...)` without status and category: pending and uncategorised. */
  function NewTransaction(id: Option<int>, qboId: string, accountId: string, accountName: string,
                          date: Date, amount: Cents, description: string,
                          vendorName: Option<string>, now: Instant): (t: Transaction)
    ensures t.status == Pending && t.assignedCategoryId.None?
    ensures t.id == id && t.qboId == qboId && t.accountId == accountId
    ensures t.accountName == accountName && t.date == date && t.amount == amount
    ensures t.description == description && t.vendorName == vendorName && t.fetchedAt == now
  {
    Transaction(id, qboId, accountId, accountName, date, amount, description, vendorName,
                Pending, None, now)
  }

  /** `TransactionSplit(...)` without a memo. */
  function NewSplit(id: Option<int>, transactionId: int, categoryId: int, amount: Cents): (s: TransactionSplit)
    ensures s.memo.None?
    ensures s.id == id && s.transactionId == transactionId && s.categoryId == categoryId
    ensures s.amount == amount
  {
    TransactionSplit(id, transactionId, categoryId, amount, None)
  }

  /** `abs()` on an amount. */
  function Abs(x: int): (r: nat)
    ensures r == x || r == -x
  {
    if x < 0 then -x else x
  }
}
