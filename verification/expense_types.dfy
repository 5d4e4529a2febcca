/**
 The record shapes and the category registry of the expense tracker:
 the closed `ExpenseCategory` union, the `CATEGORY_CONFIG` table, the
 `CATEGORIES` list and the `Expense` record.
 */
module ExpenseTypes {
  import opened Wrappers

  /** The seven spending categories, in declaration order. */
  datatype Category = Food | Transport | Entertainment | Utilities | Shopping | Health | Other

  /** `CATEGORIES`: the keys of the configuration table, in the order they are written. */
  const Categories: seq<Category> := [Food, Transport, Entertainment, Utilities, Shopping, Health, Other]

  /** The string identifier under which a category is stored and used as an object key. */
  function Name(c: Category): string
  {
    match c
    case Food => "food"
    case Transport => "transport"
    case Entertainment => "entertainment"
    case Utilities => "utilities"
    case Shopping => "shopping"
    case Health => "health"
    case Other => "other"
  }

  /**
   Reads a category back from its identifier, as the `category as
   ExpenseCategory` casts on object keys do; any other string is no
   category at all.
   */
  function FromName(s: string): (r: Option<Category>)
    ensures r.Some? ==> Name(r.value) == s
    ensures r.None? <==> forall c :: Name(c) != s
  {
    if s == "food" then Some(Food)
    else if s == "transport" then Some(Transport)
    else if s == "entertainment" then Some(Entertainment)
    else if s == "utilities" then Some(Utilities)
    else if s == "shopping" then Some(Shopping)
    else if s == "health" then Some(Health)
    else if s == "other" then Some(Other)
    else None
  }

  lemma NameRoundTrip(c: Category)
    ensures FromName(Name(c)) == Some(c)
  {
  }

  /** The identifiers are pairwise different, so the object keys never collide. */
  lemma NamesDistinct(c: Category, d: Category)
    ensures Name(c) == Name(d) <==> c == d
  {
    NameRoundTrip(c);
    NameRoundTrip(d);
  }

  /** Display metadata of one category (`labelText` is the source's `label`, a Dafny keyword). */
  datatype CategoryConfig = CategoryConfig(labelText: string, color: string, icon: string)

  /** `CATEGORY_CONFIG`: a total table, so a lookup can never miss. */
  function Config(c: Category): (r: CategoryConfig)
    ensures r.labelText != [] && r.color != [] && r.icon != []
  {
    match c
    case Food => CategoryConfig("Food & Dining", "hsl(30, 90%, 55%)", "\U{1F354}")
    case Transport => CategoryConfig("Transport", "hsl(200, 80%, 50%)", "\U{1F697}")
    case Entertainment => CategoryConfig("Entertainment", "hsl(280, 70%, 60%)", "\U{1F3AC}")
    case Utilities => CategoryConfig("Utilities", "hsl(45, 85%, 50%)", "\U{1F4A1}")
    case Shopping => CategoryConfig("Shopping", "hsl(320, 70%, 55%)", "\U{1F6CD}\U{FE0F}")
    case Health => CategoryConfig("Health", "hsl(160, 84%, 39%)", "\U{1F48A}")
    case Other => CategoryConfig("Other", "hsl(215, 20%, 65%)", "\U{1F4E6}")
  }

  /** No two categories share a label, a colour or an icon. */
  lemma ConfigDistinct(c: Category, d: Category)
    requires c != d
    ensures Config(c).labelText != Config(d).labelText
    ensures Config(c).color != Config(d).color
    ensures Config(c).icon != Config(d).icon
  {
  }

  /** Position of a category in `Categories`. */
  function IndexOf(c: Category): (i: nat)
    ensures i < |Categories| && Categories[i] == c
  {
    match c
    case Food => 0
    case Transport => 1
    case Entertainment => 2
    case Utilities => 3
    case Shopping => 4
    case Health => 5
    case Other => 6
  }

  /**
   `Categories` enumerates the closed set exactly: seven entries, no
   repeats, every category present, from `Food` to `Other`.
   */
  lemma CategoriesEnumerateAll()
    ensures |Categories| == 7
    ensures forall i, j :: 0 <= i < j < |Categories| ==> Categories[i] != Categories[j]
    ensures forall c :: c in Categories
    ensures Categories[0] == Food && Categories[6] == Other
  {
    forall c ensures c in Categories {
      assert Categories[IndexOf(c)] == c;
    }
  }

  /** The list-view filter: one category or the sentinel `'all'`. */
  datatype Filter = All | Only(category: Category)

  /** The string a filter is selected by. */
  function FilterValue(f: Filter): string
  {
    match f
    case All => "all"
    case Only(c) => Name(c)
  }

  /**
   Reads the value of the filter selector back into a filter. The page
   casts the value without checking it; only the selector's own values
   (`'all'` and the seven identifiers) ever reach it, and every other
   string reads back as no filter here.
   */
  function FilterFromValue(v: string): (r: Option<Filter>)
    ensures r.Some? ==> FilterValue(r.value) == v
  {
    if v == "all" then Some(All)
    else match FromName(v)
      case Some(c) => Some(Only(c))
      case None => None
  }

  lemma FilterValueRoundTrip(f: Filter)
    ensures FilterFromValue(FilterValue(f)) == Some(f)
  {
    if f.Only? {
      NameRoundTrip(f.category);
    }
  }

  /** A calendar date; an input `YYYY-MM-DD` string read as its three fields. */
  datatype Date = Date(year: int, month: int, day: int)

  predicate IsLeapYear(y: int)
  {
    y % 4 == 0 && (y % 100 != 0 || y % 400 == 0)
  }

  function DaysInMonth(y: int, m: int): int
  {
    if m == 2 then (if IsLeapYear(y) then 29 else 28)
    else if m == 4 || m == 6 || m == 9 || m == 11 then 30
    else 31
  }

  /** A date that exists on the calendar. */
  predicate ValidDate(d: Date)
  {
    1 <= d.month <= 12 && 1 <= d.day <= DaysInMonth(d.year, d.month)
  }

  /** Chronological order: lexicographic on (year, month, day). */
  predicate DateBefore(a: Date, b: Date)
  {
    a.year < b.year
    || (a.year == b.year && a.month < b.month)
    || (a.year == b.year && a.month == b.month && a.day < b.day)
  }

  /**
   An integer standing for the date's timestamp (`getTime()`); only its
   order matters to the views.
   */
  function DayKey(d: Date): int
  {
    (d.year * 12 + (d.month - 1)) * 31 + (d.day - 1)
  }

  /** On real dates the key orders exactly as the calendar does, and identifies the date. */
  lemma DayKeyOrder(a: Date, b: Date)
    requires ValidDate(a) && ValidDate(b)
    ensures DayKey(a) < DayKey(b) <==> DateBefore(a, b)
    ensures DayKey(a) == DayKey(b) <==> a == b
  {
  }

  /** One recorded transaction. `amount` is in cents. */
  datatype Expense = Expense(
    id: string,
    description: string,
    amount: int,
    category: Category,
    date: Date,
    createdAt: string)

  /** What the form hands to the store: an expense without `id` and `createdAt`. */
  datatype NewExpense = NewExpense(description: string, amount: int, category: Category, date: Date)

  function AmountOf(e: Expense): int
  {
    e.amount
  }

  function DateKeyOf(e: Expense): int
  {
    DayKey(e.date)
  }

  /** The selector `expense => expense.category === c`. */
  function HasCategory(c: Category): Expense -> bool
  {
    (e: Expense) => e.category == c
  }

  /** The selector for the records dated `d`. */
  function OnDate(d: Date): Expense -> bool
  {
    (e: Expense) => e.date == d
  }
}
