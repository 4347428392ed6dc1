/**
  The add/edit transaction form: its five fields, the submit guard, merging a
  receipt scan into the fields, and accepting a suggested category only when
  it is one of the listed categories. The amount field holds text, so the
  conversions between a number and its text are part of the form.
*/
module Form {
  import opened Options
  import opened Numbers
  import opened Seqs
  import opened Types
  import opened Text

  // --------------------------------------------------------- amount as text

  /** The fraction part `Number.prototype.toString` writes for `c` cents: nothing, one digit or two. */
  function CentsText(c: nat): (r: string)
    requires c < 100
    ensures c == 0 <==> r == []
  {
    if c == 0 then ""
    else if c % 10 == 0 then "." + [DigitChar(c / 10)]
    else "." + Pad2(c)
  }

  /** `n.toString()`: an optional minus sign, the whole part, and the fraction without trailing zeros. */
  function FormatAmount(n: JsNumber): (r: string)
    ensures r != []
  {
    match n
    case NaN => "NaN"
    case Finite(m) => if m < 0 then "-" + FormatCents(-m) else FormatCents(m)
  }

  /** The text of a non-negative number of cents: the whole part, then the fraction if any. */
  function FormatCents(a: nat): (r: string)
    ensures r != [] && IsDigit(r[0])
  {
    NatToString(a / 100) + CentsText(a % 100)
  }

  /** The longest prefix of decimal digits. */
  function LeadingDigits(s: string): (r: string)
    ensures r <= s && AllDigits(r)
    ensures |r| < |s| ==> !IsDigit(s[|r|])
  {
    if s != [] && IsDigit(s[0]) then
      assert s == [s[0]] + s[1..];
      [s[0]] + LeadingDigits(s[1..])
    else []
  }

  /** The cents the first two fraction digits stand for. */
  function FractionCents(f: string): (c: nat)
    requires AllDigits(f)
    ensures c < 100
  {
    (if |f| >= 1 then 10 * DigitValue(f[0]) else 0) + (if |f| >= 2 then DigitValue(f[1]) else 0)
  }

  /**
    `parseFloat(s)`: leading white space skipped, an optional sign, then the
    longest decimal literal (digits, optionally a point and more digits, at
    least one digit in all); NaN when there is none.
  */
  function ParseFloat(s: string): JsNumber {
    var t := TrimStart(s);
    var neg := t != [] && t[0] == '-';
    var body := if t != [] && (t[0] == '-' || t[0] == '+') then t[1..] else t;
    match ParseMagnitude(body)
    case None => NaN
    case Some(mag) => Finite(if neg then 0 - mag else mag)
  }

  /** The unsigned decimal literal at the start of `body`, in cents, if there is one. */
  function ParseMagnitude(body: string): Option<nat> {
    var whole := LeadingDigits(body);
    var rest := body[|whole|..];
    var frac := if rest != [] && rest[0] == '.' then LeadingDigits(rest[1..]) else [];
    if whole == [] && frac == [] then None
    else Some(100 * DigitsValue(whole) + FractionCents(frac))
  }

  /** Digits followed by something that is not a digit: the digits are the leading run. */
  lemma {:induction false} LeadingDigitsOf(d: string, rest: string)
    requires AllDigits(d)
    requires rest == [] || !IsDigit(rest[0])
    ensures LeadingDigits(d + rest) == d
  {
    if d != [] {
      assert (d + rest)[1..] == d[1..] + rest;
      LeadingDigitsOf(d[1..], rest);
      assert d == [d[0]] + d[1..];
    }
  }

  /** A string that starts with a character other than white space is its own `trimStart`. */
  lemma TrimStartNoop(s: string)
    requires s != [] && !IsJsWhitespace(s[0])
    ensures TrimStart(s) == s
  {
  }

  /** The digits of the cents text read back as the cents. */
  lemma CentsDigits(c: nat)
    requires 0 < c < 100
    ensures CentsText(c)[0] == '.' && AllDigits(CentsText(c)[1..])
    ensures FractionCents(CentsText(c)[1..]) == c
  {
    var f := CentsText(c)[1..];
    if c % 10 == 0 {
      assert f == [DigitChar(c / 10)];
    } else {
      assert f == Pad2(c);
      TwoDigits(c);
    }
  }

  lemma TwoDigits(c: nat)
    requires c < 100
    ensures |Pad2(c)| == 2 && AllDigits(Pad2(c))
    ensures 10 * DigitValue(Pad2(c)[0]) + DigitValue(Pad2(c)[1]) == c
  {
    Pad2Value(c);
    DigitsValueTwo(Pad2(c));
  }

  /** The magnitude text `String(q)` plus the cents text reads back as `100 q + c` cents. */
  lemma ParseMagnitudeOf(q: nat, c: nat)
    requires c < 100
    ensures ParseMagnitude(NatToString(q) + CentsText(c)) == Some(100 * q + c)
  {
    var digits := NatToString(q);
    var cents := CentsText(c);
    var body := digits + cents;
    if c > 0 {
      CentsDigits(c);
      LeadingDigitsOf(cents[1..], []);
      assert cents[1..] + [] == cents[1..];
    }
    LeadingDigitsOf(digits, cents);
    assert body[|digits|..] == cents;
    NatToStringValue(q);
  }

  /** Reading back the text of a number gives the number, NaN included. */
  lemma ParseFormatAmount(n: JsNumber)
    ensures ParseFloat(FormatAmount(n)) == n
  {
    match n
    case NaN =>
      ParseNaNText();
    case Finite(m) =>
      if m < 0 {
        ParseNegative(-m);
      } else {
        ParseNonNegative(m);
      }
  }

  lemma ParseNaNText()
    ensures ParseFloat("NaN") == NaN
  {
    var s := "NaN";
    TrimStartNoop(s);
    assert LeadingDigits(s) == [];
  }

  lemma ParseNonNegative(a: nat)
    ensures ParseFloat(FormatAmount(Finite(a))) == Finite(a)
  {
    FormatShape(a);
    MagnitudeOfCents(a);
    ParseUnsignedText(FormatCents(a));
  }

  lemma ParseNegative(a: nat)
    requires a > 0
    ensures ParseFloat(FormatAmount(Finite(0 - a))) == Finite(0 - a)
  {
    FormatShape(a);
    MagnitudeOfCents(a);
    ParseNegativeText(FormatCents(a));
  }

  lemma FormatShape(a: nat)
    ensures FormatAmount(Finite(a)) == FormatCents(a)
    ensures a > 0 ==> FormatAmount(Finite(0 - a)) == "-" + FormatCents(a)
  {
  }

  lemma MagnitudeOfCents(a: nat)
    ensures ParseMagnitude(FormatCents(a)) == Some(a)
  {
    var q, c := a / 100, a % 100;
    assert a == 100 * q + c;
    assert FormatCents(a) == NatToString(q) + CentsText(c);
    ParseMagnitudeOf(q, c);
  }

  /** Text that starts with a digit is read as the unsigned literal at its start. */
  lemma ParseUnsignedText(s: string)
    requires s != [] && IsDigit(s[0]) && ParseMagnitude(s).Some?
    ensures ParseFloat(s) == Finite(ParseMagnitude(s).value)
  {
    TrimStartNoop(s);
  }

  /** A minus sign in front of a digit negates the literal that follows. */
  lemma ParseNegativeText(s: string)
    requires s != [] && IsDigit(s[0]) && ParseMagnitude(s).Some?
    ensures ParseFloat("-" + s) == Finite(0 - ParseMagnitude(s).value)
  {
    TrimStartNoop("-" + s);
    assert ("-" + s)[1..] == s;
  }

  // ------------------------------------------------------------- categories

  /** `CATEGORIES`: the options of the category select, in the form's own order. */
  const FormCategories: seq<Category> :=
    [Food, Transport, Shopping, Housing, Utilities, Entertainment,
     Health, Education, Salary, Freelance, Investment, Other]

  /** The form lists every category of the type, each once: the same twelve values in another order. */
  lemma FormCategoriesComplete()
    ensures |FormCategories| == 12 && Distinct(FormCategories)
    ensures multiset(FormCategories) == multiset(AllCategories)
    ensures forall c: Category :: c in FormCategories
  {
    FormCategoriesPermutation();
    FormCategoriesCover();
  }

  lemma FormCategoriesPermutation()
    ensures |FormCategories| == 12 && Distinct(FormCategories)
    ensures multiset(FormCategories) == multiset(AllCategories)
  {
    var all := AllCategories;
    assert FormCategories == all[..2] + [all[4]] + all[2..4] + all[5..];
    assert all == all[..2] + all[2..4] + [all[4]] + all[5..];
  }

  lemma FormCategoriesCover()
    ensures forall c: Category :: c in FormCategories
  {
    forall c: Category
      ensures c in FormCategories
    {
      match c
      case Food => assert FormCategories[0] == c;
      case Transport => assert FormCategories[1] == c;
      case Shopping => assert FormCategories[2] == c;
      case Housing => assert FormCategories[3] == c;
      case Utilities => assert FormCategories[4] == c;
      case Entertainment => assert FormCategories[5] == c;
      case Health => assert FormCategories[6] == c;
      case Education => assert FormCategories[7] == c;
      case Salary => assert FormCategories[8] == c;
      case Freelance => assert FormCategories[9] == c;
      case Investment => assert FormCategories[10] == c;
      case Other => assert FormCategories[11] == c;
    }
  }

  /** `cs.includes(s)` on category names, giving the category found. */
  function Listed(cs: seq<Category>, s: string): (r: Option<Category>)
    ensures r.Some? ==> r.value in cs && CategoryName(r.value) == s
    ensures r.None? ==> forall c :: c in cs ==> CategoryName(c) != s
  {
    if cs == [] then None
    else if CategoryName(cs[0]) == s then Some(cs[0])
    else Listed(cs[1..], s)
  }

  /** A string is in `CATEGORIES` exactly when it names a category of the type. */
  lemma ListedIsNamed(s: string)
    ensures Listed(FormCategories, s) == CategoryNamed(s)
  {
    FormCategoriesComplete();
    var r := Listed(FormCategories, s);
    if r.Some? {
      CategoryNamedIff(s, r.value);
    }
  }

  // ------------------------------------------------------------ the fields

  /** `handleSubmit`'s rule: nothing without amount text and description; otherwise the fields with the amount parsed. */
  function DraftFrom(amount: string, category: Category, date: string, description: string, kind: TxType): Option<Draft> {
    if amount == [] || description == [] then None
    else Some(Draft(ParseFloat(amount), category, date, description, kind))
  }

  /**
    Opening the form on a stored transaction and submitting it untouched
    gives back that transaction's fields, its amount included.
  */
  lemma EditResubmit(t: Transaction, today: string)
    requires t.description != [] && t.date != []
    ensures DraftFrom(FormatAmount(t.amount), t.category, t.date, t.description, t.kind) == Some(DraftOf(t))
  {
    ParseFormatAmount(t.amount);
  }

  /**
    The category a suggestion sets: none for an empty description or an empty
    or missing suggestion, otherwise the listed category of that name if any.
  */
  function Accepted(description: string, suggestion: Option<string>): Option<Category> {
    if description != [] && suggestion.Some? && suggestion.value != [] then Listed(FormCategories, suggestion.value)
    else None
  }

  /**
    A suggestion is taken exactly when the description is not empty and the
    suggestion names a category of the type, and then the category set is the
    one it names.
  */
  lemma AcceptedIff(description: string, suggestion: Option<string>)
    ensures Accepted(description, suggestion).Some?
        <==> description != [] && suggestion.Some? && CategoryNamed(suggestion.value).Some?
    ensures Accepted(description, suggestion).Some? ==>
              CategoryName(Accepted(description, suggestion).value) == suggestion.value
  {
    if suggestion.Some? {
      ListedIsNamed(suggestion.value);
    }
  }

  class TransactionForm {
    var kind: TxType
    var amount: string
    var category: Category
    var date: string
    var description: string

    /**
      The initial state: a new entry starts as an expense in Food with empty
      amount and description and today's date; an edited entry starts from
      its own fields, with the amount as text and an empty date replaced by
      today's.
    */
    constructor(initialData: Option<Transaction>, today: string)
      ensures initialData.None? ==>
                kind == Expense && amount == [] && category == Food && date == today && description == []
      ensures initialData.Some? ==>
                kind == initialData.value.kind && amount == FormatAmount(initialData.value.amount)
                && category == initialData.value.category && description == initialData.value.description
                && date == (if initialData.value.date != [] then initialData.value.date else today)
    {
      if initialData.Some? {
        var t := initialData.value;
        kind := t.kind;
        amount := FormatAmount(t.amount);
        category := t.category;
        date := if t.date != [] then t.date else today;
        description := t.description;
      } else {
        kind := Expense;
        amount := [];
        category := Food;
        date := today;
        description := [];
      }
    }

    /**
      `handleSubmit`: nothing is submitted without amount text and
      description; otherwise the fields go out unchanged but for the amount,
      which is parsed. The form itself does not change.
    */
    method Submit() returns (draft: Option<Draft>)
      ensures draft == DraftFrom(amount, category, date, description, kind)
      ensures draft.None? <==> amount == [] || description == []
      ensures draft.Some? ==> draft.value.amount == ParseFloat(amount) && draft.value.category == category
                              && draft.value.date == date && draft.value.description == description
                              && draft.value.kind == kind
    {
      if amount == [] || description == [] {
        return None;
      }
      draft := Some(Draft(ParseFloat(amount), category, date, description, kind));
    }

    /**
      Merging a receipt scan: each field is overwritten only by a truthy
      result (so an amount of 0 is not applied), and the type becomes expense.
    */
    method ApplyReceipt(data: ReceiptData)
      modifies this
      ensures amount == if data.amount.Some? && Truthy(data.amount.value) then FormatAmount(data.amount.value) else old(amount)
      ensures date == if data.date.Some? && data.date.value != [] then data.date.value else old(date)
      ensures description == if data.merchant.Some? && data.merchant.value != [] then data.merchant.value else old(description)
      ensures category == if data.category.Some? then data.category.value else old(category)
      ensures kind == Expense
    {
      if data.amount.Some? && Truthy(data.amount.value) {
        amount := FormatAmount(data.amount.value);
      }
      if data.date.Some? && data.date.value != [] {
        date := data.date.value;
      }
      if data.merchant.Some? && data.merchant.value != [] {
        description := data.merchant.value;
      }
      if data.category.Some? {
        category := data.category.value;
      }
      kind := Expense;
    }

    /**
      `handleSmartCategorize` with the suggestion it awaited: nothing for an
      empty description; the category changes only to a suggestion that is
      one of `CATEGORIES`, and nothing else changes.
    */
    method SmartCategorize(suggestion: Option<string>)
      modifies this
      ensures category == if Accepted(description, suggestion).Some? then Accepted(description, suggestion).value else old(category)
      ensures kind == old(kind) && amount == old(amount) && date == old(date) && description == old(description)
    {
      if description == [] {
        return;
      }
      if suggestion.Some? && suggestion.value != [] {
        var found := Listed(FormCategories, suggestion.value);
        if found.Some? {
          category := found.value;
        }
      }
    }

    /** The expense/income switch. */
    method SetKind(k: TxType)
      modifies this
      ensures kind == k
      ensures amount == old(amount) && category == old(category) && date == old(date) && description == old(description)
    {
      kind := k;
    }

    method SetAmount(text: string)
      modifies this
      ensures amount == text
      ensures kind == old(kind) && category == old(category) && date == old(date) && description == old(description)
    {
      amount := text;
    }

    method SetDescription(text: string)
      modifies this
      ensures description == text
      ensures kind == old(kind) && amount == old(amount) && category == old(category) && date == old(date)
    {
      description := text;
    }

    /** The category select, whose options are `CATEGORIES`. */
    method SetCategory(c: Category)
      modifies this
      ensures category == c
      ensures kind == old(kind) && amount == old(amount) && date == old(date) && description == old(description)
    {
      category := c;
    }

    method SetDate(text: string)
      modifies this
      ensures date == text
      ensures kind == old(kind) && amount == old(amount) && category == old(category) && description == old(description)
    {
      date := text;
    }
  }
}
