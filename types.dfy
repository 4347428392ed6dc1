/**
  The records of the ledger: transaction kind, the closed set of categories,
  the transaction record and the form's record without an id, spending
  insights and the optional fields a receipt scan returns.
*/
module Types {
  import opened Options
  import opened Numbers
  import opened Seqs

  /** `'expense' | 'income'`. */
  datatype TxType = Expense | Income

  /** The twelve categories, in the order the type declares them. */
  datatype Category =
    | Food | Transport | Housing | Utilities | Shopping | Entertainment
    | Health | Education | Salary | Freelance | Investment | Other

  const AllCategories: seq<Category> :=
    [Food, Transport, Housing, Utilities, Shopping, Entertainment,
     Health, Education, Salary, Freelance, Investment, Other]

  /** The string value of a category. */
  function CategoryName(c: Category): string {
    match c
    case Food => "Food"
    case Transport => "Transport"
    case Housing => "Housing"
    case Utilities => "Utilities"
    case Shopping => "Shopping"
    case Entertainment => "Entertainment"
    case Health => "Health"
    case Education => "Education"
    case Salary => "Salary"
    case Freelance => "Freelance"
    case Investment => "Investment"
    case Other => "Other"
  }

  /** The category a string names, if it names one. */
  function CategoryNamed(s: string): (r: Option<Category>)
    ensures r.Some? ==> CategoryName(r.value) == s
  {
    if s == "Food" then Some(Food)
    else if s == "Transport" then Some(Transport)
    else if s == "Housing" then Some(Housing)
    else if s == "Utilities" then Some(Utilities)
    else if s == "Shopping" then Some(Shopping)
    else if s == "Entertainment" then Some(Entertainment)
    else if s == "Health" then Some(Health)
    else if s == "Education" then Some(Education)
    else if s == "Salary" then Some(Salary)
    else if s == "Freelance" then Some(Freelance)
    else if s == "Investment" then Some(Investment)
    else if s == "Other" then Some(Other)
    else None
  }

  /** A string is read as a category exactly when it is that category's name. */
  lemma CategoryNamedIff(s: string, c: Category)
    ensures CategoryNamed(s) == Some(c) <==> CategoryName(c) == s
  {
  }

  /** The category type is a closed set of exactly twelve values with twelve different names. */
  lemma CategoriesClosed()
    ensures |AllCategories| == 12 && Distinct(AllCategories)
    ensures forall c: Category :: c in AllCategories
    ensures forall i, j :: 0 <= i < j < 12 ==> CategoryName(AllCategories[i]) != CategoryName(AllCategories[j])
  {
    forall c: Category
      ensures c in AllCategories
    {
      match c
      case Food => assert AllCategories[0] == c;
      case Transport => assert AllCategories[1] == c;
      case Housing => assert AllCategories[2] == c;
      case Utilities => assert AllCategories[3] == c;
      case Shopping => assert AllCategories[4] == c;
      case Entertainment => assert AllCategories[5] == c;
      case Health => assert AllCategories[6] == c;
      case Education => assert AllCategories[7] == c;
      case Salary => assert AllCategories[8] == c;
      case Freelance => assert AllCategories[9] == c;
      case Investment => assert AllCategories[10] == c;
      case Other => assert AllCategories[11] == c;
    }
  }

  /** A stored transaction. The amount is a JavaScript number. */
  datatype Transaction = Transaction(
    id: string,
    amount: JsNumber,
    category: Category,
    date: string,
    description: string,
    kind: TxType)

  /** `Omit<Transaction, 'id'>`: what the form submits. */
  datatype Draft = Draft(
    amount: JsNumber,
    category: Category,
    date: string,
    description: string,
    kind: TxType)

  /** `{ ...draft, id }`. */
  function WithId(d: Draft, id: string): (t: Transaction)
    ensures t.id == id && t.amount == d.amount && t.category == d.category
    ensures t.date == d.date && t.description == d.description && t.kind == d.kind
  {
    Transaction(id, d.amount, d.category, d.date, d.description, d.kind)
  }

  /** The transaction without its id. */
  function DraftOf(t: Transaction): Draft {
    Draft(t.amount, t.category, t.date, t.description, t.kind)
  }

  /** Adding an id and dropping it are inverse: a transaction is its fields plus its id. */
  lemma WithIdDraftOf(t: Transaction, d: Draft, id: string)
    ensures WithId(DraftOf(t), t.id) == t
    ensures DraftOf(WithId(d, id)) == d
  {
  }

  function IdOf(t: Transaction): string { t.id }
  function AmountOf(t: Transaction): JsNumber { t.amount }
  function CategoryOf(t: Transaction): Category { t.category }
  function DateOf(t: Transaction): string { t.date }
  function KindOf(t: Transaction): TxType { t.kind }

  /** `'warning' | 'positive' | 'neutral'`. */
  datatype InsightKind = Warning | Positive | Neutral

  datatype SpendingInsight = SpendingInsight(title: string, message: string, kind: InsightKind)

  /** A receipt scan result: every field may be absent. */
  datatype ReceiptData = ReceiptData(
    amount: Option<JsNumber>,
    date: Option<string>,
    merchant: Option<string>,
    category: Option<Category>)
}
