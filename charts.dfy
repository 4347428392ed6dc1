/**
  The analytics aggregations: the expense pie (one slice per category with
  its total and its three largest expenses) and the weekly bar series (one
  bucket per day of the current Sunday-to-Saturday week).
*/
module Charts {
  import opened Options
  import opened Numbers
  import opened Seqs
  import opened Sorting
  import opened Types
  import opened Grouping
  import opened Calendar

  // ---------------------------------------------------------------- pie chart

  /** `Number(curr.amount) || 0`: the one place where a non-numeric amount counts as 0. */
  function CoercedAmount(t: Transaction): (r: JsNumber)
    ensures r.Finite?
    ensures t.amount.Finite? ==> r == t.amount
    ensures t.amount.NaN? ==> r == Finite(0)
  {
    OrZero(t.amount)
  }

  /**
    A pie slice. `transactions` is the category's list after the in-place
    sort that produced `topTransactions`: the spread copies a reference to
    the very array that `sort` then reorders.
  */
  datatype Slice = Slice(
    name: Category,
    value: JsNumber,
    transactions: seq<Transaction>,
    topTransactions: seq<Transaction>)

  function SliceValue(s: Slice): JsNumber { s.value }

  /** The slice of category `c` over the expense list `exp`. */
  function SliceOf(exp: seq<Transaction>, c: Category): Slice {
    var g := Group(exp, c);
    var sorted := SortDesc(g, AmountOf);
    Slice(c, SumBy(g, CoercedAmount), sorted, Take(sorted, 3))
  }

  /**
    The pie's data: one slice per expense category, in order of first
    appearance. This is the reference definition: `ExpensePieData`, which runs
    the source's loops, is proved to compute it, and `PieEmpty`,
    `PieCategories`, `PieTotal` and `PieTop` state what it means.
  */
  function PieData(ts: seq<Transaction>): (data: seq<Slice>)
    ensures |data| == |CategoriesInOrder(Expenses(ts))|
    ensures forall k :: 0 <= k < |data| ==> data[k] == SliceOf(Expenses(ts), CategoriesInOrder(Expenses(ts))[k])
  {
    var exp := Expenses(ts);
    var cs := CategoriesInOrder(exp);
    seq(|cs|, k requires 0 <= k < |cs| => SliceOf(exp, cs[k]))
  }

  /** The dictionary entry `{ value, transactions }` of category `c` after reading `exp`. */
  function Entry(exp: seq<Transaction>, c: Category): (JsNumber, seq<Transaction>) {
    (SumBy(Group(exp, c), CoercedAmount), Group(exp, c))
  }

  /** The dictionary after reading `exp`: its keys in insertion order and its entries. */
  predicate AccHolds(exp: seq<Transaction>, order: seq<Category>, acc: map<Category, (JsNumber, seq<Transaction>)>) {
    && order == CategoriesInOrder(exp)
    && (forall c :: c in acc <==> c in order)
    && (forall c :: c in acc ==> acc[c] == Entry(exp, c))
  }

  lemma EntryStep(exp: seq<Transaction>, i: nat, c: Category)
    requires i < |exp|
    ensures Entry(exp[..i + 1], c)
         == if exp[i].category == c
            then (Plus(Entry(exp[..i], c).0, CoercedAmount(exp[i])), Entry(exp[..i], c).1 + [exp[i]])
            else Entry(exp[..i], c)
  {
    var g := Group(exp[..i], c);
    FilterSnoc(exp, i, HasKey(CategoryOf, c));
    HasKeyApply(CategoryOf, c, exp[i]);
    assert Group(exp[..i + 1], c) == g + (if exp[i].category == c then [exp[i]] else []);
    if exp[i].category == c {
      SumBySnoc(g, exp[i], CoercedAmount);
    } else {
      assert g + [] == g;
    }
  }

  /**
    One `reduce` step: create the entry of a category seen for the first
    time, then add the coerced amount to its value and push the transaction.
  */
  lemma AccStep(exp: seq<Transaction>, i: nat, order: seq<Category>, acc: map<Category, (JsNumber, seq<Transaction>)>,
                e: (JsNumber, seq<Transaction>), order': seq<Category>, acc': map<Category, (JsNumber, seq<Transaction>)>)
    requires i < |exp| && AccHolds(exp[..i], order, acc)
    requires order' == if exp[i].category in acc then order else order + [exp[i].category]
    requires e == if exp[i].category in acc then acc[exp[i].category] else (Finite(0), [])
    requires acc' == acc[exp[i].category := (Plus(e.0, CoercedAmount(exp[i])), e.1 + [exp[i]])]
    ensures AccHolds(exp[..i + 1], order', acc')
  {
    var c := exp[i].category;
    var pre, next := exp[..i], exp[..i + 1];
    assert next[..|next| - 1] == pre && next[|next| - 1] == exp[i];
    assert CategoriesInOrder(next) == order';
    KeysStep(order, acc, c, acc'[c], order', acc');
    if c !in acc {
      GroupAbsent(pre, c);
    }
    AccEntries(exp, i, acc, e, acc');
  }

  /** Setting a key appends it to the insertion order exactly when it was new. */
  lemma KeysStep<V>(order: seq<Category>, acc: map<Category, V>, c: Category, v: V, order': seq<Category>, acc': map<Category, V>)
    requires forall d :: d in acc <==> d in order
    requires order' == if c in acc then order else order + [c]
    requires acc' == acc[c := v]
    ensures forall d :: d in acc' <==> d in order'
  {
  }

  lemma AccEntries(exp: seq<Transaction>, i: nat, acc: map<Category, (JsNumber, seq<Transaction>)>,
                   e: (JsNumber, seq<Transaction>), acc': map<Category, (JsNumber, seq<Transaction>)>)
    requires i < |exp|
    requires forall d :: d in acc ==> acc[d] == Entry(exp[..i], d)
    requires e == Entry(exp[..i], exp[i].category)
    requires acc' == acc[exp[i].category := (Plus(e.0, CoercedAmount(exp[i])), e.1 + [exp[i]])]
    ensures forall d :: d in acc' ==> acc'[d] == Entry(exp[..i + 1], d)
  {
    forall d | d in acc'
      ensures acc'[d] == Entry(exp[..i + 1], d)
    {
      AccEntry(exp, i, acc, e, acc', d);
    }
  }

  /** `AccEntries` for one key `d`. */
  lemma AccEntry(exp: seq<Transaction>, i: nat, acc: map<Category, (JsNumber, seq<Transaction>)>,
                 e: (JsNumber, seq<Transaction>), acc': map<Category, (JsNumber, seq<Transaction>)>, d: Category)
    requires i < |exp|
    requires d in acc ==> acc[d] == Entry(exp[..i], d)
    requires e == Entry(exp[..i], exp[i].category)
    requires acc' == acc[exp[i].category := (Plus(e.0, CoercedAmount(exp[i])), e.1 + [exp[i]])]
    ensures d in acc' ==> acc'[d] == Entry(exp[..i + 1], d)
  {
    EntryStep(exp, i, d);
    if d != exp[i].category {
      assert d in acc' ==> acc'[d] == acc[d];
    }
  }

  /** `{ ...item, value: item.value, topTransactions: item.transactions.sort(...).slice(0, 3) }`. */
  lemma SliceFromEntry(exp: seq<Transaction>, c: Category, entry: (JsNumber, seq<Transaction>))
    requires entry == Entry(exp, c)
    ensures SliceOf(exp, c) == Slice(c, entry.0, SortDesc(entry.1, AmountOf), Take(SortDesc(entry.1, AmountOf), 3))
  {
  }

  /** The `reduce` into a dictionary keyed by category, over the expense list. */
  method Aggregate(exp: seq<Transaction>) returns (order: seq<Category>, acc: map<Category, (JsNumber, seq<Transaction>)>)
    ensures AccHolds(exp, order, acc)
  {
    order, acc := [], map[];
    var i := 0;
    assert exp[..0] == [];
    while i < |exp|
      invariant 0 <= i <= |exp|
      invariant AccHolds(exp[..i], order, acc)
    {
      var c := exp[i].category;
      var entry := if c in acc then acc[c] else (Finite(0), []);
      ghost var order0, acc0 := order, acc;
      if c !in acc {
        order := order + [c];
      }
      acc := acc[c := (Plus(entry.0, CoercedAmount(exp[i])), entry.1 + [exp[i]])];
      AccStep(exp, i, order0, acc0, entry, order, acc);
      i := i + 1;
    }
    assert exp[..i] == exp;
  }

  /** `Object.values(...).map(...)`: each group sorted, with its first three kept. */
  method BuildSlices(exp: seq<Transaction>, order: seq<Category>, acc: map<Category, (JsNumber, seq<Transaction>)>)
    returns (data: seq<Slice>)
    requires AccHolds(exp, order, acc)
    ensures |data| == |order|
    ensures forall k :: 0 <= k < |data| ==> data[k] == SliceOf(exp, order[k])
  {
    data := [];
    var j := 0;
    while j < |order|
      invariant 0 <= j <= |order|
      invariant |data| == j
      invariant forall k :: 0 <= k < j ==> data[k] == SliceOf(exp, order[k])
    {
      var c := order[j];
      var entry := acc[c];
      var sorted := SortDesc(entry.1, AmountOf);
      SliceFromEntry(exp, c, entry);
      SlicesSnoc(exp, order, data, Slice(c, entry.0, sorted, Take(sorted, 3)));
      data := data + [Slice(c, entry.0, sorted, Take(sorted, 3))];
      j := j + 1;
    }
  }

  lemma SlicesSnoc(exp: seq<Transaction>, order: seq<Category>, data: seq<Slice>, s: Slice)
    requires |data| < |order|
    requires forall k :: 0 <= k < |data| ==> data[k] == SliceOf(exp, order[k])
    requires s == SliceOf(exp, order[|data|])
    ensures forall k :: 0 <= k < |data| + 1 ==> (data + [s])[k] == SliceOf(exp, order[k])
  {
  }

  /**
    `ExpensePieChart`'s computation: the `reduce` into a dictionary keyed by
    category, then `Object.values`, sorting each group and keeping three.
  */
  method ExpensePieData(ts: seq<Transaction>) returns (data: seq<Slice>)
    ensures data == PieData(ts)
  {
    var exp := Expenses(ts);
    var order, acc := Aggregate(exp);
    data := BuildSlices(exp, order, acc);
  }

  /** The empty-state branch is taken exactly when there is no expense. */
  lemma PieEmpty(ts: seq<Transaction>)
    ensures PieData(ts) == [] <==> forall t :: t in ts ==> t.kind != Expense
  {
    var exp := Expenses(ts);
    FilterMembers(ts, HasKey(KindOf, Expense));
    forall t | t in ts
      ensures HasKey(KindOf, Expense)(t) == (t.kind == Expense)
    {
      HasKeyApply(KindOf, Expense, t);
    }
    if exp != [] {
      CategoriesMembers(exp);
      assert exp[0].category in CategoriesInOrder(exp);
      assert exp[0] in exp;
    }
  }

  /**
    Each category with at least one expense has exactly one slice, and no
    other category has one.
  */
  lemma PieCategories(ts: seq<Transaction>, c: Category)
    ensures forall j, k :: 0 <= j < k < |PieData(ts)| ==> PieData(ts)[j].name != PieData(ts)[k].name
    ensures (exists k :: 0 <= k < |PieData(ts)| && PieData(ts)[k].name == c)
        <==> (exists t :: t in ts && t.kind == Expense && t.category == c)
  {
    var exp := Expenses(ts);
    var cs := CategoriesInOrder(exp);
    var data := PieData(ts);
    assert forall k :: 0 <= k < |data| ==> data[k].name == cs[k];
    CategoriesMembers(exp);
    assert (exists k :: 0 <= k < |data| && data[k].name == c) <==> c in cs;
    ExpenseCategory(ts, c);
  }

  /**
    Conservation: the slice values add up to the coerced sum of all expenses,
    and no slice value is NaN.
  */
  lemma PieTotal(ts: seq<Transaction>)
    ensures SumBy(PieData(ts), SliceValue) == SumBy(Expenses(ts), CoercedAmount)
    ensures forall k :: 0 <= k < |PieData(ts)| ==> PieData(ts)[k].value.Finite?
  {
    var exp := Expenses(ts);
    var cs := CategoriesInOrder(exp);
    var data := PieData(ts);
    forall k | 0 <= k < |data|
      ensures SliceValue(data[k]) == SumBy(Filter(exp, HasKey(CategoryOf, cs[k])), CoercedAmount)
      ensures data[k].value.Finite?
    {
      SumByFinite(Group(exp, cs[k]), CoercedAmount);
    }
    SumOverGroups(data, SliceValue, exp, CategoryOf, cs, CoercedAmount);
    CategoriesMembers(exp);
    GroupSumsPartition(exp, CategoryOf, cs, CoercedAmount);
    CategoriesCover(exp);
  }

  /** The members of a sorted-and-cut list of a filtered list satisfy the filter. */
  lemma TopMembers(s: seq<Transaction>, p: Transaction -> bool, n: nat)
    ensures forall t :: t in Take(SortDesc(Filter(s, p), AmountOf), n) ==> t in s && p(t)
  {
    var top := Take(SortDesc(Filter(s, p), AmountOf), n);
    TopOfSorted(Filter(s, p), AmountOf, n);
    FilterMembers(s, p);
    forall t | t in top
      ensures t in Filter(s, p)
    {
      assert t in multiset(top);
    }
  }

  /**
    A slice's `topTransactions`: three expenses of its own category (all of
    them when it has fewer); when every amount is a number, the largest ones
    (no expense of the category left out is larger than one kept), largest
    first; equal amounts in their original order; and its `transactions` are
    the whole group reordered.
  */
  lemma PieTop(ts: seq<Transaction>, k: nat)
    requires k < |PieData(ts)|
    ensures |PieData(ts)[k].topTransactions| <= 3
    ensures |PieData(ts)[k].topTransactions|
         == if |Group(Expenses(ts), PieData(ts)[k].name)| < 3 then |Group(Expenses(ts), PieData(ts)[k].name)| else 3
    ensures AllFinite(Group(Expenses(ts), PieData(ts)[k].name), AmountOf) ==>
              NoneLeftAbove(PieData(ts)[k].topTransactions, Group(Expenses(ts), PieData(ts)[k].name), AmountOf)
    ensures multiset(PieData(ts)[k].transactions) == multiset(Group(Expenses(ts), PieData(ts)[k].name))
    ensures forall t :: t in PieData(ts)[k].topTransactions ==>
              t in ts && t.kind == Expense && t.category == PieData(ts)[k].name
    ensures AllFinite(Group(Expenses(ts), PieData(ts)[k].name), AmountOf) ==>
              Descending(PieData(ts)[k].topTransactions, AmountOf)
    ensures forall v :: Filter(PieData(ts)[k].topTransactions, HasKey(AmountOf, v))
                     <= Filter(Group(Expenses(ts), PieData(ts)[k].name), HasKey(AmountOf, v))
  {
    var exp := Expenses(ts);
    var c := PieData(ts)[k].name;
    var top := PieData(ts)[k].topTransactions;
    TopOfSorted(Group(exp, c), AmountOf, 3);
    TopMembers(exp, HasKey(CategoryOf, c), 3);
    FilterMembers(ts, HasKey(KindOf, Expense));
    forall t | t in top
      ensures t in ts && t.kind == Expense && t.category == c
    {
      HasKeyApply(CategoryOf, c, t);
      HasKeyApply(KindOf, Expense, t);
    }
  }

  // ---------------------------------------------------------- weekly bar chart

  /** One bar: weekday label, date string, the day's income and expense, its top three expenses. */
  datatype DayBucket = DayBucket(
    date: string,
    fullDate: string,
    income: JsNumber,
    expense: JsNumber,
    topExpenses: seq<Transaction>)

  function BucketIncome(b: DayBucket): JsNumber { b.income }
  function BucketExpense(b: DayBucket): JsNumber { b.expense }

  /**
    The bucket of date `d`: the transactions whose date string equals `d`'s
    formatted string exactly, split by type and summed with bare `Number`.
    The label is the weekday of the date read back from that string.
  */
  function BucketOf(ts: seq<Transaction>, d: Date): DayBucket
    requires Valid(d)
  {
    var s := FormatIso(d);
    var day := Filter(ts, HasKey(DateOf, s));
    var exp := Filter(day, HasKey(KindOf, Expense));
    DayBucket(
      WeekdayName(d),
      s,
      SumBy(Filter(day, HasKey(KindOf, Income)), AmountOf),
      SumBy(exp, AmountOf),
      Take(SortDesc(exp, AmountOf), 3))
  }

  /** The date strings of the week containing `today`. */
  function WeekStrings(today: Date): (r: seq<string>)
    requires Valid(today) && today.year >= 1
    ensures |r| == 7
    ensures forall i :: 0 <= i < 7 ==> r[i] == FormatIso(WeekDates(today)[i])
  {
    var w := WeekDates(today);
    seq(7, i requires 0 <= i < 7 => FormatIso(w[i]))
  }

  /** `WeeklyBarChart`'s data: seven buckets, Sunday first. */
  function WeeklyData(ts: seq<Transaction>, today: Date): (data: seq<DayBucket>)
    requires Valid(today) && today.year >= 1
    ensures |data| == 7
    ensures forall i :: 0 <= i < 7 ==> data[i] == BucketOf(ts, WeekDates(today)[i])
  {
    var w := WeekDates(today);
    seq(7, i requires 0 <= i < 7 => BucketOf(ts, w[i]))
  }

  /**
    The seven buckets are labelled Sun to Sat in order, carry seven different
    `YYYY-MM-DD`-style date strings, and today's string is the bucket at
    today's weekday. For a four-digit year, reading a bucket's string back
    gives its date again.
  */
  lemma WeeklyShape(ts: seq<Transaction>, today: Date)
    requires Valid(today) && today.year >= 1
    ensures forall i :: 0 <= i < 7 ==> WeeklyData(ts, today)[i].date == WeekdayNames[i]
    ensures Distinct(WeekStrings(today))
    ensures forall i :: 0 <= i < 7 ==> WeeklyData(ts, today)[i].fullDate == WeekStrings(today)[i]
    ensures WeeklyData(ts, today)[Weekday(today)].fullDate == FormatIso(today)
    ensures forall i :: 0 <= i < 7 && 1000 <= WeekDates(today)[i].year <= 9999 ==>
              ParseIso(WeeklyData(ts, today)[i].fullDate) == Some(WeekDates(today)[i])
  {
    var w := WeekDates(today);
    var strs := WeekStrings(today);
    WeekShape(today);
    WeekDistinct(today);
    forall i, j | 0 <= i < j < 7
      ensures strs[i] != strs[j]
    {
      if strs[i] == strs[j] {
        FormatIsoInjective(w[i], w[j]);
      }
    }
    forall i | 0 <= i < 7 && 1000 <= w[i].year <= 9999
      ensures ParseIso(strs[i]) == Some(w[i])
    {
      ParseFormatIso(w[i]);
    }
  }

  /** A day without transactions still has its bucket, with zero sums and no top expenses. */
  lemma EmptyBucket(ts: seq<Transaction>, d: Date)
    requires Valid(d)
    requires forall t :: t in ts ==> t.date != FormatIso(d)
    ensures BucketOf(ts, d).income == Finite(0) && BucketOf(ts, d).expense == Finite(0)
    ensures BucketOf(ts, d).topExpenses == []
  {
    forall t | t in ts
      ensures !HasKey(DateOf, FormatIso(d))(t)
    {
      HasKeyApply(DateOf, FormatIso(d), t);
    }
    FilterNone(ts, HasKey(DateOf, FormatIso(d)));
  }

  /**
    A bucket's top expenses: three expenses of exactly that date (all of them
    when there are fewer); when every amount is a number, the largest ones
    (no expense of that date left out is larger than one kept), largest
    first; equal amounts in list order.
  */
  lemma BucketTop(ts: seq<Transaction>, d: Date)
    requires Valid(d)
    ensures |BucketOf(ts, d).topExpenses| <= 3
    ensures var exp := Filter(Filter(ts, HasKey(DateOf, FormatIso(d))), HasKey(KindOf, Expense));
            |BucketOf(ts, d).topExpenses| == if |exp| < 3 then |exp| else 3
    ensures AllFinite(Filter(Filter(ts, HasKey(DateOf, FormatIso(d))), HasKey(KindOf, Expense)), AmountOf) ==>
              NoneLeftAbove(BucketOf(ts, d).topExpenses,
                            Filter(Filter(ts, HasKey(DateOf, FormatIso(d))), HasKey(KindOf, Expense)), AmountOf)
    ensures forall t :: t in BucketOf(ts, d).topExpenses ==> t in ts && t.kind == Expense && t.date == FormatIso(d)
    ensures AllFinite(Filter(Filter(ts, HasKey(DateOf, FormatIso(d))), HasKey(KindOf, Expense)), AmountOf) ==>
              Descending(BucketOf(ts, d).topExpenses, AmountOf)
    ensures forall v :: Filter(BucketOf(ts, d).topExpenses, HasKey(AmountOf, v))
                     <= Filter(Filter(Filter(ts, HasKey(DateOf, FormatIso(d))), HasKey(KindOf, Expense)), HasKey(AmountOf, v))
  {
    var day := Filter(ts, HasKey(DateOf, FormatIso(d)));
    var exp := Filter(day, HasKey(KindOf, Expense));
    TopOfSorted(exp, AmountOf, 3);
    TopMembers(day, HasKey(KindOf, Expense), 3);
    FilterMembers(ts, HasKey(DateOf, FormatIso(d)));
    forall t | t in BucketOf(ts, d).topExpenses
      ensures t in ts && t.kind == Expense && t.date == FormatIso(d)
    {
      HasKeyApply(KindOf, Expense, t);
      HasKeyApply(DateOf, FormatIso(d), t);
    }
  }

  /** A bucket's sum of one type, counted over that type's transactions first. */
  lemma BucketSumCommutes(ts: seq<Transaction>, s: string, kind: TxType)
    ensures SumBy(Filter(Filter(ts, HasKey(DateOf, s)), HasKey(KindOf, kind)), AmountOf)
         == SumBy(Filter(Filter(ts, HasKey(KindOf, kind)), HasKey(DateOf, s)), AmountOf)
  {
    FilterCommute(ts, HasKey(DateOf, s), HasKey(KindOf, kind));
  }

  /**
    Conservation: the seven incomes (and the seven expenses) add up to the sum
    over the transactions of that type dated in the week.
  */
  lemma WeeklyTotals(ts: seq<Transaction>, today: Date)
    requires Valid(today) && today.year >= 1
    ensures SumBy(WeeklyData(ts, today), BucketIncome)
         == SumBy(Filter(Filter(ts, HasKey(KindOf, Income)), KeyIn(DateOf, WeekStrings(today))), AmountOf)
    ensures SumBy(WeeklyData(ts, today), BucketExpense)
         == SumBy(Filter(Filter(ts, HasKey(KindOf, Expense)), KeyIn(DateOf, WeekStrings(today))), AmountOf)
  {
    var data := WeeklyData(ts, today);
    var strs := WeekStrings(today);
    WeeklyShape(ts, today);
    forall i | 0 <= i < 7
      ensures BucketIncome(data[i]) == SumBy(Filter(Filter(ts, HasKey(KindOf, Income)), HasKey(DateOf, strs[i])), AmountOf)
      ensures BucketExpense(data[i]) == SumBy(Filter(Filter(ts, HasKey(KindOf, Expense)), HasKey(DateOf, strs[i])), AmountOf)
    {
      BucketSumCommutes(ts, strs[i], Income);
      BucketSumCommutes(ts, strs[i], Expense);
    }
    SumOverGroups(data, BucketIncome, Filter(ts, HasKey(KindOf, Income)), DateOf, strs, AmountOf);
    GroupSumsPartition(Filter(ts, HasKey(KindOf, Income)), DateOf, strs, AmountOf);
    SumOverGroups(data, BucketExpense, Filter(ts, HasKey(KindOf, Expense)), DateOf, strs, AmountOf);
    GroupSumsPartition(Filter(ts, HasKey(KindOf, Expense)), DateOf, strs, AmountOf);
  }
}
