/**
  Grouping transactions by category the way a JavaScript object used as a
  dictionary does it: `Object.values` / `Object.entries` list non-numeric keys
  in the order they were first inserted, so the groups come out in order of
  each category's first appearance.
*/
module Grouping {
  import opened Seqs
  import opened Types

  /** `transactions.filter(t => t.type === 'expense')`. */
  function Expenses(ts: seq<Transaction>): seq<Transaction> {
    Filter(ts, HasKey(KindOf, Expense))
  }

  /** The transactions of category `c`, in list order. */
  function Group(ts: seq<Transaction>, c: Category): seq<Transaction> {
    Filter(ts, HasKey(CategoryOf, c))
  }

  /** The categories of `ts`, each once, in order of first appearance. */
  function CategoriesInOrder(ts: seq<Transaction>): seq<Category> {
    if ts == [] then []
    else
      var prev := CategoriesInOrder(ts[..|ts| - 1]);
      var c := ts[|ts| - 1].category;
      if c in prev then prev else prev + [c]
  }

  /** Each category of `ts` is listed exactly once, and nothing else is. */
  lemma CategoriesMembers(ts: seq<Transaction>)
    ensures Distinct(CategoriesInOrder(ts))
    ensures forall i :: 0 <= i < |ts| ==> ts[i].category in CategoriesInOrder(ts)
    ensures forall j :: 0 <= j < |CategoriesInOrder(ts)| ==>
              exists i :: 0 <= i < |ts| && ts[i].category == CategoriesInOrder(ts)[j]
  {
    CategoriesDistinct(ts);
    CategoriesListed(ts);
    CategoriesOccur(ts);
  }

  lemma {:induction false} CategoriesDistinct(ts: seq<Transaction>)
    ensures Distinct(CategoriesInOrder(ts))
  {
    if ts != [] {
      var prev := CategoriesInOrder(ts[..|ts| - 1]);
      var c := ts[|ts| - 1].category;
      CategoriesDistinct(ts[..|ts| - 1]);
      if c !in prev {
        var cs := prev + [c];
        forall i, j | 0 <= i < j < |cs|
          ensures cs[i] != cs[j]
        {
          if j == |prev| {
            assert cs[i] == prev[i];
          } else {
            assert cs[i] == prev[i] && cs[j] == prev[j];
          }
        }
      }
    }
  }

  lemma {:induction false} CategoriesListed(ts: seq<Transaction>)
    ensures forall i :: 0 <= i < |ts| ==> ts[i].category in CategoriesInOrder(ts)
  {
    if ts != [] {
      var init := ts[..|ts| - 1];
      var prev := CategoriesInOrder(init);
      CategoriesListed(init);
      assert prev <= CategoriesInOrder(ts);
      forall i | 0 <= i < |ts|
        ensures ts[i].category in CategoriesInOrder(ts)
      {
        if i < |init| {
          assert ts[i] == init[i];
          assert ts[i].category in prev;
        }
      }
    }
  }

  lemma {:induction false} CategoriesOccur(ts: seq<Transaction>)
    ensures forall j :: 0 <= j < |CategoriesInOrder(ts)| ==>
              exists i :: 0 <= i < |ts| && ts[i].category == CategoriesInOrder(ts)[j]
  {
    if ts != [] {
      var init := ts[..|ts| - 1];
      var prev := CategoriesInOrder(init);
      var c := ts[|ts| - 1].category;
      var cs := CategoriesInOrder(ts);
      assert cs == if c in prev then prev else prev + [c];
      CategoriesOccur(init);
      forall j | 0 <= j < |cs|
        ensures exists i :: 0 <= i < |ts| && ts[i].category == cs[j]
      {
        if j < |prev| {
          assert cs[j] == prev[j];
          var i :| 0 <= i < |init| && init[i].category == prev[j];
          assert ts[i] == init[i];
          assert 0 <= i < |ts| && ts[i].category == cs[j];
        } else {
          assert cs[j] == c;
          assert 0 <= |ts| - 1 < |ts| && ts[|ts| - 1].category == cs[j];
        }
      }
    } else {
      assert CategoriesInOrder(ts) == [];
    }
  }

  /**
    First-appearance order: the categories of any prefix of the list are a
    prefix of the categories of the whole list.
  */
  lemma {:induction false} CategoriesPrefix(ts: seq<Transaction>, n: nat)
    requires n <= |ts|
    ensures CategoriesInOrder(ts[..n]) <= CategoriesInOrder(ts)
    decreases |ts| - n
  {
    if n < |ts| {
      CategoriesPrefix(ts, n + 1);
      var longer := ts[..n + 1];
      assert longer[..|longer| - 1] == ts[..n];
    } else {
      assert ts[..n] == ts;
    }
  }

  /** A category with no transaction in the list has an empty group. */
  lemma GroupAbsent(ts: seq<Transaction>, c: Category)
    requires c !in CategoriesInOrder(ts)
    ensures Group(ts, c) == []
  {
    CategoriesMembers(ts);
    forall t | t in ts
      ensures !HasKey(CategoryOf, c)(t)
    {
      HasKeyApply(CategoryOf, c, t);
    }
    FilterNone(ts, HasKey(CategoryOf, c));
  }

  /** Every element lies in the group of a listed category. */
  lemma CategoriesCover(ts: seq<Transaction>)
    ensures Filter(ts, KeyIn(CategoryOf, CategoriesInOrder(ts))) == ts
  {
    var cs := CategoriesInOrder(ts);
    CategoriesMembers(ts);
    forall t | t in ts
      ensures KeyIn(CategoryOf, cs)(t)
    {
      KeyInApply(CategoryOf, cs, t);
    }
    FilterAll(ts, KeyIn(CategoryOf, cs));
  }

  /** A category is listed for the expenses exactly when some expense has it. */
  lemma ExpenseCategory(ts: seq<Transaction>, c: Category)
    ensures c in CategoriesInOrder(Expenses(ts)) <==> exists t :: t in ts && t.kind == Expense && t.category == c
  {
    var exp := Expenses(ts);
    CategoriesMembers(exp);
    ExpenseMembers(ts);
    if c in CategoriesInOrder(exp) {
      var j :| 0 <= j < |CategoriesInOrder(exp)| && CategoriesInOrder(exp)[j] == c;
      var i :| 0 <= i < |exp| && exp[i].category == c;
      assert exp[i] in exp;
    }
    if t :| t in ts && t.kind == Expense && t.category == c {
      assert t in exp;
      var i :| 0 <= i < |exp| && exp[i] == t;
    }
  }

  /** The expenses are exactly the members of `ts` of type expense. */
  lemma ExpenseMembers(ts: seq<Transaction>)
    ensures forall t :: t in Expenses(ts) <==> t in ts && t.kind == Expense
  {
    FilterMembers(ts, HasKey(KindOf, Expense));
    forall t | t in ts
      ensures HasKey(KindOf, Expense)(t) == (t.kind == Expense)
    {
      HasKeyApply(KindOf, Expense, t);
    }
  }
}
