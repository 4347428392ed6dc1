/**
  The dashboard's ledger state: the transaction list (newest first), the
  currency symbol and whether the add-transaction modal is open, with the
  operations that replace them and the figures derived from the list.
*/
module Ledger {
  import opened Options
  import opened Numbers
  import opened Seqs
  import opened Sorting
  import opened Types

  /** The ids in use. */
  function Ids(ts: seq<Transaction>): set<string> {
    set t | t in ts :: t.id
  }

  predicate UniqueIds(ts: seq<Transaction>) {
    forall i, j :: 0 <= i < j < |ts| ==> ts[i].id != ts[j].id
  }

  /** The predicate `t => t.id !== id`. */
  function IdDiffers(id: string): Transaction -> bool {
    (t: Transaction) => t.id != id
  }

  /** `prev.filter(t => t.id !== id)`. */
  function Without(ts: seq<Transaction>, id: string): seq<Transaction> {
    Filter(ts, IdDiffers(id))
  }

  /** Deleting keeps exactly the entries with another id, and deletes piecewise. */
  lemma WithoutKeeps(ts: seq<Transaction>, more: seq<Transaction>, id: string)
    ensures forall t :: t in Without(ts, id) <==> t in ts && t.id != id
    ensures id !in Ids(Without(ts, id))
    ensures Without(ts + more, id) == Without(ts, id) + Without(more, id)
  {
    FilterMembers(ts, IdDiffers(id));
    FilterAppend(ts, more, IdDiffers(id));
  }

  /** Deleting keeps each entry with another id as many times as it occurs, and none with that id. */
  lemma {:induction false} WithoutCounts(ts: seq<Transaction>, id: string)
    ensures forall t :: multiset(Without(ts, id))[t] == if t.id == id then 0 else multiset(ts)[t]
  {
    if ts != [] {
      WithoutCounts(ts[1..], id);
      assert ts == [ts[0]] + ts[1..];
      FilterCons(ts[0], ts[1..], IdDiffers(id));
    }
  }

  /** Deleting an id nobody has changes nothing. */
  lemma WithoutAbsent(ts: seq<Transaction>, id: string)
    requires id !in Ids(ts)
    ensures Without(ts, id) == ts
  {
    forall t | t in ts
      ensures IdDiffers(id)(t)
    {
      assert t.id in Ids(ts);
    }
    FilterAll(ts, IdDiffers(id));
  }

  /** Deleting the same id twice is deleting it once. */
  lemma WithoutIdempotent(ts: seq<Transaction>, id: string)
    ensures Without(Without(ts, id), id) == Without(ts, id)
  {
    WithoutKeeps(ts, [], id);
    WithoutAbsent(Without(ts, id), id);
  }

  /** Deleting the id of a transaction just added with a fresh id gives the old list back. */
  lemma AddThenDelete(ts: seq<Transaction>, d: Draft, id: string)
    requires id !in Ids(ts)
    ensures Without([WithId(d, id)] + ts, id) == ts
  {
    FilterCons(WithId(d, id), ts, IdDiffers(id));
    WithoutAbsent(ts, id);
  }

  /** With unique ids, deleting an id in use removes exactly one entry. */
  lemma {:induction false} DeleteOne(ts: seq<Transaction>, id: string)
    requires UniqueIds(ts) && id in Ids(ts)
    ensures |Without(ts, id)| == |ts| - 1
  {
    assert ts == [ts[0]] + ts[1..];
    FilterCons(ts[0], ts[1..], IdDiffers(id));
    if ts[0].id == id {
      forall t | t in ts[1..]
        ensures t.id != id
      {
        var k :| 0 <= k < |ts[1..]| && ts[1..][k] == t;
        assert ts[k + 1] == t;
      }
      assert id !in Ids(ts[1..]);
      WithoutAbsent(ts[1..], id);
    } else {
      var t :| t in ts && t.id == id;
      assert t in ts[1..];
      DeleteOne(ts[1..], id);
    }
  }

  /** Adding with a fresh id and deleting keep the ids unique. */
  lemma UniqueIdsKept(ts: seq<Transaction>, d: Draft, id: string)
    requires UniqueIds(ts)
    ensures id !in Ids(ts) ==> UniqueIds([WithId(d, id)] + ts)
    ensures UniqueIds(Without(ts, id))
  {
    if id !in Ids(ts) {
      var r := [WithId(d, id)] + ts;
      forall i, j | 0 <= i < j < |r|
        ensures r[i].id != r[j].id
      {
        if i == 0 {
          assert r[j] == ts[j - 1];
          assert r[j].id in Ids(ts);
        }
      }
    }
    WithoutUnique(ts, id);
  }

  lemma {:induction false} WithoutUnique(ts: seq<Transaction>, id: string)
    requires UniqueIds(ts)
    ensures UniqueIds(Without(ts, id))
  {
    if ts != [] {
      var rest := Without(ts[1..], id);
      WithoutUnique(ts[1..], id);
      FilterCons(ts[0], ts[1..], IdDiffers(id));
      assert ts == [ts[0]] + ts[1..];
      FilterMembers(ts[1..], IdDiffers(id));
      forall t | t in rest
        ensures t.id != ts[0].id
      {
        var k :| 0 <= k < |ts[1..]| && ts[1..][k] == t;
        assert ts[k + 1] == t;
      }
      if IdDiffers(id)(ts[0]) {
        UniqueCons(ts[0], rest);
      }
    }
  }

  /** An entry whose id no other entry has may go in front of a list with unique ids. */
  lemma UniqueCons(t: Transaction, rest: seq<Transaction>)
    requires UniqueIds(rest)
    requires forall u :: u in rest ==> u.id != t.id
    ensures UniqueIds([t] + rest)
  {
    var r := [t] + rest;
    forall i, j | 0 <= i < j < |r|
      ensures r[i].id != r[j].id
    {
      assert r[j] == rest[j - 1];
      if i == 0 {
        assert r[j] in rest;
      } else {
        assert r[i] == rest[i - 1];
      }
    }
  }

  /** The three dashboard figures. */
  datatype Totals = Totals(income: JsNumber, expense: JsNumber, balance: JsNumber)

  /** `ts.filter(t => t.type === kind).reduce((acc, t) => acc + t.amount, 0)`. */
  function KindSum(ts: seq<Transaction>, kind: TxType): JsNumber {
    SumBy(Filter(ts, HasKey(KindOf, kind)), AmountOf)
  }

  /** `{ income, expense, balance: income - expense }`, with no opening balance. */
  function TotalsOf(ts: seq<Transaction>): Totals {
    var income := KindSum(ts, Income);
    var expense := KindSum(ts, Expense);
    Totals(income, expense, Minus(income, expense))
  }

  /** The totals of two lists put together are the sums of their totals. */
  lemma TotalsAppend(a: seq<Transaction>, b: seq<Transaction>)
    ensures TotalsOf(a + b).income == Plus(TotalsOf(a).income, TotalsOf(b).income)
    ensures TotalsOf(a + b).expense == Plus(TotalsOf(a).expense, TotalsOf(b).expense)
  {
    FilterAppend(a, b, HasKey(KindOf, Income));
    FilterAppend(a, b, HasKey(KindOf, Expense));
    SumByAppend(Filter(a, HasKey(KindOf, Income)), Filter(b, HasKey(KindOf, Income)), AmountOf);
    SumByAppend(Filter(a, HasKey(KindOf, Expense)), Filter(b, HasKey(KindOf, Expense)), AmountOf);
  }

  /**
    Every transaction is counted exactly once: income plus expense is the sum
    of all amounts, and the balance is a number exactly when every amount is.
  */
  lemma TotalsCoverAll(ts: seq<Transaction>)
    ensures Plus(TotalsOf(ts).income, TotalsOf(ts).expense) == SumBy(ts, AmountOf)
    ensures TotalsOf(ts).balance.Finite? <==> forall t :: t in ts ==> t.amount.Finite?
  {
    var ks := [Income, Expense];
    GroupSumsPartition(ts, KindOf, ks, AmountOf);
    GroupSumsPair(ts, KindOf, Income, Expense, AmountOf);
    KindsCoverAll(ts);
    SumByFinite(ts, AmountOf);
  }

  lemma GroupSumsPair<T, K>(s: seq<T>, key: T -> K, a: K, b: K, w: T -> JsNumber)
    ensures GroupSums(s, key, [a, b], w)
         == Plus(SumBy(Filter(s, HasKey(key, a)), w), SumBy(Filter(s, HasKey(key, b)), w))
  {
    var sa := SumBy(Filter(s, HasKey(key, a)), w);
    var one, two := [a], [a, b];
    assert two[..|two| - 1] == one && two[|two| - 1] == b;
    assert one[..|one| - 1] == [] && one[|one| - 1] == a;
    assert GroupSums(s, key, one, w) == Plus(Finite(0), sa);
    assert Plus(Finite(0), sa) == sa;
  }

  lemma KindsCoverAll(ts: seq<Transaction>)
    ensures Filter(ts, KeyIn(KindOf, [Income, Expense])) == ts
  {
    forall t | t in ts
      ensures KeyIn(KindOf, [Income, Expense])(t)
    {
      KeyInApply(KindOf, [Income, Expense], t);
      assert KindOf(t) == Income || KindOf(t) == Expense;
    }
    FilterAll(ts, KeyIn(KindOf, [Income, Expense]));
  }

  /** `prev === '$' ? '₹' : '$'`. */
  function Toggled(c: string): string {
    if c == "$" then "₹" else "$"
  }

  /** Toggling always changes the symbol, lands on one of the two, and twice returns to either of them. */
  lemma ToggledTwice(c: string)
    ensures Toggled(c) != c
    ensures Toggled(c) == "$" || Toggled(c) == "₹"
    ensures c == "$" || c == "₹" ==> Toggled(Toggled(c)) == c
  {
  }

  /** `localStorage.getItem(key) || '$'`: a missing or empty saved symbol gives `'$'`. */
  function StoredCurrency(saved: Option<string>): (c: string)
    ensures c != ""
    ensures saved.Some? && saved.value != "" ==> c == saved.value
  {
    if saved.Some? && saved.value != "" then saved.value else "$"
  }

  /** `transactions.slice(0, 5)`: the five most recently added. */
  function RecentOf(ts: seq<Transaction>): seq<Transaction> {
    Take(ts, 5)
  }

  /** The recent list is the first `min(5, n)` entries; an added transaction heads it. */
  lemma RecentShape(ts: seq<Transaction>, t: Transaction)
    ensures RecentOf(ts) == ts[..if |ts| < 5 then |ts| else 5]
    ensures RecentOf([t] + ts) == [t] + Take(ts, 4)
  {
    var r := RecentOf([t] + ts);
    assert r[0] == t;
    assert r[1..] == Take(ts, 4);
  }

  class App {
    var transactions: seq<Transaction>
    var currency: string
    var isAddModalOpen: bool

    /** The first render: no transactions, `'$'`, modal closed. */
    constructor()
      ensures transactions == [] && currency == "$" && !isAddModalOpen
    {
      transactions := [];
      currency := "$";
      isAddModalOpen := false;
    }

    /** The mount effect: the saved list and the saved symbol (or `'$'`). */
    method Load(saved: seq<Transaction>, savedCurrency: Option<string>)
      modifies this
      ensures transactions == saved && currency == StoredCurrency(savedCurrency)
      ensures isAddModalOpen == old(isAddModalOpen)
    {
      transactions := saved;
      currency := StoredCurrency(savedCurrency);
    }

    method ToggleCurrency()
      modifies this
      ensures currency == Toggled(old(currency))
      ensures transactions == old(transactions) && isAddModalOpen == old(isAddModalOpen)
    {
      currency := Toggled(currency);
    }

    method OpenAddModal()
      modifies this
      ensures isAddModalOpen
      ensures transactions == old(transactions) && currency == old(currency)
    {
      isAddModalOpen := true;
    }

    method CloseAddModal()
      modifies this
      ensures !isAddModalOpen
      ensures transactions == old(transactions) && currency == old(currency)
    {
      isAddModalOpen := false;
    }

    /**
      `addTransaction`: the submitted fields plus a fresh id go to the front of
      the list, and the modal closes.
    */
    method AddTransaction(draft: Draft, id: string)
      modifies this
      ensures transactions == [WithId(draft, id)] + old(transactions)
      ensures !isAddModalOpen && currency == old(currency)
      ensures old(UniqueIds(transactions)) && id !in Ids(old(transactions)) ==> UniqueIds(transactions)
    {
      if UniqueIds(transactions) {
        UniqueIdsKept(transactions, draft, id);
      }
      transactions := [WithId(draft, id)] + transactions;
      isAddModalOpen := false;
    }

    /** `deleteTransaction`: every entry with that id goes. */
    method DeleteTransaction(id: string)
      modifies this
      ensures transactions == Without(old(transactions), id)
      ensures id !in Ids(transactions)
      ensures old(UniqueIds(transactions)) ==> UniqueIds(transactions)
      ensures currency == old(currency) && isAddModalOpen == old(isAddModalOpen)
    {
      WithoutKeeps(transactions, [], id);
      if UniqueIds(transactions) {
        WithoutUnique(transactions, id);
      }
      transactions := Without(transactions, id);
    }
  }
}
