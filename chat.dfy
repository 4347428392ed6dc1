/**
  The assistant panel: the financial summary its chat session is primed with
  (a balance that includes an opening offset, the per-category expense
  totals, the five largest of them and the ten newest transactions) and the
  message log that sending a question appends to.
*/
module Chat {
  import opened Options
  import opened Numbers
  import opened Seqs
  import opened Sorting
  import opened Types
  import opened Grouping
  import opened Calendar
  import opened Text
  import opened Ledger

  // ---------------------------------------------------------- category totals

  /**
    `acc[c] = (acc[c] || 0) + Number(t.amount)` folded over one category's
    expenses, starting from the missing key, which `|| 0` reads as 0. A NaN
    total is falsy too, so the amount after it starts the total afresh.
  */
  function RunningTotal(g: seq<Transaction>): JsNumber {
    if g == [] then Finite(0)
    else Plus(OrZero(RunningTotal(g[..|g| - 1])), g[|g| - 1].amount)
  }

  /** With every amount a number, the running total is the plain sum of the amounts. */
  lemma {:induction false} RunningTotalFinite(g: seq<Transaction>)
    requires AllFinite(g, AmountOf)
    ensures RunningTotal(g) == SumBy(g, AmountOf)
    ensures RunningTotal(g).Finite?
  {
    if g != [] {
      var init := g[..|g| - 1];
      assert AllFinite(init, AmountOf) by {
        forall i | 0 <= i < |init|
          ensures AmountOf(init[i]).Finite?
        {
          assert init[i] == g[i];
        }
      }
      RunningTotalFinite(init);
      assert AmountOf(g[|g| - 1]).Finite?;
    }
  }

  /**
    A NaN amount wipes out the total before it: the total is NaN when the last
    amount is NaN, and otherwise it is the sum of the amounts after the last
    NaN one alone.
  */
  lemma {:induction false} RunningTotalAfterNaN(g: seq<Transaction>, k: nat)
    requires k < |g| && g[k].amount.NaN?
    requires forall j :: k < j < |g| ==> g[j].amount.Finite?
    ensures k == |g| - 1 ==> RunningTotal(g).NaN?
    ensures k < |g| - 1 ==> RunningTotal(g) == SumBy(g[k + 1..], AmountOf)
  {
    if k < |g| - 1 {
      var init := g[..|g| - 1];
      var last := g[|g| - 1];
      assert g[k + 1..] == init[k + 1..] + [last];
      SumBySnoc(init[k + 1..], last, AmountOf);
      if k == |init| - 1 {
        assert init[k + 1..] == [];
      } else {
        RunningTotalAfterNaN(init, k);
        var tail := init[k + 1..];
        assert AllFinite(tail, AmountOf) by {
          forall i | 0 <= i < |tail|
            ensures AmountOf(tail[i]).Finite?
          {
            assert tail[i] == g[k + 1 + i];
          }
        }
        RunningTotalFinite(tail);
      }
    }
  }

  /** The dictionary after reading `exp`: its keys in insertion order and its totals. */
  predicate TallyHolds(exp: seq<Transaction>, order: seq<Category>, acc: map<Category, JsNumber>) {
    && order == CategoriesInOrder(exp)
    && (forall c :: c in acc <==> c in order)
    && (forall c :: c in acc ==> acc[c] == RunningTotal(Group(exp, c)))
  }

  lemma TotalStep(exp: seq<Transaction>, i: nat, c: Category)
    requires i < |exp|
    ensures RunningTotal(Group(exp[..i + 1], c))
         == if exp[i].category == c
            then Plus(OrZero(RunningTotal(Group(exp[..i], c))), exp[i].amount)
            else RunningTotal(Group(exp[..i], c))
  {
    var g := Group(exp[..i], c);
    FilterSnoc(exp, i, HasKey(CategoryOf, c));
    HasKeyApply(CategoryOf, c, exp[i]);
    if exp[i].category == c {
      var g' := g + [exp[i]];
      assert g'[..|g'| - 1] == g;
    } else {
      assert g + [] == g;
    }
  }

  /** One `reduce` step: a category seen for the first time starts from `undefined || 0`. */
  lemma TallyStep(exp: seq<Transaction>, i: nat, order: seq<Category>, acc: map<Category, JsNumber>,
                  prev: JsNumber, order': seq<Category>, acc': map<Category, JsNumber>)
    requires i < |exp| && TallyHolds(exp[..i], order, acc)
    requires order' == if exp[i].category in acc then order else order + [exp[i].category]
    requires prev == if exp[i].category in acc then OrZero(acc[exp[i].category]) else Finite(0)
    requires acc' == acc[exp[i].category := Plus(prev, exp[i].amount)]
    ensures TallyHolds(exp[..i + 1], order', acc')
  {
    var c := exp[i].category;
    var pre, next := exp[..i], exp[..i + 1];
    assert next[..|next| - 1] == pre && next[|next| - 1] == exp[i];
    assert CategoriesInOrder(next) == order';
    if c !in acc {
      GroupAbsent(pre, c);
    }
    TallyEntries(exp, i, acc, prev, acc');
  }

  lemma TallyEntries(exp: seq<Transaction>, i: nat, acc: map<Category, JsNumber>,
                     prev: JsNumber, acc': map<Category, JsNumber>)
    requires i < |exp|
    requires forall d :: d in acc ==> acc[d] == RunningTotal(Group(exp[..i], d))
    requires prev == OrZero(RunningTotal(Group(exp[..i], exp[i].category)))
    requires acc' == acc[exp[i].category := Plus(prev, exp[i].amount)]
    ensures forall d :: d in acc' ==> acc'[d] == RunningTotal(Group(exp[..i + 1], d))
  {
    forall d | d in acc'
      ensures acc'[d] == RunningTotal(Group(exp[..i + 1], d))
    {
      TotalStep(exp, i, d);
    }
  }

  /** The `reduce` into the `categoryTotals` dictionary over the expense list. */
  method Tally(exp: seq<Transaction>) returns (order: seq<Category>, acc: map<Category, JsNumber>)
    ensures TallyHolds(exp, order, acc)
  {
    order, acc := [], map[];
    var i := 0;
    assert exp[..0] == [];
    while i < |exp|
      invariant 0 <= i <= |exp|
      invariant TallyHolds(exp[..i], order, acc)
    {
      var c := exp[i].category;
      var prev := if c in acc then OrZero(acc[c]) else Finite(0);
      ghost var order0, acc0 := order, acc;
      if c !in acc {
        order := order + [c];
      }
      acc := acc[c := Plus(prev, exp[i].amount)];
      TallyStep(exp, i, order0, acc0, prev, order, acc);
      i := i + 1;
    }
    assert exp[..i] == exp;
  }

  /** `Object.entries(categoryTotals)`: each expense category once, in order of first appearance, with its total. */
  function CategoryTotals(ts: seq<Transaction>): seq<(Category, JsNumber)> {
    var exp := Expenses(ts);
    var cs := CategoriesInOrder(exp);
    seq(|cs|, k requires 0 <= k < |cs| => (cs[k], RunningTotal(Group(exp, cs[k]))))
  }

  /** The expense filter, the `reduce` and `Object.entries`, as the effect runs them. */
  method CategoryTotalsOf(ts: seq<Transaction>) returns (entries: seq<(Category, JsNumber)>)
    ensures entries == CategoryTotals(ts)
  {
    var exp := Expenses(ts);
    var order, acc := Tally(exp);
    entries := seq(|order|, k requires 0 <= k < |order| => (order[k], acc[order[k]]));
  }

  /**
    The breakdown lists each category with at least one expense exactly once
    and no other; a category's total ignores income and is the sum of its
    expense amounts whenever they are all numbers.
  */
  lemma CategoryTotalsShape(ts: seq<Transaction>, c: Category)
    ensures forall j, k :: 0 <= j < k < |CategoryTotals(ts)| ==> CategoryTotals(ts)[j].0 != CategoryTotals(ts)[k].0
    ensures (exists k :: 0 <= k < |CategoryTotals(ts)| && CategoryTotals(ts)[k].0 == c)
        <==> (exists t :: t in ts && t.kind == Expense && t.category == c)
    ensures forall k :: 0 <= k < |CategoryTotals(ts)| && CategoryTotals(ts)[k].0 == c ==>
              CategoryTotals(ts)[k].1 == RunningTotal(Group(Expenses(ts), c))
    ensures AllFinite(Group(Expenses(ts), c), AmountOf) ==>
              forall k :: 0 <= k < |CategoryTotals(ts)| && CategoryTotals(ts)[k].0 == c ==>
                CategoryTotals(ts)[k].1 == SumBy(Group(Expenses(ts), c), AmountOf)
  {
    var exp := Expenses(ts);
    var cs := CategoriesInOrder(exp);
    var entries := CategoryTotals(ts);
    assert forall k :: 0 <= k < |entries| ==> entries[k].0 == cs[k];
    CategoriesMembers(exp);
    assert (exists k :: 0 <= k < |entries| && entries[k].0 == c) <==> c in cs;
    ExpenseCategory(ts, c);
    if AllFinite(Group(exp, c), AmountOf) {
      RunningTotalFinite(Group(exp, c));
    }
  }

  function EntryTotal(e: (Category, JsNumber)): JsNumber { e.1 }

  /** `.sort(([, a], [, b]) => b - a).slice(0, 5)` over the breakdown. */
  function TopCategories(entries: seq<(Category, JsNumber)>): seq<(Category, JsNumber)> {
    Take(SortDesc(entries, EntryTotal), 5)
  }

  /**
    The top categories: five entries of the breakdown (all of them when there
    are at most five); when every total is a number, the largest ones (no
    entry left out has a larger total than one kept), largest total first;
    equal totals in breakdown order.
  */
  lemma TopCategoriesShape(entries: seq<(Category, JsNumber)>)
    ensures |TopCategories(entries)| == if |entries| < 5 then |entries| else 5
    ensures multiset(TopCategories(entries)) <= multiset(entries)
    ensures AllFinite(entries, EntryTotal) ==> NoneLeftAbove(TopCategories(entries), entries, EntryTotal)
    ensures AllFinite(entries, EntryTotal) ==> Descending(TopCategories(entries), EntryTotal)
    ensures forall v :: Filter(TopCategories(entries), HasKey(EntryTotal, v)) <= Filter(entries, HasKey(EntryTotal, v))
  {
    TopOfSorted(entries, EntryTotal, 5);
  }

  // ------------------------------------------------------ recent transactions

  const MsPerDay: int := 86400000

  /**
    `new Date(t.date).getTime()` for a `YYYY-MM-DD` string: midnight UTC of
    that day in milliseconds since 1970-01-01; NaN when the string is not a
    real date of that form.
  */
  function DateKey(t: Transaction): JsNumber {
    match ParseIso(t.date)
    case Some(d) => Finite((DayNumber(d) - DayNumber(Date(1970, 1, 1))) * MsPerDay)
    case None => NaN
  }

  /** Comparing time values is comparing the days: one is greater exactly when its date is later. */
  lemma DateKeyOrder(a: Transaction, b: Transaction, da: Date, db: Date)
    requires ParseIso(a.date) == Some(da) && ParseIso(b.date) == Some(db)
    ensures Greater(DateKey(a), DateKey(b)) <==> DayNumber(da) > DayNumber(db)
    ensures DateKey(a) == DateKey(b) <==> da == db
  {
    var e := DayNumber(Date(1970, 1, 1));
    assert DateKey(a).minor - DateKey(b).minor == (DayNumber(da) - DayNumber(db)) * MsPerDay;
    if DayNumber(da) == DayNumber(db) {
      DayNumberInjective(da, db);
    }
  }

  /** `transactions.sort(newest first).slice(0, 10)`, on the list as a value. */
  function NewestTen(ts: seq<Transaction>): seq<Transaction> {
    Take(SortDesc(ts, DateKey), 10)
  }

  /**
    The recent list: ten transactions of the list (all of them when there are
    at most ten); when every date is a real `YYYY-MM-DD` date, the newest ones
    (no transaction left out is dated later than one kept), and no entry is
    dated later than one before it; transactions of the same day keep their
    list order.
  */
  lemma NewestTenShape(ts: seq<Transaction>)
    ensures |NewestTen(ts)| == if |ts| < 10 then |ts| else 10
    ensures multiset(NewestTen(ts)) <= multiset(ts)
    ensures (forall t :: t in ts ==> ParseIso(t.date).Some?) ==> NoneLeftNewer(NewestTen(ts), ts)
    ensures (forall t :: t in ts ==> ParseIso(t.date).Some?) ==> DatesDescending(NewestTen(ts))
    ensures forall v :: Filter(NewestTen(ts), HasKey(DateKey, v)) <= Filter(ts, HasKey(DateKey, v))
  {
    TopOfSorted(ts, DateKey, 10);
    if forall t :: t in ts ==> ParseIso(t.date).Some? {
      assert AllFinite(ts, DateKey) by {
        forall i | 0 <= i < |ts|
          ensures DateKey(ts[i]).Finite?
        {
          assert ts[i] in ts;
        }
      }
      AllFiniteSub(NewestTen(ts), ts, DateKey);
      SortedDates(NewestTen(ts));
      LeftOutDates(NewestTen(ts), ts);
    }
  }

  /** No transaction of `s` left out of `top` is dated later than one kept in it. */
  predicate NoneLeftNewer(top: seq<Transaction>, s: seq<Transaction>) {
    forall x, y :: x in multiset(s) - multiset(top) && y in top ==>
      ParseIso(x.date).Some? && ParseIso(y.date).Some?
      && DayNumber(ParseIso(x.date).value) <= DayNumber(ParseIso(y.date).value)
  }

  /** Cutting by time value is cutting by date. */
  lemma LeftOutDates(top: seq<Transaction>, s: seq<Transaction>)
    requires multiset(top) <= multiset(s)
    requires forall t :: t in s ==> ParseIso(t.date).Some?
    requires NoneLeftAbove(top, s, DateKey)
    ensures NoneLeftNewer(top, s)
  {
    forall x, y | x in multiset(s) - multiset(top) && y in top
      ensures ParseIso(x.date).Some? && ParseIso(y.date).Some?
      ensures DayNumber(ParseIso(x.date).value) <= DayNumber(ParseIso(y.date).value)
    {
      assert x in multiset(s);
      assert y in multiset(top);
      DateKeyOrder(x, y, ParseIso(x.date).value, ParseIso(y.date).value);
    }
  }

  /** Every date is a real date, and none is later than one before it. */
  predicate DatesDescending(s: seq<Transaction>) {
    forall i, j :: 0 <= i < j < |s| ==>
      ParseIso(s[i].date).Some? && ParseIso(s[j].date).Some?
      && DayNumber(ParseIso(s[i].date).value) >= DayNumber(ParseIso(s[j].date).value)
  }

  lemma SortedDates(s: seq<Transaction>)
    requires AllFinite(s, DateKey) && Descending(s, DateKey)
    ensures DatesDescending(s)
  {
    forall i, j | 0 <= i < j < |s|
      ensures ParseIso(s[i].date).Some? && ParseIso(s[j].date).Some?
      ensures DayNumber(ParseIso(s[i].date).value) >= DayNumber(ParseIso(s[j].date).value)
    {
      assert DateKey(s[i]).Finite? && DateKey(s[j]).Finite?;
      DateKeyOrder(s[j], s[i], ParseIso(s[j].date).value, ParseIso(s[i].date).value);
    }
  }

  // ------------------------------------------------------------ the summary

  /** What the chat session is created with (the summary's figures, before they are turned into text). */
  datatype ChatContext = ChatContext(
    currency: string,
    balance: JsNumber,
    income: JsNumber,
    expense: JsNumber,
    topCategories: seq<(Category, JsNumber)>,
    recent: seq<Transaction>)

  /** The summary of `ts` with opening balance `initialBalance`. */
  function ContextOf(ts: seq<Transaction>, initialBalance: JsNumber, currency: string): ChatContext {
    var income := KindSum(ts, Income);
    var expense := KindSum(ts, Expense);
    ChatContext(currency, Minus(Plus(initialBalance, income), expense), income, expense,
                TopCategories(CategoryTotals(ts)), NewestTen(ts))
  }

  /**
    The summary's income and expense are the dashboard's; its balance is the
    dashboard's balance moved by the opening balance, the same with an opening
    balance of 0, and a number exactly when the opening balance and every
    amount are.
  */
  lemma ContextFigures(ts: seq<Transaction>, initialBalance: JsNumber, currency: string)
    ensures ContextOf(ts, initialBalance, currency).income == TotalsOf(ts).income
    ensures ContextOf(ts, initialBalance, currency).expense == TotalsOf(ts).expense
    ensures ContextOf(ts, initialBalance, currency).balance == Plus(initialBalance, TotalsOf(ts).balance)
    ensures initialBalance == Finite(0) ==> ContextOf(ts, initialBalance, currency).balance == TotalsOf(ts).balance
    ensures ContextOf(ts, initialBalance, currency).balance.Finite?
        <==> initialBalance.Finite? && forall t :: t in ts ==> t.amount.Finite?
  {
    TotalsCoverAll(ts);
  }

  // -------------------------------------------------------------- the log

  datatype Role = User | Model

  datatype Message = Message(role: Role, text: string)

  const Greeting: Message :=
    Message(Model, "Hi! I can help you analyze your spending or answer questions about your budget. What would you like to know?")

  const FallbackText: string := "I didn't catch that, could you rephrase?"

  const NetworkErrorText: string := "Sorry, I'm having trouble connecting to the network right now."

  /** How `sendMessage` ended: a response whose `text` may be missing or empty, or a thrown error. */
  datatype Reply = Answered(text: Option<string>) | Failed

  /** The model message posted for a reply: never empty, and the reply's own text whenever it has one. */
  function ReplyText(reply: Reply): (r: string)
    ensures r != []
    ensures reply.Answered? && reply.text.Some? && reply.text.value != [] ==> r == reply.text.value
    ensures reply.Failed? ==> r == NetworkErrorText
  {
    match reply
    case Answered(text) => if text.Some? && text.value != [] then text.value else FallbackText
    case Failed => NetworkErrorText
  }

  /**
    The log's shape: the greeting first, then user and model messages
    alternating, a user message last exactly while a reply is awaited, no
    empty message, and user messages already trimmed.
  */
  predicate LogShape(messages: seq<Message>, awaiting: bool) {
    && |messages| >= 1 && messages[0] == Greeting
    && (forall i :: 0 < i < |messages| ==> (messages[i].role == User <==> i % 2 == 1))
    && (awaiting <==> |messages| % 2 == 0)
    && (forall i :: 0 <= i < |messages| ==> messages[i].text != [])
    && (forall i :: 0 <= i < |messages| && messages[i].role == User ==> Trimmed(messages[i].text))
  }

  /** A trimmed, non-empty question may join a log that awaits nothing; then a reply is awaited. */
  lemma LogAppendUser(messages: seq<Message>, text: string)
    requires LogShape(messages, false)
    requires text != [] && Trimmed(text)
    ensures LogShape(messages + [Message(User, text)], true)
  {
    var ms := messages + [Message(User, text)];
    var n := |messages|;
    assert ms[n] == Message(User, text);
    assert forall i :: 0 <= i < n ==> ms[i] == messages[i];
    forall i | 0 <= i < |ms| && ms[i].role == User
      ensures Trimmed(ms[i].text)
    {
      if i < n {
        assert ms[i] == messages[i];
      }
    }
  }

  /** A non-empty answer may join a log that awaits it; then nothing is awaited. */
  lemma LogAppendModel(messages: seq<Message>, text: string)
    requires LogShape(messages, true)
    requires text != []
    ensures LogShape(messages + [Message(Model, text)], false)
  {
    var ms := messages + [Message(Model, text)];
    forall i | 0 <= i < |ms|
      ensures ms[i] == if i < |messages| then messages[i] else Message(Model, text)
    {
    }
  }

  class ChatBot {
    var isOpen: bool
    var messages: seq<Message>
    var input: string
    var isLoading: bool
    var session: Option<ChatContext>

    /** The log keeps its shape, and the input box stays empty while a reply is awaited. */
    ghost predicate Valid()
      reads this
    {
      LogShape(messages, isLoading) && (isLoading ==> input == [])
    }

    /** Closed, the greeting alone in the log, empty input, no session yet. */
    constructor()
      ensures Valid()
      ensures !isOpen && messages == [Greeting] && input == [] && !isLoading && session == None
    {
      isOpen := false;
      messages := [Greeting];
      input := [];
      isLoading := false;
      session := None;
    }

    /** The floating button: `setIsOpen(!isOpen)`. */
    method Toggle()
      requires Valid()
      modifies this
      ensures Valid()
      ensures isOpen == !old(isOpen)
      ensures messages == old(messages) && input == old(input) && isLoading == old(isLoading) && session == old(session)
    {
      isOpen := !isOpen;
    }

    /** Typing into the input box, which is disabled while a reply is awaited. */
    method SetInput(text: string)
      requires Valid() && !isLoading
      modifies this
      ensures Valid()
      ensures input == text
      ensures isOpen == old(isOpen) && messages == old(messages) && isLoading == old(isLoading) && session == old(session)
    {
      input := text;
    }

    /**
      The session effect: while the panel is open it computes the summary of
      the list it is given (sorting that very array newest first, in place)
      and starts a session with it; while closed it does nothing.
    */
    method Refresh(txs: array<Transaction>, initialBalance: JsNumber, currency: string)
      requires Valid()
      modifies this, txs
      ensures Valid()
      ensures old(isOpen) ==> txs[..] == SortDesc(old(txs[..]), DateKey)
                              && session == Some(ContextOf(old(txs[..]), initialBalance, currency))
      ensures !old(isOpen) ==> txs[..] == old(txs[..]) && session == old(session)
      ensures isOpen == old(isOpen) && messages == old(messages) && input == old(input) && isLoading == old(isLoading)
    {
      if !isOpen {
        return;
      }
      var ts := txs[..];
      var income := KindSum(ts, Income);
      var expense := KindSum(ts, Expense);
      var balance := Minus(Plus(initialBalance, income), expense);
      var entries := CategoryTotalsOf(ts);
      var top := TopCategories(entries);
      SortDescInPlace(txs, DateKey);
      var recent := Take(txs[..], 10);
      session := Some(ChatContext(currency, balance, income, expense, top, recent));
    }

    /**
      The first half of `handleSend`: with blank input or no session nothing
      happens; otherwise the trimmed input joins the log as a user message,
      the input clears and a reply is awaited.
    */
    method Send()
      requires Valid()
      modifies this
      ensures Valid()
      ensures Trim(old(input)) == [] || old(session).None? ==>
                messages == old(messages) && input == old(input) && isLoading == old(isLoading)
      ensures Trim(old(input)) != [] && old(session).Some? ==>
                messages == old(messages) + [Message(User, Trim(old(input)))] && input == [] && isLoading
      ensures isOpen == old(isOpen) && session == old(session)
    {
      var text := Trim(input);
      if text == [] || session.None? {
        return;
      }
      assert !isLoading by {
        if isLoading {
          TrimEmpty(input);
        }
      }
      TrimmedTrim(input);
      LogAppendUser(messages, text);
      messages := messages + [Message(User, text)];
      input := [];
      isLoading := true;
    }

    /** The second half: the reply's text (or the fallback, or the network error) joins the log and loading ends. */
    method Receive(reply: Reply)
      requires Valid() && isLoading
      modifies this
      ensures Valid()
      ensures messages == old(messages) + [Message(Model, ReplyText(reply))] && !isLoading
      ensures isOpen == old(isOpen) && input == old(input) && session == old(session)
    {
      LogAppendModel(messages, ReplyText(reply));
      messages := messages + [Message(Model, ReplyText(reply))];
      isLoading := false;
    }

    /**
      `handleSend` with the awaited outcome given: either nothing changes, or
      exactly two messages are appended, the trimmed question and its answer,
      and nothing is awaited afterwards.
    */
    method HandleSend(reply: Reply)
      requires Valid()
      modifies this
      ensures Valid()
      ensures Trim(old(input)) == [] || old(session).None? ==>
                messages == old(messages) && input == old(input) && isLoading == old(isLoading)
      ensures Trim(old(input)) != [] && old(session).Some? ==>
                messages == old(messages) + [Message(User, Trim(old(input))), Message(Model, ReplyText(reply))]
                && input == [] && !isLoading
      ensures isOpen == old(isOpen) && session == old(session)
    {
      var asked := Trim(input) != [] && session.Some?;
      ghost var before, question := messages, Trim(input);
      Send();
      if asked {
        assert messages == before + [Message(User, question)];
        Receive(reply);
        assert messages == before + [Message(User, question), Message(Model, ReplyText(reply))];
      }
    }
  }
}
