module StockLedger {
  // The stock of baby food. What is on the shelf is not stored: it is derived from the last count, the
  // meal plan and the batches made since. The theorems compare it with a ledger kept day by day, for every
  // run of counts, batches and midnights with the meal plan fixed.
  //
  // Days are numbered from birth. The rows of the plan are the unskipped topping items.

  import opened Bytes

  /** One item of a meal. */
  datatype Item = Item(name: string, day: int)

  datatype Batch = Batch(id: nat, name: string, qty: nat, note: string)

  /** The last count of an ingredient: how many, on which day, and the latest batch at that time. */
  datatype Counted = Counted(qty: nat, day: int, batch: nat)

  /** An ingredient that was never counted has no count. */
  datatype Shelf = Shelf(ingredients: map<string, Option<Counted>>, batches: seq<Batch>, lastId: nat)

  datatype StockError = NoName | LongName | BadQuantity | LongNote | NotFound

  const MAX_QTY := 9999
  const MAX_NAME := 40
  const MAX_NOTE := 200

  // ---------------------------------------------------------------------- sums

  /** How many items of the name fall on the days from lo to before hi. */
  function Eaten(plan: seq<Item>, name: string, lo: int, hi: int): (n: nat)
    ensures hi <= lo ==> n == 0
  {
    if plan == [] then 0
    else
      var x := plan[|plan| - 1];
      Eaten(plan[..|plan| - 1], name, lo, hi) + if x.name == name && lo <= x.day < hi then 1 else 0
  }

  lemma {:induction false} EatenSplits(plan: seq<Item>, name: string, lo: int, mid: int, hi: int)
    requires lo <= mid <= hi
    ensures Eaten(plan, name, lo, hi) == Eaten(plan, name, lo, mid) + Eaten(plan, name, mid, hi)
  {
    if plan != [] { EatenSplits(plan[..|plan| - 1], name, lo, mid, hi); }
  }

  /** The rows of the plan that are items of the name on these days. */
  function Rows(plan: seq<Item>, name: string, lo: int, hi: int): set<nat> {
    set i: nat | i < |plan| && plan[i].name == name && lo <= plan[i].day < hi
  }

  lemma {:induction false} EatenIsCount(plan: seq<Item>, name: string, lo: int, hi: int)
    ensures Eaten(plan, name, lo, hi) == |Rows(plan, name, lo, hi)|
  {
    if plan == [] {
      assert Rows(plan, name, lo, hi) == {};
    } else {
      EatenIsCount(plan[..|plan| - 1], name, lo, hi);
      hide Rows;
      RowsMore(plan, name, lo, hi);
    }
  }

  lemma RowsMore(plan: seq<Item>, name: string, lo: int, hi: int)
    requires plan != []
    ensures var n := |plan| - 1;
            |Rows(plan, name, lo, hi)| ==
              |Rows(plan[..n], name, lo, hi)| + if plan[n].name == name && lo <= plan[n].day < hi then 1 else 0
  {
    var n := |plan| - 1;
    var before, now := Rows(plan[..n], name, lo, hi), Rows(plan, name, lo, hi);
    assert forall i: nat :: i in now <==> i in before || (i == n && plan[n].name == name && lo <= plan[n].day < hi) by {
      assert forall i :: 0 <= i < n ==> plan[..n][i] == plan[i];
    }
    var last := if plan[n].name == name && lo <= plan[n].day < hi then {n} else {};
    OneSetMore(before, now, last);
  }

  lemma OneSetMore(before: set<nat>, now: set<nat>, last: set<nat>)
    requires (forall i: nat :: i in now <==> i in before || i in last) && before !! last
    ensures |now| == |before| + |last|
  {
    assert now == before + last;
  }

  lemma {:induction false} EatenJoins(a: seq<Item>, b: seq<Item>, name: string, lo: int, hi: int)
    ensures Eaten(a + b, name, lo, hi) == Eaten(a, name, lo, hi) + Eaten(b, name, lo, hi)
  {
    if b == [] {
      assert a + b == a;
    } else {
      assert (a + b)[..|a + b| - 1] == a + b[..|b| - 1];
      EatenJoins(a, b[..|b| - 1], name, lo, hi);
    }
  }

  /** Items of other ingredients, wherever they are in the plan, make no difference. */
  lemma OtherItems(a: seq<Item>, x: Item, b: seq<Item>, name: string, lo: int, hi: int)
    requires x.name != name
    ensures Eaten(a + [x] + b, name, lo, hi) == Eaten(a + b, name, lo, hi)
  {
    EatenJoins(a + [x], b, name, lo, hi);
    EatenJoins(a, [x], name, lo, hi);
    EatenJoins(a, b, name, lo, hi);
    assert [x][..0] == [];
    assert Eaten([x], name, lo, hi) == 0;
  }

  /** How much of the name was made in batches after the given one. */
  function MadeAfter(batches: seq<Batch>, name: string, id: nat): nat {
    if batches == [] then 0
    else
      var b := batches[|batches| - 1];
      MadeAfter(batches[..|batches| - 1], name, id) + if b.name == name && b.id > id then b.qty else 0
  }

  function MaxId(batches: seq<Batch>): nat {
    if batches == [] then 0
    else if batches[|batches| - 1].id > MaxId(batches[..|batches| - 1]) then batches[|batches| - 1].id
    else MaxId(batches[..|batches| - 1])
  }

  lemma {:induction false} MaxIdIsGreatest(batches: seq<Batch>)
    ensures forall b :: b in batches ==> b.id <= MaxId(batches)
    ensures MaxId(batches) == 0 || exists b :: b in batches && b.id == MaxId(batches)
  {
    if batches != [] {
      MaxIdIsGreatest(batches[..|batches| - 1]);
      assert batches == batches[..|batches| - 1] + [batches[|batches| - 1]];
    }
  }

  lemma {:induction false} NothingMade(batches: seq<Batch>, name: string, id: nat)
    requires forall b :: b in batches ==> b.id <= id
    ensures MadeAfter(batches, name, id) == 0
  {
    if batches != [] { NothingMade(batches[..|batches| - 1], name, id); }
  }

  // ---------------------------------------------------------------------- the store

  /** The derived stock; unknown until the first count. */
  function Stock(plan: seq<Item>, s: Shelf, name: string, today: int): Option<int> {
    if name !in s.ingredients || s.ingredients[name].None? then None
    else
      var c := s.ingredients[name].value;
      Some(c.qty - Eaten(plan, name, c.day + 1, today) + MadeAfter(s.batches, name, c.batch))
  }

  function Need(plan: seq<Item>, name: string, today: int, horizon: nat): nat {
    Eaten(plan, name, today, today + horizon)
  }

  /** How many to make; everything needed if the stock is unknown. */
  function ToMake(plan: seq<Item>, s: Shelf, name: string, today: int, horizon: nat): nat {
    var need := Need(plan, name, today, horizon);
    match Stock(plan, s, name, today)
    case None => need
    case Some(v) => if need - v > 0 then need - v else 0
  }

  function NameError(name: string): Option<StockError> {
    if |name| > MAX_NAME then Some(LongName) else if name == "" then Some(NoName) else None
  }

  function CountError(s: Shelf, name: string, qty: int): Option<StockError> {
    if NameError(name).Some? then NameError(name)
    else if qty < 0 || qty > MAX_QTY then Some(BadQuantity)
    else if name !in s.ingredients then Some(NotFound)
    else None
  }

  function Counting(s: Shelf, name: string, qty: int, today: int): Shelf {
    if CountError(s, name, qty).Some? then s
    else s.(ingredients := s.ingredients[name := Some(Counted(qty, today, MaxId(s.batches)))])
  }

  function MakeError(name: string, qty: int, note: string): Option<StockError> {
    if NameError(name).Some? then NameError(name)
    else if qty <= 0 || qty > MAX_QTY then Some(BadQuantity)
    else if |note| > MAX_NOTE then Some(LongNote)
    else None
  }

  /** `others` is how many batches were entered for other children in between. */
  function Making(s: Shelf, name: string, qty: int, note: string, others: nat): Shelf {
    if MakeError(name, qty, note).Some? then s
    else
      var id := s.lastId + others + 1;
      Shelf(if name in s.ingredients then s.ingredients else s.ingredients[name := None],
            s.batches + [Batch(id, name, qty, note)], id)
  }

  /** Counting or making one ingredient changes nothing about the stock of another. */
  lemma OtherIngredients(plan: seq<Item>, s: Shelf, name: string, other: string, qty: int, note: string, others: nat, today: int,
                         horizon: nat)
    requires other != name
    ensures Stock(plan, Counting(s, other, qty, today), name, today) == Stock(plan, s, name, today)
    ensures Stock(plan, Making(s, other, qty, note, others), name, today) == Stock(plan, s, name, today)
    ensures ToMake(plan, Counting(s, other, qty, today), name, today, horizon) == ToMake(plan, s, name, today, horizon)
    ensures ToMake(plan, Making(s, other, qty, note, others), name, today, horizon) == ToMake(plan, s, name, today, horizon)
  {
    hide Eaten;
    var made := Making(s, other, qty, note, others);
    if MakeError(other, qty, note).None? { assert made.batches[..|s.batches|] == s.batches; }
  }

  /** Items of another ingredient leave a line as it is. */
  lemma OtherItemsLeaveLine(a: seq<Item>, x: Item, b: seq<Item>, s: Shelf, name: string, today: int, horizon: nat)
    requires x.name != name
    ensures Stock(a + [x] + b, s, name, today) == Stock(a + b, s, name, today)
    ensures Need(a + [x] + b, name, today, horizon) == Need(a + b, name, today, horizon)
    ensures ToMake(a + [x] + b, s, name, today, horizon) == ToMake(a + b, s, name, today, horizon)
  {
    hide Eaten, MadeAfter;
    OtherItems(a, x, b, name, today, today + horizon);
    if name in s.ingredients && s.ingredients[name].Some? {
      OtherItems(a, x, b, name, s.ingredients[name].value.day + 1, today);
    }
  }

  datatype DayCount = DayCount(day: int, n: nat)

  /** One line of the stock list. */
  datatype Line = Line(need: nat, used: nat, made: nat, stock: Option<int>, make: nat)

  /** The items used after a day, from their counts by day. */
  function UsedAfter(days: seq<DayCount>, day: int): nat {
    if days == [] then 0
    else UsedAfter(days[..|days| - 1], day) + if days[|days| - 1].day > day then days[|days| - 1].n else 0
  }

  lemma {:induction false} OneMoreUsed(days: seq<DayCount>, j: nat, day: int)
    requires j < |days|
    ensures UsedAfter(days[j := days[j].(n := days[j].n + 1)], day) == UsedAfter(days, day) + if days[j].day > day then 1 else 0
  {
    var n := |days| - 1;
    var more := days[j := days[j].(n := days[j].n + 1)];
    if j < n {
      assert more[..n] == days[..n][j := days[j].(n := days[j].n + 1)];
      OneMoreUsed(days[..n], j, day);
    } else {
      assert more[..n] == days[..n];
    }
  }

  lemma NewDayUsed(days: seq<DayCount>, x: DayCount, day: int)
    ensures UsedAfter(days + [x], day) == UsedAfter(days, day) + if x.day > day then x.n else 0
  {
    assert (days + [x])[..|days|] == days;
  }

  class Store {
    const plan: seq<Item>
    var ingredients: map<string, Option<Counted>>
    var batches: seq<Batch>
    var lastId: nat

    ghost function Value(): Shelf
      reads this
    {
      Shelf(ingredients, batches, lastId)
    }

    constructor (plan: seq<Item>)
      ensures this.plan == plan && Value() == Shelf(map[], [], 0)
    {
      this.plan := plan;
      ingredients, batches, lastId := map[], [], 0;
    }

    /** A count on the shelf. Only what is eaten and made afterwards changes it. */
    method Count(name: string, qty: int, today: int) returns (err: Option<StockError>)
      modifies this
      ensures err == CountError(old(Value()), name, qty) && Value() == Counting(old(Value()), name, qty, today)
    {
      if |name| > MAX_NAME { return Some(LongName); }
      if name == "" { return Some(NoName); }
      if qty < 0 || qty > MAX_QTY { return Some(BadQuantity); }
      if name !in ingredients { return Some(NotFound); }
      ingredients := ingredients[name := Some(Counted(qty, today, MaxId(batches)))];
      err := None;
    }

    /** A batch with a note; an ingredient that is not known yet is added. */
    method AddBatch(name: string, qty: int, note: string, others: nat) returns (err: Option<StockError>)
      modifies this
      ensures err == MakeError(name, qty, note) && Value() == Making(old(Value()), name, qty, note, others)
    {
      if |name| > MAX_NAME { return Some(LongName); }
      if name == "" { return Some(NoName); }
      if qty <= 0 || qty > MAX_QTY { return Some(BadQuantity); }
      if |note| > MAX_NOTE { return Some(LongNote); }
      if name !in ingredients { ingredients := ingredients[name := None]; }
      lastId := lastId + others + 1;
      batches := batches + [Batch(lastId, name, qty, note)];
      err := None;
    }

    method CountItems(name: string, lo: int, hi: int) returns (n: nat)
      ensures n == Eaten(plan, name, lo, hi)
    {
      n := 0;
      var i := 0;
      while i < |plan|
        invariant 0 <= i <= |plan| && n == Eaten(plan[..i], name, lo, hi)
      {
        assert plan[..i + 1][..i] == plan[..i];
        if plan[i].name == name && lo <= plan[i].day < hi { n := n + 1; }
        i := i + 1;
      }
      assert plan[..|plan|] == plan;
    }

    /** The items before today by day, each day once. */
    method CountItemsByDay(name: string, today: int) returns (days: seq<DayCount>)
      ensures forall day :: UsedAfter(days, day) == Eaten(plan, name, day + 1, today)
      ensures forall i, j :: 0 <= i < j < |days| ==> days[i].day != days[j].day
    {
      days := [];
      var i := 0;
      while i < |plan|
        invariant 0 <= i <= |plan|
        invariant forall day :: UsedAfter(days, day) == Eaten(plan[..i], name, day + 1, today)
        invariant forall k, j :: 0 <= k < j < |days| ==> days[k].day != days[j].day
      {
        assert plan[..i + 1][..i] == plan[..i];
        var x := plan[i];
        if x.name == name && x.day < today {
          ghost var before := days;
          days := Tallied(days, x.day);
          forall day ensures UsedAfter(days, day) == UsedAfter(before, day) + if x.day > day then 1 else 0 {
            TalliedUsed(before, x.day, day);
          }
        }
        i := i + 1;
      }
      assert plan[..|plan|] == plan;
    }

    /** The line of one ingredient. */
    method StockLine(name: string, today: int, horizon: nat) returns (line: Line)
      requires name in ingredients
      ensures line.need == Need(plan, name, today, horizon)
      ensures line.stock == Stock(plan, Value(), name, today)
      ensures line.make == ToMake(plan, Value(), name, today, horizon)
      ensures match ingredients[name]
              case None => line.used == 0 && line.made == 0
              case Some(c) => line.used == Eaten(plan, name, c.day + 1, today) && line.made == MadeAfter(batches, name, c.batch)
    {
      var need := CountItems(name, today, today + horizon);
      var past := CountItemsByDay(name, today);
      if ingredients[name].None? { return Line(need, 0, 0, None, need); }
      var c := ingredients[name].value;
      var used: nat, i := 0, 0;
      while i < |past|
        invariant 0 <= i <= |past| && used == UsedAfter(past[..i], c.day)
      {
        assert past[..i + 1][..i] == past[..i];
        if past[i].day > c.day { used := used + past[i].n; }
        i := i + 1;
      }
      assert past[..|past|] == past;
      var made: nat := 0;
      i := 0;
      while i < |batches|
        invariant 0 <= i <= |batches| && made == MadeAfter(batches[..i], name, c.batch)
      {
        assert batches[..i + 1][..i] == batches[..i];
        if batches[i].name == name && batches[i].id > c.batch { made := made + batches[i].qty; }
        i := i + 1;
      }
      assert batches[..|batches|] == batches;
      var v := c.qty - used + made;
      line := Line(need, used, made, Some(v), if need - v > 0 then need - v else 0);
    }
  }

  // ---------------------------------------------------------------------- grouping by day

  function Place(days: seq<DayCount>, day: int): (r: Option<nat>)
    ensures r.Some? ==> r.value < |days| && days[r.value].day == day
    ensures r.None? ==> forall i :: 0 <= i < |days| ==> days[i].day != day
  {
    if days == [] then None
    else if days[|days| - 1].day == day then Some(|days| - 1)
    else Place(days[..|days| - 1], day)
  }

  /** The counts with one more on a day. */
  function Tallied(days: seq<DayCount>, day: int): seq<DayCount> {
    match Place(days, day)
    case Some(j) => days[j := days[j].(n := days[j].n + 1)]
    case None => days + [DayCount(day, 1)]
  }

  lemma TalliedUsed(days: seq<DayCount>, day: int, since: int)
    ensures UsedAfter(Tallied(days, day), since) == UsedAfter(days, since) + if day > since then 1 else 0
  {
    match Place(days, day)
    case Some(j) => OneMoreUsed(days, j, since);
    case None => NewDayUsed(days, DayCount(day, 1), since);
  }

  // ---------------------------------------------------------------------- the ledger

  datatype Event =
    | CountEvent(name: string, qty: int)
    | MakeEvent(name: string, qty: int, note: string, others: nat)
    | Midnight

  datatype State = State(shelf: Shelf, today: int)

  function Step(s: State, e: Event): State {
    match e
    case CountEvent(name, qty) => s.(shelf := Counting(s.shelf, name, qty, s.today))
    case MakeEvent(name, qty, note, others) => s.(shelf := Making(s.shelf, name, qty, note, others))
    case Midnight => s.(today := s.today + 1)
  }

  function Run(s: State, es: seq<Event>): State {
    if es == [] then s else Step(Run(s, es[..|es| - 1]), es[|es| - 1])
  }

  /** An ingredient's entry in a ledger: what is on the shelf, and the day of the last count. */
  datatype Account = Account(balance: int, day: int)

  /** A count sets the balance, a batch adds to it, and a midnight takes the items of the day that ends. */
  function Booked(plan: seq<Item>, name: string, a: Option<Account>, s: State, e: Event): Option<Account> {
    match e
    case CountEvent(n, qty) =>
      if n == name && CountError(s.shelf, n, qty).None? then Some(Account(qty, s.today)) else a
    case MakeEvent(n, qty, note, _) =>
      if n == name && MakeError(n, qty, note).None? && a.Some? then Some(a.value.(balance := a.value.balance + qty)) else a
    case Midnight =>
      if a.Some? && s.today > a.value.day then
        Some(a.value.(balance := a.value.balance - Eaten(plan, name, s.today, s.today + 1)))
      else a
  }

  function Ledger(plan: seq<Item>, name: string, s: State, es: seq<Event>): Option<Account> {
    if es == [] then None
    else
      var front := es[..|es| - 1];
      Booked(plan, name, Ledger(plan, name, s, front), Run(s, front), es[|es| - 1])
  }

  /** Names are proper; counts lie in the past and know no later batch than there is. */
  ghost predicate Consistent(s: State) {
    && (forall n :: n in s.shelf.ingredients ==> NameError(n) == None)
    && (forall b :: b in s.shelf.batches ==> b.id <= s.shelf.lastId)
    && (forall n :: n in s.shelf.ingredients && s.shelf.ingredients[n].Some? ==>
          s.shelf.ingredients[n].value.day <= s.today && s.shelf.ingredients[n].value.batch <= s.shelf.lastId)
  }

  /** The derived stock is the ledger's balance. */
  ghost predicate Agrees(plan: seq<Item>, name: string, s: State, a: Option<Account>) {
    && (a.Some? <==> name in s.shelf.ingredients && s.shelf.ingredients[name].Some?)
    && (a.Some? ==> a.value.day == s.shelf.ingredients[name].value.day)
    && Stock(plan, s.shelf, name, s.today) == if a.Some? then Some(a.value.balance) else None
  }

  lemma CountAgrees(plan: seq<Item>, name: string, s: State, a: Option<Account>, n: string, qty: int)
    requires Consistent(s) && Agrees(plan, name, s, a)
    ensures Consistent(Step(s, CountEvent(n, qty)))
    ensures Agrees(plan, name, Step(s, CountEvent(n, qty)), Booked(plan, name, a, s, CountEvent(n, qty)))
  {
    MaxIdIsGreatest(s.shelf.batches);
    NothingMade(s.shelf.batches, name, MaxId(s.shelf.batches));
  }

  lemma MakeAgrees(plan: seq<Item>, name: string, s: State, a: Option<Account>, n: string, qty: int, note: string,
                   others: nat)
    requires Consistent(s) && Agrees(plan, name, s, a)
    ensures var e := MakeEvent(n, qty, note, others);
            Consistent(Step(s, e)) && Agrees(plan, name, Step(s, e), Booked(plan, name, a, s, e))
  {
    hide Eaten;
    var shelf := Making(s.shelf, n, qty, note, others);
    if MakeError(n, qty, note).None? { assert shelf.batches[..|s.shelf.batches|] == s.shelf.batches; }
  }

  lemma MidnightAgrees(plan: seq<Item>, name: string, s: State, a: Option<Account>)
    requires Consistent(s) && Agrees(plan, name, s, a)
    ensures Consistent(Step(s, Midnight)) && Agrees(plan, name, Step(s, Midnight), Booked(plan, name, a, s, Midnight))
  {
    hide MadeAfter;
    if a.Some? && s.today > a.value.day {
      EatenSplits(plan, name, a.value.day + 1, s.today, s.today + 1);
    }
  }

  lemma StepAgrees(plan: seq<Item>, name: string, s: State, a: Option<Account>, e: Event)
    requires Consistent(s) && Agrees(plan, name, s, a)
    ensures Consistent(Step(s, e)) && Agrees(plan, name, Step(s, e), Booked(plan, name, a, s, e))
  {
    hide Consistent, Agrees, Step, Booked;
    match e
    case CountEvent(n, qty) => CountAgrees(plan, name, s, a, n, qty);
    case MakeEvent(n, qty, note, others) => MakeAgrees(plan, name, s, a, n, qty, note, others);
    case Midnight => MidnightAgrees(plan, name, s, a);
  }

  /** In every run from an empty store the closed formula gives the ledger's balance. */
  lemma {:induction false} StockIsLedger(plan: seq<Item>, name: string, today: int, es: seq<Event>)
    ensures var s, start := Run(State(Shelf(map[], [], 0), today), es), State(Shelf(map[], [], 0), today);
            Consistent(s) && Agrees(plan, name, s, Ledger(plan, name, start, es))
  {
    hide Agrees, Consistent, Booked, Step;
    var start := State(Shelf(map[], [], 0), today);
    if es == [] {
      NothingCounted(plan, name, today);
    } else {
      var front := es[..|es| - 1];
      StockIsLedger(plan, name, today, front);
      StepAgrees(plan, name, Run(start, front), Ledger(plan, name, start, front), es[|es| - 1]);
    }
  }

  lemma NothingCounted(plan: seq<Item>, name: string, today: int)
    ensures var s := State(Shelf(map[], [], 0), today); Consistent(s) && Agrees(plan, name, s, None)
  {
  }

  // ---------------------------------------------------------------------- planning ahead

  /** The first day after a count of the past, today after a count of today. */
  function FirstDay(day: int, today: int): int { if day < today then day + 1 else today }

  /** No day is both used and needed, and together they are the days after the count, or from today, up to the horizon. */
  lemma UsedAndNeeded(plan: seq<Item>, name: string, day: int, today: int, horizon: nat)
    ensures Eaten(plan, name, day + 1, today) + Need(plan, name, today, horizon)
         == Eaten(plan, name, FirstDay(day, today), today + horizon)
  {
    EatenSplits(plan, name, FirstDay(day, today), today, today + horizon);
  }

  function Midnights(n: nat): (es: seq<Event>)
    ensures |es| == n && forall i :: 0 <= i < n ==> es[i] == Midnight
  {
    if n == 0 then [] else Midnights(n - 1) + [Midnight]
  }

  lemma {:induction false} AfterMidnights(s: State, n: nat)
    ensures Run(s, Midnights(n)) == State(s.shelf, s.today + n)
  {
    if n > 0 {
      AfterMidnights(s, n - 1);
      assert Midnights(n)[..n - 1] == Midnights(n - 1);
    }
  }

  lemma {:induction false} EatenGrows(plan: seq<Item>, name: string, lo: int, hi: int, more: int)
    requires hi <= more
    ensures Eaten(plan, name, lo, hi) <= Eaten(plan, name, lo, more)
  {
    if plan != [] { EatenGrows(plan[..|plan| - 1], name, lo, hi, more); }
  }

  /** What a run of the plan leaves after making what the list asks for. */
  function Leftover(plan: seq<Item>, s: State, name: string, horizon: nat, days: nat): Option<int> {
    var make := ToMake(plan, s.shelf, name, s.today, horizon);
    var made := if make == 0 then s.shelf else Making(s.shelf, name, make, "", 0);
    Stock(plan, Run(State(made, s.today), Midnights(days)).shelf, name, s.today + days)
  }

  lemma OneMoreBatch(s: Shelf, name: string, qty: int, batch: nat)
    requires name in s.ingredients && MakeError(name, qty, "").None? && batch <= s.lastId
    ensures MadeAfter(Making(s, name, qty, "", 0).batches, name, batch) == MadeAfter(s.batches, name, batch) + qty
  {
    assert Making(s, name, qty, "", 0).batches[..|s.batches|] == s.batches;
  }

  /**
   * Making what the list asks for lasts through the horizon. Where something had to be made, nothing is
   * left at its end, except that after a count of today today's items are: the count stands for the end
   * of its day, but the list wants them once more.
   */
  lemma MakingIsEnough(plan: seq<Item>, s: State, name: string, horizon: nat, days: nat)
    requires Consistent(s) && days <= horizon
    requires name in s.shelf.ingredients && s.shelf.ingredients[name].Some?
    requires ToMake(plan, s.shelf, name, s.today, horizon) <= MAX_QTY
    ensures var left := Leftover(plan, s, name, horizon, days);
            && left.Some? && left.value >= 0
            && (days == horizon > 0 && ToMake(plan, s.shelf, name, s.today, horizon) > 0 ==>
                  left.value == if s.shelf.ingredients[name].value.day == s.today
                                then Eaten(plan, name, s.today, s.today + 1) else 0)
  {
    hide Eaten, MadeAfter, Run, Midnights;
    var c := s.shelf.ingredients[name].value;
    var make := ToMake(plan, s.shelf, name, s.today, horizon);
    var made := if make == 0 then s.shelf else Making(s.shelf, name, make, "", 0);
    AfterMidnights(State(made, s.today), days);
    if make > 0 { OneMoreBatch(s.shelf, name, make, c.batch); }
    var end := s.today + horizon;
    EatenGrows(plan, name, c.day + 1, s.today + days, end);
    if c.day < s.today {
      UsedAndNeeded(plan, name, c.day, s.today, horizon);
    } else {
      CountedToday(plan, name, s.today, horizon);
    }
  }

  /** None counted today, one wanted today: one is made, and at the end of the day it is still there. */
  lemma MadeForACountedDay()
    ensures var plan, s := [Item("rice", 0)], State(Shelf(map["rice" := Some(Counted(0, 0, 0))], [], 0), 0);
            ToMake(plan, s.shelf, "rice", 0, 1) == 1 && Leftover(plan, s, "rice", 1, 1) == Some(1)
  {
    var plan, s := [Item("rice", 0)], State(Shelf(map["rice" := Some(Counted(0, 0, 0))], [], 0), 0);
    assert plan[..0] == [];
    assert Eaten(plan, "rice", 0, 1) == 1 && Eaten(plan, "rice", 1, 0) == 0;
    MakingIsEnough(plan, s, "rice", 1, 1);
  }

  lemma CountedToday(plan: seq<Item>, name: string, today: int, horizon: nat)
    ensures Eaten(plan, name, today + 1, today + horizon) <= Need(plan, name, today, horizon)
    ensures var first, later := Eaten(plan, name, today, today + 1), Eaten(plan, name, today + 1, today + horizon);
            horizon > 0 ==> Need(plan, name, today, horizon) == first + later
  {
    if horizon > 0 { EatenSplits(plan, name, today, today + 1, today + horizon); }
  }
}
