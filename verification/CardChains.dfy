module CardChains {
  // Cards with due dates and recurrence, and the chains that completing recurring cards builds.

  import opened Bytes
  import opened Calendar
  import opened Recurrence
  import opened Positions

  /** A card row; its place is its column and position. */
  datatype Card = Card(place: Place, due: Option<Due>, end: Option<Due>, recur: Option<Rule>, until: Option<Date>)

  /** What creation enforces and every later operation keeps. */
  predicate CardOk(c: Card) {
    && (c.due.Some? ==> c.due.value.date.Valid())
    && (c.recur.Some? ==> c.due.Some? && c.recur.value.Valid())
    && (c.end.Some? ==> c.due.Some? && c.end.value.date.Valid() && !Before(c.end.value.date, c.due.value.date))
    && (c.until.Some? ==> c.until.value.Valid())
  }

  /** Days from the due date to the end. */
  function Span(c: Card): (n: int)
    requires CardOk(c) && c.end.Some?
    ensures n >= 0
  {
    BeforeIsLess(c.end.value.date, c.due.value.date);
    DayNumber(c.end.value.date) - DayNumber(c.due.value.date)
  }

  /** The end moved along so that the span in days stays the same. */
  function ShiftEnd(c: Card, next: Due): (e: Option<Due>)
    requires CardOk(c) && next.date.Valid()
    ensures e.Some? ==> e.value.date.Valid()
  {
    if c.end == None then None else Some(Due(AddDays(next.date, Span(c)), c.end.value.clock))
  }

  /** The card that completing c makes in the given place; none after the last date. */
  function Spawned(c: Card, place: Place): (r: Option<Card>)
    requires CardOk(c) && c.recur.Some?
  {
    var next := Due(Next(c.recur.value, c.due.value.date), c.due.value.clock);
    if c.until.Some? && Before(c.until.value, next.date) then None
    else Some(Card(place, Some(next), ShiftEnd(c, next), c.recur, c.until))
  }

  lemma NextIsLater(rule: Rule, d: Date)
    requires rule.Valid() && d.Valid()
    ensures Before(d, Next(rule, d))
  {
    hide AddDays, DayNumber, DaysIn;
    match rule
    case Daily => DayAfter(d);
    case Every(n) => EveryIsNext(n, d);
    case Weekly(mask) => WeeklyIsNext(mask, d);
    case Monthly(want) =>
    case Yearly(m, want) =>
  }

  /** A next date is missed only in the year 0, and there it is, as every day from the last of December. */
  lemma ZeroDateIsMissed(rule: Rule, d: Date)
    requires rule.Valid() && d.Valid()
    ensures Next(rule, d) == ZERO_DATE ==> d.year == 0
    ensures Next(Daily, Date(0, 12, 31)) == ZERO_DATE
  {
    hide AddDays, DayNumber, DaysIn, Next;
    NextIsLater(rule, d);
    AfterNewYearsEve();
  }

  lemma AfterNewYearsEve()
    ensures Next(Daily, Date(0, 12, 31)) == ZERO_DATE
  {
    assert AddDays(Date(0, 12, 31), 0) == Date(0, 12, 31);
  }

  lemma SpawnedKeepsSpan(c: Card, place: Place)
    requires CardOk(c) && c.recur.Some? && Spawned(c, place).Some?
    ensures var n := Spawned(c, place).value;
            && CardOk(n) && Before(c.due.value.date, n.due.value.date)
            && n.end.Some? == c.end.Some? && (c.end.Some? ==> Span(n) == Span(c))
  {
    hide AddDays, DayNumber, Next;
    var next := Next(c.recur.value, c.due.value.date);
    NextIsLater(c.recur.value, c.due.value.date);
    if c.end.Some? {
      AddDaysNumber(next, Span(c));
      BeforeIsLess(AddDays(next, Span(c)), next);
    }
  }

  // ---------------------------------------------------------------------- chains

  /**
   * Card a comes before b in a chain: an earlier due date, the same time of day, last date and span
   * in days, no rule left on a, and b not past the last date.
   */
  predicate Precedes(a: Card, b: Card)
    requires CardOk(a) && CardOk(b)
  {
    && a.due.Some? && b.due.Some?
    && Before(a.due.value.date, b.due.value.date)
    && a.due.value.clock == b.due.value.clock
    && a.recur == None
    && a.until == b.until && (b.until.Some? ==> !Before(b.until.value, b.due.value.date))
    && a.end.Some? == b.end.Some? && (a.end.Some? ==> Span(a) == Span(b))
  }

  predicate Linked(a: Card, b: Card)
    requires CardOk(a) && CardOk(b)
  {
    Precedes(a, b) || Precedes(b, a)
  }

  type Table = map<nat, Card>

  predicate AllOk(cards: Table) {
    forall k :: k in cards ==> CardOk(cards[k])
  }

  /** `chain` names the chain of each card. */
  ghost predicate Chains(cards: Table, chain: map<nat, nat>, next: nat) {
    && AllOk(cards)
    && chain.Keys == cards.Keys
    && (forall k :: k in chain ==> chain[k] < next)
    && (forall k, l :: k in cards && l in cards && k != l && chain[k] == chain[l] ==> Linked(cards[k], cards[l]))
  }

  /**
   * What the chains come to: of two cards of a chain at most one carries a rule, their due dates differ
   * and lie within the last date of the later one, and their spans are the same.
   */
  lemma OneRuleAChain(cards: Table, chain: map<nat, nat>, next: nat, k: nat, l: nat)
    requires Chains(cards, chain, next) && k in cards && l in cards && k != l && chain[k] == chain[l]
    ensures CardOk(cards[k]) && CardOk(cards[l])
    ensures cards[k].recur == None || cards[l].recur == None
    ensures cards[k].due.Some? && cards[l].due.Some?
    ensures var a, b := cards[k].due.value.date, cards[l].due.value.date;
            && (Before(a, b) || Before(b, a))
            && (Before(a, b) ==> cards[k].recur == None)
            && (Before(a, b) && cards[l].until.Some? ==> !Before(cards[l].until.value, b))
    ensures cards[k].end.Some? == cards[l].end.Some?
    ensures cards[k].end.Some? ==> Span(cards[k]) == Span(cards[l])
  {
    assert Linked(cards[k], cards[l]);
  }

  /** A new card starts a chain of its own. */
  lemma StartChain(cards: Table, chain: map<nat, nat>, next: nat, id: nat, c: Card)
    requires Chains(cards, chain, next) && id !in cards && CardOk(c)
    ensures Chains(cards[id := c], chain[id := next], next + 1)
  {
    hide CardOk, Linked;
  }

  lemma DropCards(cards: Table, chain: map<nat, nat>, next: nat, ids: set<nat>)
    requires Chains(cards, chain, next)
    ensures Chains(cards - ids, chain - ids, next)
  {
    hide CardOk, Linked;
  }

  lemma StillOk(c: Card)
    requires CardOk(c)
    ensures CardOk(c.(recur := None))
  {}

  lemma StillLinked(a: Card, b: Card)
    requires CardOk(a) && CardOk(b) && Linked(a, b)
    ensures CardOk(a.(recur := None)) && CardOk(b.(recur := None))
    ensures Linked(a.(recur := None), b) && Linked(a, b.(recur := None))
  {}

  /** Completing takes the rule off the card and gives it to the spawned one. */
  lemma Spawn(cards: Table, chain: map<nat, nat>, next: nat, id: nat, newId: nat, place: Place)
    requires Chains(cards, chain, next) && id in cards && newId !in cards && cards[id].recur.Some?
    requires Spawned(cards[id], place).Some?
    ensures Chains(cards[id := cards[id].(recur := None)][newId := Spawned(cards[id], place).value],
                   chain[newId := chain[id]], next)
  {
    hide CardOk, Linked, Spawned;
    var c, n := cards[id], Spawned(cards[id], place).value;
    SpawnedKeepsSpan(c, place);
    var after := cards[id := c.(recur := None)][newId := n];
    var chain' := chain[newId := chain[id]];
    forall k ensures k in after ==> CardOk(after[k]) { if k in cards { StillOk(cards[k]); } }
    forall k, l | k in after && l in after && k != l && chain'[k] == chain'[l]
      ensures Linked(after[k], after[l])
    {
      if k == newId || l == newId {
        SpawnFollows(after[if k == newId then l else k], c, n, place);
      } else {
        StillLinked(cards[k], cards[l]);
      }
    }
  }

  /** The spawned card follows the completed one and everything that preceded it. */
  lemma SpawnFollows(a: Card, c: Card, n: Card, place: Place)
    requires CardOk(a) && CardOk(c) && CardOk(n) && c.recur.Some? && Spawned(c, place) == Some(n)
    requires a == c.(recur := None) || Linked(a, c)
    ensures Precedes(a, n) && Linked(a, n) && Linked(n, a)
  {
    hide AddDays, DayNumber, Next;
    SpawnedKeepsSpan(c, place);
  }

  /** A recurring card past its last date only loses its rule. */
  lemma DropRule(cards: Table, chain: map<nat, nat>, next: nat, id: nat)
    requires Chains(cards, chain, next) && id in cards
    ensures Chains(cards[id := cards[id].(recur := None)], chain, next)
  {
    hide CardOk, Linked;
    var after := cards[id := cards[id].(recur := None)];
    forall k ensures k in after ==> CardOk(after[k]) { if k in cards { StillOk(cards[k]); } }
    forall k, l | k in after && l in after && k != l && chain[k] == chain[l] ensures Linked(after[k], after[l]) {
      StillLinked(cards[k], cards[l]);
    }
  }

  // ---------------------------------------------------------------------- places

  function PlacesOf(cards: Table): (p: Places)
    ensures p.Keys == cards.Keys
  {
    map k | k in cards :: cards[k].place
  }

  /** An UPDATE of the place columns alone. */
  function WithPlaces(cards: Table, p: Places): (r: Table)
    requires p.Keys == cards.Keys
    ensures r.Keys == cards.Keys && PlacesOf(r) == p
  {
    map k | k in cards :: cards[k].(place := p[k])
  }

  lemma PlacesDoNotMatter(cards: Table, p: Places, chain: map<nat, nat>, next: nat)
    requires Chains(cards, chain, next) && p.Keys == cards.Keys
    ensures Chains(WithPlaces(cards, p), chain, next)
  {
    var after := WithPlaces(cards, p);
    forall k | k in after ensures CardOk(after[k]) {
      assert CardOk(cards[k]);
    }
    forall k, l | k in after && l in after && k != l && chain[k] == chain[l] ensures Linked(after[k], after[l]) {
      assert Linked(cards[k], cards[l]);
    }
  }
}
