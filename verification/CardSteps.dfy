module CardSteps {
  // The tables of boards, columns and cards, what each operation makes of them, and what holds after any
  // sequence of operations. Beside the rows stand the order of the columns of each board and of the cards
  // of each column, and the chain of each card.

  import opened Bytes
  import opened Calendar
  import opened Recurrence
  import opened Positions
  import opened CardChains

  datatype StoreError = NotFound | Invalid

  /** The fields of a card to be created. */
  datatype CardInput = CardInput(due: Option<Due>, end: Option<Due>, recur: Entered, until: Option<Date>)

  /** Byte-wise string order. */
  predicate LexLess(a: string, b: string) {
    b != [] && (a == [] || a[0] < b[0] || (a[0] == b[0] && LexLess(a[1..], b[1..])))
  }

  /** Due dates compare as strings: the date first, then the time of day, none being the least. */
  predicate DueLess(a: Due, b: Due) {
    Before(a.date, b.date) || (a.date == b.date && LexLess(a.clock, b.clock))
  }

  /** The card that an input describes, in the given place. */
  function Checked(c: CardInput, place: Place): (r: Result<Card, StoreError>)
    ensures r.Ok? ==> CardOk(r.value) && r.value.place == place
  {
    if c.due.Some? && !c.due.value.date.Valid() then Err(Invalid)
    else if c.end.Some? && (!c.end.value.date.Valid() || c.due == None || DueLess(c.end.value, c.due.value)) then Err(Invalid)
    else if !c.recur.Nothing? && c.due == None then Err(Invalid)
    else if c.until.Some? && !c.until.value.Valid() then Err(Invalid)
    else match Expand(c.recur, c.due)
      case Err(_) => Err(Invalid)
      case Ok(rule) => Ok(Card(place, c.due, c.end, rule, c.until))
  }

  /** What is kept of an accepted input: everything as entered; only a bare rule is filled in, from the due date. */
  lemma AcceptedIsKept(c: CardInput, place: Place)
    requires Checked(c, place).Ok?
    ensures var card := Checked(c, place).value;
            && card.place == place && card.due == c.due && card.end == c.end && card.until == c.until
            && (c.recur.Nothing? ==> card.recur == None)
            && (c.recur.Complete? ==> card.recur == Some(c.recur.rule))
            && (c.recur.Bare? ==> c.due.Some? && Expand(c.recur, c.due) == Ok(card.recur) && card.recur.Some?)
  {
  }

  /** And what is accepted. */
  lemma AcceptedInputs(c: CardInput, place: Place)
    ensures Checked(c, place).Ok? <==>
            && (c.due.Some? ==> c.due.value.date.Valid())
            && (c.end.Some? ==> c.end.value.date.Valid() && c.due.Some? && !DueLess(c.end.value, c.due.value))
            && (c.until.Some? ==> c.until.value.Valid())
            && (!c.recur.Nothing? ==> c.due.Some?)
            && (c.recur.Complete? ==> c.recur.rule.Valid())
  {
    hide DueLess;
  }

  lemma {:induction false} LexOrder(a: string, b: string)
    ensures !(LexLess(a, b) && LexLess(b, a)) && (LexLess(a, b) || LexLess(b, a) || a == b)
    ensures LexLess(a, b) ==> a != b
  {
    if a != [] && b != [] {
      LexOrder(a[1..], b[1..]);
      if a[1..] == b[1..] && a[0] == b[0] { assert a == [a[0]] + a[1..] && b == [b[0]] + b[1..]; }
    }
  }

  /** Of two due dates exactly one comes first, unless they are the same; a date comes before its times of day. */
  lemma DueOrder(a: Due, b: Due)
    ensures !(DueLess(a, b) && DueLess(b, a)) && (DueLess(a, b) || DueLess(b, a) || a == b) && (DueLess(a, b) ==> a != b)
    ensures a.date == b.date && a.clock == "" && b.clock != "" ==> DueLess(a, b)
  {
    LexOrder(a.clock, b.clock);
  }

  /** A column's group is its board, a card's its column; `parent` names the card that was completed for a card. */
  datatype Tables = Tables(boards: set<nat>, columns: Places, columnOrders: map<nat, seq<nat>>,
                           cards: Table, cardOrders: map<nat, seq<nat>>, parent: map<nat, nat>,
                           chain: map<nat, nat>, nextChain: nat)

  const EMPTY_TABLES := Tables({}, map[], map[], map[], map[], map[], map[], 0)

  /** The links that are left when the given cards are deleted: a deleted card is nobody's parent. */
  function Unlinked(parent: map<nat, nat>, gone: set<nat>): map<nat, nat> {
    map l | l in parent && l !in gone && parent[l] !in gone :: parent[l]
  }

  /** Every card that was spawned is due after its parent, which carries no rule and has no other child. */
  ghost predicate Families(t: Tables) {
    && (forall l :: l in t.parent ==> l in t.cards && t.parent[l] in t.cards)
    && (forall l :: l in t.parent ==> Child(t, t.parent[l], l))
    && (forall l, m :: l in t.parent && m in t.parent && t.parent[l] == t.parent[m] ==> l == m)
  }

  ghost predicate Child(t: Tables, k: nat, l: nat)
    requires k in t.cards && l in t.cards
  {
    && CardOk(t.cards[k]) && CardOk(t.cards[l]) && Precedes(t.cards[k], t.cards[l])
    && k in t.chain && l in t.chain && t.chain[k] == t.chain[l]
  }

  ghost predicate Sound(t: Tables) {
    && t.columnOrders.Keys == t.boards && AllOrdered(t.columns, t.columnOrders)
    && t.cardOrders.Keys == t.columns.Keys && AllOrdered(PlacesOf(t.cards), t.cardOrders)
    && Chains(t.cards, t.chain, t.nextChain)
    && Families(t)
  }

  // ---------------------------------------------------------------------- the operations

  /** Identifiers of new rows are chosen by the database. */
  datatype Op =
    | NewBoard(board: nat, ids: seq<nat>)
    | NewColumn(board: nat, id: nat)
    | DropColumn(id: nat)
    | NewCard(column: nat, input: CardInput, id: nat)
    | DropCard(id: nat)
    | MoveTo(id: nat, to: nat, pos: int, newId: nat)

  predicate Distinct(ids: seq<nat>) { forall i, j :: 0 <= i < j < |ids| ==> ids[i] != ids[j] }

  function AfterNewColumn(t: Tables, board: nat, id: nat): Tables {
    if board !in t.columnOrders || id in t.columns then t
    else t.(columns := t.columns[id := Place(board, |t.columnOrders[board]|)],
            columnOrders := t.columnOrders[board := t.columnOrders[board] + [id]],
            cardOrders := t.cardOrders[id := []])
  }

  function AfterNewColumns(t: Tables, board: nat, ids: seq<nat>): Tables {
    if ids == [] then t else AfterNewColumn(AfterNewColumns(t, board, ids[..|ids| - 1]), board, ids[|ids| - 1])
  }

  function AfterNewBoard(t: Tables, board: nat, ids: seq<nat>): Tables {
    if board in t.boards then t
    else AfterNewColumns(t.(boards := t.boards + {board}, columnOrders := t.columnOrders[board := []]), board, ids)
  }

  /** The cards of a column. */
  function CardsIn(t: Tables, column: nat): set<nat> { set k | k in t.cards && t.cards[k].place.group == column }

  function AfterDropColumn(t: Tables, id: nat): Tables {
    if id !in t.columns then t
    else
      var board, pos, gone := t.columns[id].group, t.columns[id].pos, CardsIn(t, id);
      if board !in t.columnOrders || pos < 0 || pos >= |t.columnOrders[board]| then t
      else t.(columns := CloseGap(t.columns - {id}, board, pos),
              columnOrders := t.columnOrders[board := RemoveAt(t.columnOrders[board], pos)],
              cards := t.cards - gone, cardOrders := t.cardOrders - {id},
              parent := Unlinked(t.parent, gone), chain := t.chain - gone)
  }

  /** A card that is created starts a chain. */
  function AfterNewCard(t: Tables, column: nat, input: CardInput, id: nat): Tables {
    if column !in t.cardOrders || id in t.cards then t
    else match Checked(input, Place(column, |t.cardOrders[column]|))
      case Err(_) => t
      case Ok(c) =>
        t.(cards := t.cards[id := c], cardOrders := t.cardOrders[column := t.cardOrders[column] + [id]],
           chain := t.chain[id := t.nextChain], nextChain := t.nextChain + 1)
  }

  function AfterDropCard(t: Tables, id: nat): Tables {
    if id !in t.cards then t
    else
      var column, pos := t.cards[id].place.group, t.cards[id].place.pos;
      if column !in t.cardOrders || pos < 0 || pos >= |t.cardOrders[column]| then t
      else t.(cards := WithPlaces(t.cards - {id}, CloseGap(PlacesOf(t.cards) - {id}, column, pos)),
              cardOrders := t.cardOrders[column := RemoveAt(t.cardOrders[column], pos)],
              parent := Unlinked(t.parent, {id}), chain := t.chain - {id})
  }

  /** The effect of a move on positions and orders: removal, and insertion at the index clamped to the size after it. */
  function AfterPlacing(t: Tables, id: nat, to: nat, newPos: int): Tables {
    if id !in t.cards then t
    else
      var from, oldPos := t.cards[id].place.group, t.cards[id].place.pos;
      if from !in t.cardOrders || to !in t.cardOrders || oldPos < 0 || oldPos >= |t.cardOrders[from]| then t
      else
        var orders := MovedOrders(t.cardOrders, id, from, oldPos, to, newPos);
        t.(cards := MovedCards(t.cards, id, to, Clamp(newPos, |orders[to]| - 1)), cardOrders := orders)
  }

  /** The cards after a move within the positions, before any occurrence is spawned. */
  function MovedCards(cards: Table, id: nat, to: nat, pos: nat): Table
    requires id in cards
  {
    WithPlaces(cards, Moved(PlacesOf(cards), id, to, pos))
  }

  /** The columns of a column's board, in order. */
  function BoardOf(t: Tables, column: nat): seq<nat> {
    if column in t.columns && t.columns[column].group in t.columnOrders then t.columnOrders[t.columns[column].group] else []
  }

  /** The card carries a rule and came into the last of at least two columns. */
  predicate Completes(t: Tables, id: nat, to: nat) {
    var board := BoardOf(t, to);
    && board != [] && to == board[|board| - 1] && to != board[0] && board[0] in t.cardOrders
    && id in t.cards && id in t.chain && CardOk(t.cards[id]) && t.cards[id].recur.Some?
  }

  /** The next date is not found, although there is one. */
  predicate SpawnFails(t: Tables, id: nat, to: nat) {
    Completes(t, id, to) && Next(t.cards[id].recur.value, t.cards[id].due.value.date) == ZERO_DATE
  }

  /** The effect of the spawning. The new card joins the chain of the completed one, which becomes its parent. */
  function AfterSpawn(t: Tables, id: nat, to: nat, newId: nat): Tables {
    if !Completes(t, id, to) || SpawnFails(t, id, to) || newId in t.cards then t
    else
      var c, first := t.cards[id], BoardOf(t, to)[0];
      var done := t.cards[id := c.(recur := None)];
      match Spawned(c, Place(first, |t.cardOrders[first]|))
      case None => t.(cards := done)
      case Some(n) => t.(cards := done[newId := n], cardOrders := t.cardOrders[first := t.cardOrders[first] + [newId]],
                         parent := t.parent[newId := id], chain := t.chain[newId := t.chain[id]])
  }

  /** A card moves only within its board. */
  predicate MayMove(t: Tables, id: nat, to: nat) {
    && id in t.cards && to in t.columns && t.cards[id].place.group in t.columns
    && t.columns[t.cards[id].place.group].group == t.columns[to].group
  }

  /** A spawning that fails takes the move back. */
  function AfterMove(t: Tables, id: nat, to: nat, newPos: int, newId: nat): Tables {
    var placed := AfterPlacing(t, id, to, newPos);
    if !MayMove(t, id, to) || SpawnFails(placed, id, to) then t else AfterSpawn(placed, id, to, newId)
  }

  function Step(t: Tables, op: Op): Tables {
    match op
    case NewBoard(board, ids) => AfterNewBoard(t, board, ids)
    case NewColumn(board, id) => AfterNewColumn(t, board, id)
    case DropColumn(id) => AfterDropColumn(t, id)
    case NewCard(column, input, id) => AfterNewCard(t, column, input, id)
    case DropCard(id) => AfterDropCard(t, id)
    case MoveTo(id, to, pos, newId) => AfterMove(t, id, to, pos, newId)
  }

  /** The tables after a sequence of operations on an empty database. */
  function Run(ops: seq<Op>): Tables {
    if ops == [] then EMPTY_TABLES else Step(Run(ops[..|ops| - 1]), ops[|ops| - 1])
  }

  // ---------------------------------------------------------------------- every operation keeps the tables sound

  lemma NewColumnKeeps(t: Tables, board: nat, id: nat)
    requires Sound(t)
    ensures Sound(AfterNewColumn(t, board, id))
  {
    hide Ordered, Chains, Families, PlacesOf;
    if board in t.columnOrders && id !in t.columns {
      Append(t.columns, t.columnOrders, board, id);
      EmptyGroup(PlacesOf(t.cards), t.cardOrders, id);
      SameFamilies(t, AfterNewColumn(t, board, id));
    }
  }

  lemma SameFamilies(t: Tables, u: Tables)
    requires Families(t) && u.cards == t.cards && u.parent == t.parent && u.chain == t.chain
    ensures Families(u)
  {
    hide CardOk, Precedes;
    forall l | l in u.parent ensures Child(u, u.parent[l], l) { assert Child(t, t.parent[l], l); }
  }

  lemma {:induction false} NewColumnsKeep(t: Tables, board: nat, ids: seq<nat>)
    requires Sound(t)
    ensures Sound(AfterNewColumns(t, board, ids))
  {
    hide Sound, AfterNewColumn;
    if ids != [] {
      NewColumnsKeep(t, board, ids[..|ids| - 1]);
      NewColumnKeeps(AfterNewColumns(t, board, ids[..|ids| - 1]), board, ids[|ids| - 1]);
    }
  }

  lemma NewBoardKeeps(t: Tables, board: nat, ids: seq<nat>)
    requires Sound(t)
    ensures Sound(AfterNewBoard(t, board, ids))
  {
    hide Ordered, Chains, Families, PlacesOf, AfterNewColumns;
    if board !in t.boards {
      var u := t.(boards := t.boards + {board}, columnOrders := t.columnOrders[board := []]);
      EmptyGroup(t.columns, t.columnOrders, board);
      SameFamilies(t, u);
      NewColumnsKeep(u, board, ids);
    }
  }

  lemma DropColumnKeeps(t: Tables, id: nat)
    requires Sound(t)
    ensures Sound(AfterDropColumn(t, id))
  {
    hide AllOrdered, Ordered, Chains, Families, PlacesOf, RemoveAt, CloseGap, Unlinked;
    ColumnOf(t.columns, t.columnOrders, id);
    if id in t.columns {
      var gone := CardsIn(t, id);
      Delete(t.columns, t.columnOrders, id);
      DropGroup(t.cards, t.cardOrders, id, gone);
      DropCards(t.cards, t.chain, t.nextChain, gone);
      DropFamilies(t, AfterDropColumn(t, id), gone);
    }
  }

  lemma DropFamilies(t: Tables, u: Tables, gone: set<nat>)
    requires Families(t) && u.cards.Keys == t.cards.Keys - gone && u.chain == t.chain - gone && u.parent == Unlinked(t.parent, gone)
    requires forall k :: k in u.cards ==> u.cards[k] == t.cards[k].(place := u.cards[k].place)
    ensures Families(u)
  {
    hide CardOk, Precedes;
    forall l | l in u.parent ensures Child(u, u.parent[l], l) {
      var k := t.parent[l];
      assert Child(t, k, l);
      PlaceDoesNotMatter(t.cards[k], t.cards[l], u.cards[k].place, u.cards[l].place);
    }
  }

  lemma NewCardKeeps(t: Tables, column: nat, input: CardInput, id: nat)
    requires Sound(t)
    ensures Sound(AfterNewCard(t, column, input, id))
  {
    hide Ordered, Chains, Families, PlacesOf, Checked, CardOk;
    var u := AfterNewCard(t, column, input, id);
    if column in t.cardOrders && id !in t.cards && Checked(input, Place(column, |t.cardOrders[column]|)).Ok? {
      AppendCard(t.cards, t.cardOrders, column, id, u.cards[id]);
      StartChain(t.cards, t.chain, t.nextChain, id, u.cards[id]);
      NewCardFamilies(t, u, id);
    }
  }

  lemma NewCardFamilies(t: Tables, u: Tables, id: nat)
    requires Families(t) && id !in t.cards && id in u.cards && u.cards == t.cards[id := u.cards[id]]
    requires u.parent == t.parent && id in u.chain && u.chain == t.chain[id := u.chain[id]]
    ensures Families(u)
  {
    hide CardOk, Precedes;
    forall l | l in u.parent ensures Child(u, u.parent[l], l) { assert Child(t, t.parent[l], l); }
  }

  lemma DropCardKeeps(t: Tables, id: nat)
    requires Sound(t)
    ensures Sound(AfterDropCard(t, id))
  {
    hide AllOrdered, Ordered, Chains, Families, RemoveAt, CloseGap, Unlinked;
    ColumnOf(PlacesOf(t.cards), t.cardOrders, id);
    if id in t.cards {
      var column, pos, u := t.cards[id].place.group, t.cards[id].place.pos, AfterDropCard(t, id);
      Delete(PlacesOf(t.cards), t.cardOrders, id);
      DropCards(t.cards, t.chain, t.nextChain, {id});
      PlacesDoNotMatter(t.cards - {id}, CloseGap(PlacesOf(t.cards) - {id}, column, pos), t.chain - {id}, t.nextChain);
      DropFamilies(t, u, {id});
    }
  }

  lemma PlacingKeeps(t: Tables, id: nat, to: nat, newPos: int)
    requires Sound(t)
    ensures Sound(AfterPlacing(t, id, to, newPos))
  {
    hide AllOrdered, Ordered, Chains, Families, Moved, MovedOrders, Clamp;
    ColumnOf(PlacesOf(t.cards), t.cardOrders, id);
    if id in t.cards && to in t.cardOrders {
      MoveClamped(PlacesOf(t.cards), t.cardOrders, id, to, newPos);
      var count := |t.cardOrders[to]| - (if to == t.cards[id].place.group then 1 else 0);
      PlacesDoNotMatter(t.cards, Moved(PlacesOf(t.cards), id, to, Clamp(newPos, count)), t.chain, t.nextChain);
      PlacedFamilies(t, AfterPlacing(t, id, to, newPos));
    }
  }

  lemma PlacedFamilies(t: Tables, u: Tables)
    requires Families(t) && u.parent == t.parent && u.chain == t.chain && u.cards.Keys == t.cards.Keys
    requires forall k :: k in u.cards ==> u.cards[k] == t.cards[k].(place := u.cards[k].place)
    ensures Families(u)
  {
    hide CardOk, Precedes;
    forall l | l in u.parent ensures Child(u, u.parent[l], l) {
      var k := t.parent[l];
      assert Child(t, k, l);
      PlaceDoesNotMatter(t.cards[k], t.cards[l], u.cards[k].place, u.cards[l].place);
    }
  }

  lemma PlaceDoesNotMatter(a: Card, b: Card, p: Place, q: Place)
    requires CardOk(a) && CardOk(b) && Precedes(a, b)
    ensures CardOk(a.(place := p)) && CardOk(b.(place := q)) && Precedes(a.(place := p), b.(place := q))
  {
    hide DayNumber;
  }

  lemma SpawnKeeps(t: Tables, id: nat, to: nat, newId: nat)
    requires Sound(t)
    ensures Sound(AfterSpawn(t, id, to, newId))
  {
    hide Ordered, Chains, Families, PlacesOf, Spawned, CardOk, SpawnFails;
    var board, u := BoardOf(t, to), AfterSpawn(t, id, to, newId);
    if u != t {
      var c, first := t.cards[id], board[0];
      DropRulePlaces(t.cards, id);
      match Spawned(c, Place(first, |t.cardOrders[first]|))
      case None =>
        DropRule(t.cards, t.chain, t.nextChain, id);
        DropRuleFamilies(t, u, id);
      case Some(n) =>
        SpawnedPlace(c, Place(first, |t.cardOrders[first]|));
        AppendCard(t.cards[id := c.(recur := None)], t.cardOrders, first, newId, n);
        Spawn(t.cards, t.chain, t.nextChain, id, newId, Place(first, |t.cardOrders[first]|));
        SpawnFamilies(t, u, id, newId, Place(first, |t.cardOrders[first]|));
    }
  }

  lemma SpawnedPlace(c: Card, place: Place)
    requires CardOk(c) && c.recur.Some? && Spawned(c, place).Some?
    ensures Spawned(c, place).value.place == place
  {
  }

  lemma DropRuleFamilies(t: Tables, u: Tables, id: nat)
    requires Families(t) && id in t.cards && u.cards == t.cards[id := t.cards[id].(recur := None)]
    requires u.parent == t.parent && u.chain == t.chain
    ensures Families(u)
  {
    forall l | l in u.parent ensures Child(u, u.parent[l], l) { assert Child(t, t.parent[l], l); }
  }

  /** The completed card had a rule, so it had no child yet. */
  lemma SpawnFamilies(t: Tables, u: Tables, id: nat, newId: nat, place: Place)
    requires Families(t) && id in t.cards && newId !in t.cards && id in t.chain
    requires CardOk(t.cards[id]) && t.cards[id].recur.Some? && Spawned(t.cards[id], place).Some?
    requires u.cards == t.cards[id := t.cards[id].(recur := None)][newId := Spawned(t.cards[id], place).value]
    requires u.parent == t.parent[newId := id] && u.chain == t.chain[newId := t.chain[id]]
    ensures Families(u)
  {
    hide Spawned, CardOk, Precedes;
    var c, n := t.cards[id], Spawned(t.cards[id], place).value;
    SpawnedIsChild(c, place);
    forall l | l in t.parent ensures l in u.cards && t.parent[l] in u.cards && Child(u, t.parent[l], l) && t.parent[l] != id {
      assert Child(t, t.parent[l], l);
      RuleDoesNotMatter(t.cards[t.parent[l]], t.cards[l]);
    }
  }

  lemma SpawnedIsChild(c: Card, place: Place)
    requires CardOk(c) && c.recur.Some? && Spawned(c, place).Some?
    ensures CardOk(c.(recur := None)) && CardOk(Spawned(c, place).value) && Precedes(c.(recur := None), Spawned(c, place).value)
  {
    SpawnedKeepsSpan(c, place);
    SpawnFollows(c.(recur := None), c, Spawned(c, place).value, place);
  }

  /** A rule on the later card; the earlier one has none. */
  lemma RuleDoesNotMatter(a: Card, b: Card)
    requires CardOk(a) && CardOk(b) && Precedes(a, b)
    ensures a.recur == None && CardOk(b.(recur := None)) && Precedes(a, b.(recur := None))
  {
    hide DayNumber, AddDays;
  }

  /** What every operation keeps. */
  lemma StepKeeps(t: Tables, op: Op)
    requires Sound(t)
    ensures Sound(Step(t, op))
  {
    hide Sound, AfterNewBoard, AfterNewColumn, AfterDropColumn, AfterNewCard, AfterDropCard, AfterPlacing, AfterSpawn, SpawnFails;
    match op
    case NewBoard(board, ids) => NewBoardKeeps(t, board, ids);
    case NewColumn(board, id) => NewColumnKeeps(t, board, id);
    case DropColumn(id) => DropColumnKeeps(t, id);
    case NewCard(column, input, id) => NewCardKeeps(t, column, input, id);
    case DropCard(id) => DropCardKeeps(t, id);
    case MoveTo(id, to, pos, newId) =>
      PlacingKeeps(t, id, to, pos);
      SpawnKeeps(AfterPlacing(t, id, to, pos), id, to, newId);
  }

  lemma EmptyIsSound()
    ensures Sound(EMPTY_TABLES)
  {
  }

  lemma {:induction false} RunIsSound(ops: seq<Op>)
    ensures Sound(Run(ops))
  {
    hide Sound, Step;
    if ops == [] {
      EmptyIsSound();
    } else {
      RunIsSound(ops[..|ops| - 1]);
      StepKeeps(Run(ops[..|ops| - 1]), ops[|ops| - 1]);
    }
  }

  // ---------------------------------------------------------------------- completions in a row

  /** Card l came about from card k by so many completions in a row. */
  predicate Descends(parent: map<nat, nat>, k: nat, l: nat, n: nat)
    decreases n
  {
    n > 0 && l in parent && (if n == 1 then parent[l] == k else Descends(parent, k, parent[l], n - 1))
  }

  lemma PrecedesTwice(a: Card, b: Card, c: Card)
    requires CardOk(a) && CardOk(b) && CardOk(c) && Precedes(a, b) && Precedes(b, c)
    ensures Precedes(a, c)
  {
    hide DayNumber;
  }

  lemma {:induction false} DescendantFollows(t: Tables, k: nat, l: nat, n: nat)
    requires Families(t) && Descends(t.parent, k, l, n)
    ensures k in t.cards && l in t.cards && Child(t, k, l)
    decreases n
  {
    var p := t.parent[l];
    assert Child(t, p, l);
    if n > 1 {
      DescendantFollows(t, k, p, n - 1);
      hide Precedes;
      PrecedesTwice(t.cards[k], t.cards[p], t.cards[l]);
    }
  }

  /**
   * Whatever operations came before: a card that came about from another by completions is due later and
   * not past the last date, at the same time of day, spans as many days, and of the two only it can carry
   * a rule. No card has two successors.
   */
  lemma CompletionsInARow(ops: seq<Op>, k: nat, l: nat, n: nat)
    requires Descends(Run(ops).parent, k, l, n)
    ensures var t := Run(ops);
            && k in t.cards && l in t.cards && CardOk(t.cards[k]) && CardOk(t.cards[l])
            && t.cards[k].recur == None
            && t.cards[k].due.Some? && t.cards[l].due.Some?
            && Before(t.cards[k].due.value.date, t.cards[l].due.value.date)
            && t.cards[k].due.value.clock == t.cards[l].due.value.clock
            && (t.cards[k].until.Some? ==> !Before(t.cards[k].until.value, t.cards[l].due.value.date))
            && t.cards[k].end.Some? == t.cards[l].end.Some?
            && (t.cards[k].end.Some? ==> Span(t.cards[k]) == Span(t.cards[l]))
    ensures forall m :: m in Run(ops).parent && Run(ops).parent[m] == Run(ops).parent[l] ==> m == l
  {
    hide Run, AllOrdered, Chains;
    RunIsSound(ops);
    DescendantFollows(Run(ops), k, l, n);
  }

  /** Also where a card between them has been deleted: of two cards of a chain one precedes the other. */
  lemma ChainsOfRuns(ops: seq<Op>, k: nat, l: nat)
    requires k in Run(ops).cards && l in Run(ops).cards && k in Run(ops).chain && l in Run(ops).chain
    requires k != l && Run(ops).chain[k] == Run(ops).chain[l]
    ensures CardOk(Run(ops).cards[k]) && CardOk(Run(ops).cards[l]) && Linked(Run(ops).cards[k], Run(ops).cards[l])
  {
    hide Run, AllOrdered, Families;
    RunIsSound(ops);
  }

  // ---------------------------------------------------------------------- a series from its creation on

  /** A card of the series that this first card started. */
  predicate OfSeries(c: Card, first: Card)
    requires CardOk(c) && CardOk(first)
  {
    && c.until == first.until && (c.recur == first.recur || c.recur == None)
    && (c.due == first.due || (
          && c.due.Some? && first.due.Some? && Before(first.due.value.date, c.due.value.date)
          && c.due.value.clock == first.due.value.clock
          && (first.until.Some? ==> !Before(first.until.value, c.due.value.date))))
    && c.end.Some? == first.end.Some? && (c.end.Some? ==> Span(c) == Span(first))
  }

  /** All cards of the chain belong to the series. */
  ghost predicate Series(t: Tables, q: nat, first: Card) {
    && CardOk(first) && q < t.nextChain
    && forall k :: k in t.cards && k in t.chain && t.chain[k] == q ==> CardOk(t.cards[k]) && OfSeries(t.cards[k], first)
  }

  lemma SeriesAnywhere(c: Card, first: Card, p: Place)
    requires CardOk(c) && CardOk(first) && OfSeries(c, first)
    ensures CardOk(c.(place := p)) && OfSeries(c.(place := p), first)
    ensures CardOk(c.(recur := None)) && OfSeries(c.(recur := None), first)
  {
    hide DayNumber;
  }

  /** Completing a card of a series makes a card of it. */
  lemma SeriesGoesOn(c: Card, first: Card, place: Place)
    requires CardOk(c) && CardOk(first) && OfSeries(c, first) && c.recur.Some? && Spawned(c, place).Some?
    ensures CardOk(Spawned(c, place).value) && OfSeries(Spawned(c, place).value, first)
  {
    hide DayNumber, AddDays, Next;
    SpawnedKeepsSpan(c, place);
  }

  /** The chain keeps its cards but for their places and rules. */
  lemma SameSeries(t: Tables, u: Tables, q: nat, first: Card)
    requires Series(t, q, first) && u.nextChain >= t.nextChain
    requires forall k :: k in u.cards && k in u.chain && u.chain[k] == q ==>
               && k in t.cards && k in t.chain && t.chain[k] == q
               && (u.cards[k] == t.cards[k].(place := u.cards[k].place) || u.cards[k] == t.cards[k].(recur := None))
    ensures Series(u, q, first)
  {
    hide CardOk, OfSeries;
    forall k | k in u.cards && k in u.chain && u.chain[k] == q ensures CardOk(u.cards[k]) && OfSeries(u.cards[k], first) {
      SeriesAnywhere(t.cards[k], first, u.cards[k].place);
    }
  }

  lemma {:induction false} ColumnsKeepSeries(t: Tables, board: nat, ids: seq<nat>)
    ensures var u := AfterNewColumns(t, board, ids); u.cards == t.cards && u.chain == t.chain && u.nextChain == t.nextChain
  {
    if ids != [] { ColumnsKeepSeries(t, board, ids[..|ids| - 1]); }
  }

  lemma SpawnKeepsSeries(t: Tables, id: nat, to: nat, newId: nat, q: nat, first: Card)
    requires Sound(t) && Series(t, q, first)
    ensures Series(AfterSpawn(t, id, to, newId), q, first)
  {
    hide AllOrdered, Chains, Families, CardOk, OfSeries, Spawned, SpawnFails;
    var u := AfterSpawn(t, id, to, newId);
    if u != t {
      var c, place := t.cards[id], Place(BoardOf(t, to)[0], |t.cardOrders[BoardOf(t, to)[0]]|);
      forall k | k in u.cards && k in u.chain && u.chain[k] == q ensures CardOk(u.cards[k]) && OfSeries(u.cards[k], first) {
        if k == newId && newId !in t.cards && Spawned(c, place).Some? {
          SeriesGoesOn(c, first, place);
        } else {
          SeriesAnywhere(t.cards[k], first, u.cards[k].place);
        }
      }
    }
  }

  lemma StepKeepsSeries(t: Tables, op: Op, q: nat, first: Card)
    requires Sound(t) && Series(t, q, first)
    ensures Series(Step(t, op), q, first)
  {
    hide Sound, Series, AfterNewBoard, AfterNewColumn, AfterDropColumn, AfterNewCard, AfterDropCard, AfterMove;
    match op
    case NewBoard(board, ids) => BoardKeepsSeries(t, board, ids, q, first);
    case NewColumn(board, id) => ColumnKeepsSeries(t, board, id, q, first);
    case DropColumn(id) => DropsKeepSeries(t, id, q, first);
    case NewCard(column, input, id) => NewCardKeepsSeries(t, column, input, id, q, first);
    case DropCard(id) => DropsKeepSeries(t, id, q, first);
    case MoveTo(id, to, pos, newId) => MoveKeepsSeries(t, id, to, pos, newId, q, first);
  }

  lemma BoardKeepsSeries(t: Tables, board: nat, ids: seq<nat>, q: nat, first: Card)
    requires Series(t, q, first)
    ensures Series(AfterNewBoard(t, board, ids), q, first)
  {
    hide Series, AfterNewColumns;
    ColumnsKeepSeries(t.(boards := t.boards + {board}, columnOrders := t.columnOrders[board := []]), board, ids);
    SameSeries(t, AfterNewBoard(t, board, ids), q, first);
  }

  lemma ColumnKeepsSeries(t: Tables, board: nat, id: nat, q: nat, first: Card)
    requires Series(t, q, first)
    ensures Series(AfterNewColumn(t, board, id), q, first)
  {
    hide Series;
    SameSeries(t, AfterNewColumn(t, board, id), q, first);
  }

  lemma DropsKeepSeries(t: Tables, id: nat, q: nat, first: Card)
    requires Sound(t) && Series(t, q, first)
    ensures Series(AfterDropColumn(t, id), q, first) && Series(AfterDropCard(t, id), q, first)
  {
    hide AllOrdered, Families, CardOk, OfSeries, Series;
    SameSeries(t, AfterDropColumn(t, id), q, first);
    SameSeries(t, AfterDropCard(t, id), q, first);
  }

  lemma MoveKeepsSeries(t: Tables, id: nat, to: nat, pos: int, newId: nat, q: nat, first: Card)
    requires Sound(t) && Series(t, q, first)
    ensures Series(AfterMove(t, id, to, pos, newId), q, first)
  {
    hide Sound, Series, AfterSpawn, SpawnFails, MayMove;
    PlacingKeeps(t, id, to, pos);
    SameSeries(t, AfterPlacing(t, id, to, pos), q, first);
    SpawnKeepsSeries(AfterPlacing(t, id, to, pos), id, to, newId, q, first);
  }

  lemma NewCardKeepsSeries(t: Tables, column: nat, input: CardInput, id: nat, q: nat, first: Card)
    requires Sound(t) && Series(t, q, first)
    ensures Series(AfterNewCard(t, column, input, id), q, first)
  {
    hide AllOrdered, Families, CardOk, OfSeries, Checked;
  }

  lemma {:induction false} RunKeepsSeries(ops: seq<Op>, j: nat, q: nat, first: Card)
    requires j <= |ops| && Series(Run(ops[..j]), q, first)
    ensures Series(Run(ops), q, first)
    decreases |ops|
  {
    hide Sound, Series, Step;
    if j == |ops| {
      assert ops[..j] == ops;
    } else {
      var front := ops[..|ops| - 1];
      assert front[..j] == ops[..j];
      RunKeepsSeries(front, j, q, first);
      RunIsSound(front);
      StepKeepsSeries(Run(front), ops[|ops| - 1], q, first);
    }
  }

  /** The creation of a card is accepted after the operations before it. */
  predicate Creates(t: Tables, op: Op) {
    op.NewCard? && op.column in t.cardOrders && op.id !in t.cards && Checked(op.input, Place(0, 0)).Ok?
  }

  lemma SeriesStarts(t: Tables, op: Op)
    requires Sound(t) && Creates(t, op)
    ensures Series(Step(t, op), t.nextChain, Checked(op.input, Place(0, 0)).value)
  {
    hide AllOrdered, Families;
    var place := Place(op.column, |t.cardOrders[op.column]|);
    assert Checked(op.input, place).Ok? && Checked(op.input, place).value == Checked(op.input, Place(0, 0)).value.(place := place);
    assert forall k :: k in t.chain ==> t.chain[k] < t.nextChain;
  }

  /**
   * What a card was created with stays with its series in every run: each card of it has the last date
   * that was entered and lies within it unless it is due as entered, keeps the time of day and the days
   * that the card spans, and carries the rule of the creation or none.
   */
  lemma SeriesOfACreation(ops: seq<Op>, j: nat, k: nat)
    requires j < |ops| && Creates(Run(ops[..j]), ops[j])
    requires k in Run(ops).cards && k in Run(ops).chain && Run(ops).chain[k] == Run(ops[..j]).nextChain
    ensures var input, c, rule := ops[j].input, Run(ops).cards[k], Expand(ops[j].input.recur, ops[j].input.due);
            && c.until == input.until && rule.Ok? && (c.recur == rule.value || c.recur == None)
            && (c.due != input.due ==>
                  && c.due.Some? && input.due.Some? && Before(input.due.value.date, c.due.value.date)
                  && c.due.value.clock == input.due.value.clock
                  && (input.until.Some? ==> !Before(input.until.value, c.due.value.date)))
            && c.end.Some? == input.end.Some?
  {
    hide Sound, Series, Step, Run;
    var t := Run(ops[..j]);
    RunIsSound(ops[..j]);
    SeriesStarts(t, ops[j]);
    assert Run(ops[..j + 1]) == Step(t, ops[j]) by { OneMoreStep(ops, j); }
    RunKeepsSeries(ops, j + 1, t.nextChain, Checked(ops[j].input, Place(0, 0)).value);
    MemberOfSeries(Run(ops), t.nextChain, Checked(ops[j].input, Place(0, 0)).value, k);
  }

  lemma MemberOfSeries(t: Tables, q: nat, first: Card, k: nat)
    requires Series(t, q, first) && k in t.cards && k in t.chain && t.chain[k] == q
    ensures CardOk(first) && CardOk(t.cards[k]) && OfSeries(t.cards[k], first)
  {
  }

  lemma OneMoreStep(ops: seq<Op>, j: nat)
    requires j < |ops|
    ensures Run(ops[..j + 1]) == Step(Run(ops[..j]), ops[j])
  {
    hide Step;
    assert ops[..j + 1][..j] == ops[..j];
  }

  /**
   * The cards that came about from a created card by completions: due within the last date that was
   * entered, and carrying the rule of the creation or none.
   */
  lemma DescendantsOfACreation(ops: seq<Op>, j: nat, l: nat, n: nat)
    requires j < |ops| && Creates(Run(ops[..j]), ops[j]) && Descends(Run(ops).parent, ops[j].id, l, n)
    requires ops[j].id in Run(ops).chain && Run(ops).chain[ops[j].id] == Run(ops[..j]).nextChain
    ensures l in Run(ops).cards
    ensures var input, c, rule := ops[j].input, Run(ops).cards[l], Expand(ops[j].input.recur, ops[j].input.due);
            && c.due.Some? && input.due.Some? && Before(input.due.value.date, c.due.value.date)
            && c.until == input.until && (input.until.Some? ==> !Before(input.until.value, c.due.value.date))
            && rule.Ok? && (c.recur == rule.value || c.recur == None)
  {
    hide Run, AllOrdered, Chains;
    RunIsSound(ops);
    DescendantFollows(Run(ops), ops[j].id, l, n);
    hide CardOk, Families, Descends, Creates;
    SeriesOfACreation(ops, j, ops[j].id);
    SeriesOfACreation(ops, j, l);
  }

  /** A new board has its three columns at the positions 0 to 2, and they are empty. */
  lemma ThreeColumns(t: Tables, board: nat, a: nat, b: nat, c: nat)
    requires board !in t.boards && a !in t.columns && b !in t.columns && c !in t.columns && a != b && b != c && a != c
    ensures Step(t, NewBoard(board, [a, b, c])) ==
            t.(boards := t.boards + {board}, columnOrders := t.columnOrders[board := [a, b, c]],
               columns := t.columns[a := Place(board, 0)][b := Place(board, 1)][c := Place(board, 2)],
               cardOrders := t.cardOrders[a := []][b := []][c := []])
  {
    hide AfterNewColumns, AfterNewColumn;
    var s := t.(boards := t.boards + {board}, columnOrders := t.columnOrders[board := []]);
    OneByOne(s, board, a, b, c);
    OneColumn(s, board, [], a, [a]);
    var s1 := AfterNewColumn(s, board, a);
    OneColumn(s1, board, [a], b, [a, b]);
    var s2 := AfterNewColumn(s1, board, b);
    OneColumn(s2, board, [a, b], c, [a, b, c]);
    Overwritten(t.columnOrders, board, [], [a]);
    Overwritten(t.columnOrders, board, [a], [a, b]);
    Overwritten(t.columnOrders, board, [a, b], [a, b, c]);
  }

  lemma Overwritten<T>(m: map<nat, T>, k: nat, x: T, y: T)
    ensures m[k := x][k := y] == m[k := y]
  {
  }

  lemma OneByOne(t: Tables, board: nat, a: nat, b: nat, c: nat)
    ensures AfterNewColumns(t, board, [a, b, c]) == AfterNewColumn(AfterNewColumn(AfterNewColumn(t, board, a), board, b), board, c)
  {
    hide AfterNewColumns, AfterNewColumn;
    var ids := [a, b, c];
    NoColumnsYet(t, board);
    OneMoreColumn(t, board, ids, 0);
    OneMoreColumn(t, board, ids, 1);
    OneMoreColumn(t, board, ids, 2);
    assert ids[..0] == [] && ids[..3] == ids;
  }

  lemma OneColumn(t: Tables, board: nat, ids: seq<nat>, id: nat, more: seq<nat>)
    requires board in t.columnOrders && t.columnOrders[board] == ids && id !in t.columns && more == ids + [id]
    ensures AfterNewColumn(t, board, id) ==
            t.(columns := t.columns[id := Place(board, |ids|)], columnOrders := t.columnOrders[board := more],
               cardOrders := t.cardOrders[id := []])
  {
  }

  /**
   * Once a recurring card has come into the last column, it loses its rule to a child: due at the next
   * date at the same time of day, at the end of the first column, in the same chain and with the same rule,
   * last date and span. There is none past the last date, and nothing happens if no next date is found.
   */
  lemma FirstCompletion(t: Tables, id: nat, to: nat, newId: nat)
    requires Sound(t) && id in t.cards && newId !in t.cards && t.cards[id].recur.Some?
    requires var board := BoardOf(t, to); |board| > 1 && to == board[|board| - 1]
    ensures CardOk(t.cards[id]) && BoardOf(t, to)[0] in t.cardOrders
    ensures var u, c, first := AfterSpawn(t, id, to, newId), t.cards[id], BoardOf(t, to)[0];
            var next := Next(c.recur.value, c.due.value.date);
            && SpawnFails(t, id, to) == (next == ZERO_DATE)
            && if next == ZERO_DATE then u == t
               else
                 && id in u.cards && u.cards[id] == c.(recur := None)
                 && (forall k :: k in t.cards && k != id ==> k in u.cards && u.cards[k] == t.cards[k])
                 && if c.until.Some? && Before(c.until.value, next) then u.cards.Keys == t.cards.Keys && u.parent == t.parent
                    else
                      && newId in u.cards && IsChild(c, u.cards[newId], Due(next, c.due.value.clock))
                      && u.cards[newId].place == Place(first, |t.cardOrders[first]|)
                      && Descends(u.parent, id, newId, 1) && newId in u.chain && u.chain[newId] == t.chain[id]
  {
    hide Chains, Families, Spawned, CardOk, AllOrdered, Ordered, Next, IsChild;
    OkOf(t.cards, t.chain, t.nextChain, id);
    OrderOf(t.columns, t.columnOrders, to);
    FirstHasOrder(t.columns, t.columnOrders, t.columns[to].group, PlacesOf(t.cards), t.cardOrders);
    EndsDiffer(t.columns, t.columns[to].group, BoardOf(t, to));
    var first := BoardOf(t, to)[0];
    ChildOf(t.cards[id], Place(first, |t.cardOrders[first]|));
  }

  /** The next card: due then, with the rule, the last date and the span of the completed one. */
  predicate IsChild(c: Card, n: Card, due: Due)
    requires CardOk(c)
  {
    && CardOk(n) && n.due == Some(due) && n.recur == c.recur && n.until == c.until
    && n.end.Some? == c.end.Some? && (c.end.Some? ==> Span(n) == Span(c) && n.end.value.clock == c.end.value.clock)
  }

  lemma ChildOf(c: Card, place: Place)
    requires CardOk(c) && c.recur.Some?
    ensures var next, s := Next(c.recur.value, c.due.value.date), Spawned(c, place);
            if c.until.Some? && Before(c.until.value, next) then s == None
            else s.Some? && s.value.place == place && IsChild(c, s.value, Due(next, c.due.value.clock))
  {
    hide Next, AddDays, DayNumber;
    if Spawned(c, place).Some? { SpawnedKeepsSpan(c, place); }
  }

  lemma EndsDiffer(p: Places, g: nat, order: seq<nat>)
    requires Ordered(p, g, order) && |order| > 1
    ensures order[0] != order[|order| - 1]
  {
    assert p[order[0]].pos == 0 && p[order[|order| - 1]].pos == |order| - 1;
  }

  // ---------------------------------------------------------------------- steps of the proofs

  lemma FirstHasOrder(columns: Places, columnOrders: map<nat, seq<nat>>, board: nat, p: Places,
                      cardOrders: map<nat, seq<nat>>)
    requires AllOrdered(columns, columnOrders) && AllOrdered(p, cardOrders) && cardOrders.Keys == columns.Keys
    requires board in columnOrders && columnOrders[board] != []
    ensures var first := columnOrders[board][0];
            first in cardOrders && Ordered(p, first, cardOrders[first])
  {
    assert Ordered(columns, board, columnOrders[board]);
  }

  lemma OkOf(cards: Table, chain: map<nat, nat>, next: nat, id: nat)
    requires Chains(cards, chain, next) && id in cards
    ensures CardOk(cards[id]) && id in chain
    ensures cards[id].recur.Some? ==> cards[id].due.Some? && cards[id].recur.value.Valid() && cards[id].due.value.date.Valid()
  {
  }

  lemma NoColumnsYet(t: Tables, board: nat)
    ensures AfterNewColumns(t, board, []) == t
  {
  }

  lemma OneMoreColumn(t: Tables, board: nat, ids: seq<nat>, i: nat)
    requires i < |ids|
    ensures AfterNewColumns(t, board, ids[..i + 1]) == AfterNewColumn(AfterNewColumns(t, board, ids[..i]), board, ids[i])
  {
    hide AfterNewColumn;
    assert ids[..i + 1][..i] == ids[..i];
  }

  lemma OrderOf(columns: Places, orders: map<nat, seq<nat>>, id: nat)
    requires AllOrdered(columns, orders) && id in columns
    ensures var g := columns[id].group;
            g in orders && Ordered(columns, g, orders[g]) && orders[g] != []
  {
  }

  lemma DropRulePlaces(cards: Table, id: nat)
    requires id in cards
    ensures PlacesOf(cards[id := cards[id].(recur := None)]) == PlacesOf(cards)
  {
  }

  lemma {:induction false} MoveClamped(p: Places, orders: map<nat, seq<nat>>, id: nat, to: nat, newPos: int)
    requires AllOrdered(p, orders) && id in p && to in orders
    ensures var from, oldPos := p[id].group, p[id].pos;
            && from in orders && 0 <= oldPos < |orders[from]|
            && var count := |orders[to]| - (if to == from then 1 else 0);
            && count >= 0
            && var r := MovedOrders(orders, id, from, oldPos, to, newPos);
            && to in r && |r[to]| - 1 == count && r.Keys == orders.Keys
            && AllOrdered(Moved(p, id, to, Clamp(newPos, count)), r)
  {
    hide Ordered, CloseGap, OpenGap, RemoveAt, InsertAt;
    Delete(p, orders, id);
    var count := |orders[to]| - (if to == p[id].group then 1 else 0);
    Move(p, orders, id, to, Clamp(newPos, count));
  }

  lemma ColumnOf(p: Places, orders: map<nat, seq<nat>>, id: nat)
    requires AllOrdered(p, orders)
    ensures id in p ==> p[id].group in orders && 0 <= p[id].pos < |orders[p[id].group]|
  {
    if id in p { assert Ordered(p, p[id].group, orders[p[id].group]); }
  }

  lemma OrderedColumn(p: Places, orders: map<nat, seq<nat>>, g: nat)
    requires AllOrdered(p, orders)
    ensures g in orders ==> Ordered(p, g, orders[g])
  {
  }

  lemma AppendCard(cards: Table, orders: map<nat, seq<nat>>, column: nat, id: nat, c: Card)
    requires AllOrdered(PlacesOf(cards), orders) && column in orders && id !in cards
    requires c.place == Place(column, |orders[column]|)
    ensures AllOrdered(PlacesOf(cards[id := c]), orders[column := orders[column] + [id]])
  {
    hide AllOrdered;
    Append(PlacesOf(cards), orders, column, id);
    assert PlacesOf(cards[id := c]) == PlacesOf(cards)[id := c.place];
  }

  lemma EmptyGroup(p: Places, orders: map<nat, seq<nat>>, g: nat)
    requires AllOrdered(p, orders) && g !in orders
    ensures AllOrdered(p, orders[g := []])
  {
  }

  lemma DropGroup(cards: Table, orders: map<nat, seq<nat>>, g: nat, gone: set<nat>)
    requires AllOrdered(PlacesOf(cards), orders)
    requires gone == set k | k in cards && cards[k].place.group == g
    ensures AllOrdered(PlacesOf(cards - gone), orders - {g})
    ensures cards - gone == map k | k in cards && cards[k].place.group != g :: cards[k]
  {
  }
}
