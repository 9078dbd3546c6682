/**
 * Boards as their users see them: lists of columns, lists of cards, and what stands on each card. The tables,
 * which keep rows with position numbers, do to these lists exactly what each operation is meant to do.
 */
module BoardLists {
  import opened Bytes
  import opened Calendar
  import opened Recurrence
  import opened Positions
  import opened CardChains
  import opened CardSteps

  datatype Content = Content(due: Option<Due>, end: Option<Due>, recur: Option<Rule>, until: Option<Date>)

  /** The columns of each board, the cards of each column, and what stands on the cards. */
  datatype Lists = Lists(columns: map<nat, seq<nat>>, cards: map<nat, seq<nat>>, what: map<nat, Content>)

  function ContentOf(c: Card): Content { Content(c.due, c.end, c.recur, c.until) }

  function Contents(cards: Table): map<nat, Content> { map k | k in cards :: ContentOf(cards[k]) }

  function ListsOf(t: Tables): Lists { Lists(t.columnOrders, t.cardOrders, Contents(t.cards)) }

  // ---------------------------------------------------------------------- lists and positions

  lemma {:induction false} NothingWithout(s: seq<nat>, id: nat)
    requires id !in s
    ensures Without(s, id) == s
  {
    if s != [] {
      NothingWithout(s[1..], id);
      assert [s[0]] + s[1..] == s;
    }
  }

  /** Removing a row at its position is removing it from the list. */
  lemma {:induction false} RemovedRow(p: Places, orders: map<nat, seq<nat>>, id: nat)
    requires AllOrdered(p, orders) && id in p
    ensures p[id].group in orders && 0 <= p[id].pos < |orders[p[id].group]|
    ensures RemoveAt(orders[p[id].group], p[id].pos) == Without(orders[p[id].group], id)
  {
    hide Without, RemoveAt;
    var g := p[id].group;
    assert Ordered(p, g, orders[g]);
    var order, i := orders[g], p[id].pos;
    assert order[i] == id;
    RemovedOnly(order, i);
    var r := RemoveAt(order, i);
    forall j | 0 <= j < |r| ensures r[j] != id {
      var from := if j < i then j else j + 1;
      assert p[order[from]] == Place(g, from);
    }
    NothingWithout(r, id);
  }

  /** A row in a list is in that group and in no other. */
  lemma InList(p: Places, orders: map<nat, seq<nat>>, g: nat, id: nat)
    requires AllOrdered(p, orders) && g in orders
    ensures id in orders[g] <==> id in p && p[id].group == g
  {
    assert Ordered(p, g, orders[g]);
  }

  lemma PlacesAgree(cards: Table, places: Places)
    requires places.Keys == cards.Keys
    ensures Contents(WithPlaces(cards, places)) == Contents(cards)
  {
  }

  // ---------------------------------------------------------------------- columns and boards

  lemma ColumnAdded(t: Tables, board: nat, id: nat)
    requires Sound(t)
    ensures var l := ListsOf(t);
            ListsOf(Step(t, NewColumn(board, id))) ==
              if board in l.columns && id !in l.cards
              then Lists(l.columns[board := l.columns[board] + [id]], l.cards[id := []], l.what)
              else l
  {
    hide AllOrdered, Chains, Families, Contents;
  }

  /** Empty columns under the given identifiers. */
  function EmptyColumns(ids: seq<nat>): map<nat, seq<nat>> { map id | id in ids :: [] }

  /** The tables with the columns added, whatever the positions. */
  predicate HasColumns(t: Tables, board: nat, ids: seq<nat>, u: Tables) {
    && u.columnOrders == t.columnOrders[board := ids] && u.cardOrders == t.cardOrders + EmptyColumns(ids)
    && u.cards == t.cards && u.columns.Keys == t.columns.Keys + (set id | id in ids)
  }

  lemma {:induction false} ColumnsAdded(t: Tables, board: nat, ids: seq<nat>)
    requires board in t.columnOrders && t.columnOrders[board] == []
    requires Distinct(ids) && forall id :: id in ids ==> id !in t.columns
    ensures HasColumns(t, board, ids, AfterNewColumns(t, board, ids))
  {
    hide HasColumns;
    if ids == [] {
      NoColumns(t, board);
    } else {
      var n := |ids| - 1;
      assert Distinct(ids[..n]);
      ColumnsAdded(t, board, ids[..n]);
      assert forall i :: 0 <= i < n ==> ids[..n][i] != ids[n];
      OneColumnMore(t, board, ids[..n], ids[n], AfterNewColumns(t, board, ids[..n]));
      assert ids[..n] + [ids[n]] == ids;
    }
  }

  lemma NoColumns(t: Tables, board: nat)
    requires board in t.columnOrders && t.columnOrders[board] == []
    ensures HasColumns(t, board, [], t)
  {
    assert t.columnOrders[board := []] == t.columnOrders;
    assert t.cardOrders + EmptyColumns([]) == t.cardOrders;
  }

  lemma OneColumnMore(t: Tables, board: nat, ids: seq<nat>, id: nat, u: Tables)
    requires board in t.columnOrders && HasColumns(t, board, ids, u) && id !in ids && id !in t.columns
    ensures HasColumns(t, board, ids + [id], AfterNewColumn(u, board, id))
  {
    hide EmptyColumns;
    MoreEmptyColumns(t.cardOrders, ids, id);
    assert (set k | k in ids + [id]) == (set k | k in ids) + {id};
    assert t.columnOrders[board := ids][board := ids + [id]] == t.columnOrders[board := ids + [id]];
  }

  lemma MoreEmptyColumns(orders: map<nat, seq<nat>>, ids: seq<nat>, id: nat)
    ensures orders + EmptyColumns(ids + [id]) == (orders + EmptyColumns(ids))[id := []]
  {
  }

  lemma BoardAdded(t: Tables, board: nat, ids: seq<nat>)
    requires Sound(t) && Distinct(ids) && forall id :: id in ids ==> id !in t.cardOrders
    ensures var l := ListsOf(t);
            ListsOf(Step(t, NewBoard(board, ids))) ==
              if board in l.columns then l
              else Lists(l.columns[board := ids], l.cards + EmptyColumns(ids), l.what)
  {
    hide AllOrdered, Chains, Families, EmptyColumns, AfterNewColumns;
    if board !in t.boards {
      ColumnsAdded(t.(boards := t.boards + {board}, columnOrders := t.columnOrders[board := []]), board, ids);
    }
  }

  /** A column that is dropped takes its cards with it, and the others of its board move up. */
  lemma ColumnDropped(t: Tables, board: nat, id: nat)
    requires Sound(t)
    ensures var l := ListsOf(t);
            && (board in l.columns && id in l.columns[board] ==>
                  ListsOf(Step(t, DropColumn(id))) ==
                    Lists(l.columns[board := Without(l.columns[board], id)], l.cards - {id}, l.what - (set k | k in l.cards[id])))
            && (id !in l.cards ==> ListsOf(Step(t, DropColumn(id))) == l)
  {
    hide AllOrdered, Chains, Families, Without, RemoveAt, CloseGap;
    if board in t.columnOrders && id in t.columnOrders[board] {
      InList(t.columns, t.columnOrders, board, id);
      RemovedRow(t.columns, t.columnOrders, id);
      CardsOfColumn(t, id);
      assert Contents(t.cards - CardsIn(t, id)) == Contents(t.cards) - CardsIn(t, id);
    }
  }

  lemma CardsOfColumn(t: Tables, column: nat)
    requires Sound(t) && column in t.cardOrders
    ensures CardsIn(t, column) == set k | k in t.cardOrders[column]
  {
    hide AllOrdered, Chains, Families;
    forall k ensures k in t.cardOrders[column] <==> k in CardsIn(t, column) {
      InList(PlacesOf(t.cards), t.cardOrders, column, k);
    }
  }

  // ---------------------------------------------------------------------- cards

  /** A card that is accepted comes to the end of its column as it was entered. */
  lemma CardAdded(t: Tables, column: nat, input: CardInput, id: nat)
    requires Sound(t)
    ensures var l, u := ListsOf(t), ListsOf(Step(t, NewCard(column, input, id)));
            if column in l.cards && id !in l.what && Checked(input, Place(0, 0)).Ok?
            then Expand(input.recur, input.due).Ok? &&
                 u == Lists(l.columns, l.cards[column := l.cards[column] + [id]],
                            l.what[id := Content(input.due, input.end, Expand(input.recur, input.due).value, input.until)])
            else u == l
  {
    hide AllOrdered, Chains, Families, DueLess, Expand;
    var u := Step(t, NewCard(column, input, id));
    if u != t { assert Contents(u.cards) == Contents(t.cards)[id := ContentOf(u.cards[id])]; }
  }

  lemma CardDropped(t: Tables, column: nat, id: nat)
    requires Sound(t)
    ensures var l := ListsOf(t);
            && (column in l.cards && id in l.cards[column] ==>
                  ListsOf(Step(t, DropCard(id))) ==
                    Lists(l.columns, l.cards[column := Without(l.cards[column], id)], l.what - {id}))
            && (id !in l.what ==> ListsOf(Step(t, DropCard(id))) == l)
  {
    hide AllOrdered, Chains, Families, Without, RemoveAt, CloseGap;
    if column in t.cardOrders && id in t.cardOrders[column] {
      InList(PlacesOf(t.cards), t.cardOrders, column, id);
      RemovedRow(PlacesOf(t.cards), t.cardOrders, id);
      PlacesAgree(t.cards - {id}, CloseGap(PlacesOf(t.cards) - {id}, column, t.cards[id].place.pos));
      assert Contents(t.cards - {id}) == Contents(t.cards) - {id};
    }
  }

  // ---------------------------------------------------------------------- moves and completions

  /** Both columns are on one board. */
  predicate OnBoard(l: Lists, board: nat, a: nat, b: nat) {
    board in l.columns && a in l.columns[board] && b in l.columns[board]
  }

  /** The card taken out of one list and put into the other, or the same, at the index clamped to what is there. */
  function Carried(cards: map<nat, seq<nat>>, id: nat, from: nat, to: nat, pos: int): map<nat, seq<nat>>
    requires from in cards && to in cards
  {
    var without := cards[from := Without(cards[from], id)];
    var k := if pos < 0 then 0 else if pos > |without[to]| then |without[to]| else pos;
    without[to := without[to][..k] + [id] + without[to][k..]]
  }

  /** A recurring card comes into the last of several columns. */
  predicate Finishes(l: Lists, board: nat, id: nat, to: nat)
    requires board in l.columns
  {
    var columns := l.columns[board];
    |columns| > 1 && to == columns[|columns| - 1] && id in l.what && l.what[id].recur.Some?
  }

  /** What a completed card leaves behind and what comes after it. */
  function AfterFinish(l: Lists, first: nat, id: nat, newId: nat): Lists
    requires id in l.what && first in l.cards && Dated(l.what[id])
  {
    var c := l.what[id];
    var next := Next(c.recur.value, c.due.value.date);
    var done := l.(what := l.what[id := c.(recur := None)]);
    if c.until.Some? && Before(c.until.value, next) then done
    else Lists(done.columns, done.cards[first := done.cards[first] + [newId]],
               done.what[newId := Content(Some(Due(next, c.due.value.clock)), Shifted(c, next), c.recur, c.until)])
  }

  predicate Dated(c: Content) {
    && c.recur.Some? && c.recur.value.Valid() && c.due.Some? && c.due.value.date.Valid()
    && (c.end.Some? ==> c.end.value.date.Valid() && DayNumber(c.due.value.date) <= DayNumber(c.end.value.date))
  }

  /** The end of the next card: as many days later as the end was. */
  function Shifted(c: Content, next: Date): Option<Due>
    requires Dated(c) && next.Valid()
  {
    if c.end == None then None
    else Some(Due(AddDays(next, DayNumber(c.end.value.date) - DayNumber(c.due.value.date)), c.end.value.clock))
  }

  lemma PlacedLists(t: Tables, id: nat, from: nat, to: nat, pos: int)
    requires Sound(t) && from in t.cardOrders && to in t.cardOrders && id in t.cardOrders[from]
    ensures ListsOf(AfterPlacing(t, id, to, pos)) == ListsOf(t).(cards := Carried(t.cardOrders, id, from, to, pos))
  {
    hide AllOrdered, Chains, Families, Without, RemoveAt, InsertAt, Moved;
    InList(PlacesOf(t.cards), t.cardOrders, from, id);
    RemovedRow(PlacesOf(t.cards), t.cardOrders, id);
    var orders := MovedOrders(t.cardOrders, id, from, t.cards[id].place.pos, to, pos);
    PlacesAgree(t.cards, Moved(PlacesOf(t.cards), id, to, Clamp(pos, |orders[to]| - 1)));
    var rest := t.cardOrders[from := Without(t.cardOrders[from], id)][to];
    Parted(rest, Clamp(pos, |rest|), id);
    assert orders == Carried(t.cardOrders, id, from, to, pos);
  }

  lemma SpawnedLists(t: Tables, board: nat, id: nat, to: nat, newId: nat)
    requires Sound(t) && board in t.columnOrders && to in t.columnOrders[board] && id in t.cards && newId !in t.cards
    ensures var l, u := ListsOf(t), ListsOf(AfterSpawn(t, id, to, newId));
            if !Finishes(l, board, id, to) then !SpawnFails(t, id, to) && u == l
            else
              && Dated(l.what[id])
              && (SpawnFails(t, id, to) <==> Next(l.what[id].recur.value, l.what[id].due.value.date) == ZERO_DATE)
              && (!SpawnFails(t, id, to) ==> l.columns[board][0] in l.cards && u == AfterFinish(l, l.columns[board][0], id, newId))
  {
    hide Chains, Families, DayNumber, AddDays, Next, Ordered;
    BoardIs(t, board, to);
    CardOfTable(t, id);
    var columns := t.columnOrders[board];
    if Finishes(ListsOf(t), board, id, to) {
      FirstIsColumn(t, board);
      var c, n := t.cards[id], |t.cardOrders[columns[0]]|;
      DatedCard(c);
      if !SpawnFails(t, id, to) { FinishedContents(t.cards, id, newId, Spawned(c, Place(columns[0], n))); }
    }
  }

  lemma FinishedContents(cards: Table, id: nat, newId: nat, n: Option<Card>)
    requires id in cards && newId !in cards
    ensures var done := cards[id := cards[id].(recur := None)];
            && Contents(done) == Contents(cards)[id := ContentOf(cards[id]).(recur := None)]
            && (n.Some? ==> Contents(done[newId := n.value]) == Contents(done)[newId := ContentOf(n.value)])
  {
  }

  lemma BoardIs(t: Tables, board: nat, to: nat)
    requires Sound(t) && board in t.columnOrders && to in t.columnOrders[board]
    ensures BoardOf(t, to) == t.columnOrders[board] && to in t.cardOrders
  {
    hide AllOrdered, Chains, Families;
    InList(t.columns, t.columnOrders, board, to);
  }

  /** The first column of a board is there, and it is the last one only if it is alone. */
  lemma FirstIsColumn(t: Tables, board: nat)
    requires Sound(t) && board in t.columnOrders && |t.columnOrders[board]| > 1
    ensures var columns := t.columnOrders[board];
            columns[0] in t.cardOrders && columns[0] != columns[|columns| - 1]
  {
    hide Chains, Families;
    var columns := t.columnOrders[board];
    assert Ordered(t.columns, board, columns);
    assert t.columns[columns[0]].pos == 0 && t.columns[columns[|columns| - 1]].pos == |columns| - 1;
  }

  lemma CardOfTable(t: Tables, id: nat)
    requires Sound(t) && id in t.cards
    ensures CardOk(t.cards[id]) && id in t.chain
  {
    hide AllOrdered, Families, CardOk;
  }

  lemma DatedCard(c: Card)
    requires CardOk(c) && c.recur.Some?
    ensures Dated(ContentOf(c))
    ensures c.end.Some? ==> Span(c) == DayNumber(c.end.value.date) - DayNumber(c.due.value.date)
  {
    hide DayNumber;
    if c.end.Some? { BeforeIsLess(c.end.value.date, c.due.value.date); }
  }

  /**
   * A move within a board takes the card out of its list and puts it in at the clamped index. If that finishes
   * a recurring card, its rule goes over to a new card at the end of the first column, unless the last date is
   * past; a next date that is not found takes everything back.
   */
  lemma CardMoved(t: Tables, board: nat, id: nat, from: nat, to: nat, pos: int, newId: nat)
    requires Sound(t) && from in t.cardOrders && id in t.cardOrders[from] && newId !in t.cards
    requires OnBoard(ListsOf(t), board, from, to)
    ensures var l, u := ListsOf(t), ListsOf(Step(t, MoveTo(id, to, pos, newId)));
            && to in l.cards
            && var moved := l.(cards := Carried(l.cards, id, from, to, pos));
               if !Finishes(l, board, id, to) then u == moved
               else
                 && Dated(l.what[id])
                 && if Next(l.what[id].recur.value, l.what[id].due.value.date) == ZERO_DATE then u == l
                    else l.columns[board][0] in moved.cards && u == AfterFinish(moved, l.columns[board][0], id, newId)
  {
    hide Sound, AfterPlacing, AfterSpawn, SpawnFails, Dated, AfterFinish, Carried;
    BoardIs(t, board, from);
    BoardIs(t, board, to);
    MayMoveOn(t, board, id, from, to);
    PlacedLists(t, id, from, to, pos);
    PlacingKeeps(t, id, to, pos);
    var placed := AfterPlacing(t, id, to, pos);
    SameContents(t, placed, id);
    SpawnedLists(placed, board, id, to, newId);
  }

  lemma SameContents(t: Tables, u: Tables, id: nat)
    requires Contents(u.cards) == Contents(t.cards)
    ensures forall k :: k in t.cards <==> k in u.cards
  {
    assert Contents(u.cards).Keys == u.cards.Keys && Contents(t.cards).Keys == t.cards.Keys;
  }

  lemma MayMoveOn(t: Tables, board: nat, id: nat, from: nat, to: nat)
    requires Sound(t) && from in t.cardOrders && id in t.cardOrders[from] && OnBoard(ListsOf(t), board, from, to)
    ensures id in t.cards && MayMove(t, id, to)
  {
    hide AllOrdered, Chains, Families;
    InList(PlacesOf(t.cards), t.cardOrders, from, id);
    InList(t.columns, t.columnOrders, board, from);
    InList(t.columns, t.columnOrders, board, to);
  }

  /** Only a card in some list of a board that also has the destination is moved; otherwise nothing changes. */
  lemma MoveRefused(t: Tables, id: nat, to: nat, pos: int, newId: nat)
    requires Sound(t)
    ensures Step(t, MoveTo(id, to, pos, newId)) == t ||
            exists board, from :: from in t.cardOrders && id in t.cardOrders[from] && OnBoard(ListsOf(t), board, from, to)
  {
    hide AllOrdered, Chains, Families, AfterPlacing, AfterSpawn, SpawnFails;
    if MayMove(t, id, to) {
      var from := t.cards[id].place.group;
      var board := t.columns[to].group;
      ListedRow(PlacesOf(t.cards), t.cardOrders, id);
      ListedRow(t.columns, t.columnOrders, from);
      ListedRow(t.columns, t.columnOrders, to);
      assert OnBoard(ListsOf(t), board, from, to);
    }
  }

  lemma ListedRow(p: Places, orders: map<nat, seq<nat>>, id: nat)
    requires AllOrdered(p, orders) && id in p
    ensures p[id].group in orders && id in orders[p[id].group]
  {
    InList(p, orders, p[id].group, id);
  }

  // ---------------------------------------------------------------------- parents

  /**
   * Links between cards that both stay are kept; links come only from a completion, to the card that was
   * completed; and a card that stays is still in its chain.
   */
  ghost predicate LinksKept(t: Tables, u: Tables, op: Op) {
    && (forall l :: l in t.parent && l in u.cards && t.parent[l] in u.cards ==> l in u.parent && u.parent[l] == t.parent[l])
    && (forall l :: l in u.parent && l !in t.parent ==> op.MoveTo? && l == op.newId && l !in t.cards && u.parent[l] == op.id)
    && (forall l :: l in u.parent && l in t.parent ==> u.parent[l] == t.parent[l])
    && (forall k :: k in t.chain && k in u.cards && k in t.cards ==> k in u.chain && u.chain[k] == t.chain[k])
  }

  lemma LinksAreKept(t: Tables, op: Op)
    requires Sound(t)
    ensures LinksKept(t, Step(t, op), op)
  {
    hide Sound, LinksKept, AfterNewBoard, AfterNewColumn, AfterDropColumn, AfterNewCard, AfterDropCard, AfterMove;
    match op
    case NewBoard(board, ids) => BoardKeepsLinks(t, board, ids);
    case NewColumn(board, id) => ColumnKeepsLinks(t, board, id);
    case DropColumn(id) => DropsKeepLinks(t, id);
    case NewCard(column, input, id) => CardKeepsLinks(t, column, input, id);
    case DropCard(id) => DropsKeepLinks(t, id);
    case MoveTo(id, to, pos, newId) => MoveKeepsLinks(t, id, to, pos, newId);
  }

  lemma UnchangedLinks(t: Tables, u: Tables, op: Op)
    requires u.parent == t.parent && forall k :: k in t.chain ==> k in u.chain && u.chain[k] == t.chain[k]
    ensures LinksKept(t, u, op)
  {
  }

  lemma BoardKeepsLinks(t: Tables, board: nat, ids: seq<nat>)
    ensures LinksKept(t, AfterNewBoard(t, board, ids), NewBoard(board, ids))
  {
    hide LinksKept, AfterNewColumns;
    ColumnsKeepLinks(t.(boards := t.boards + {board}, columnOrders := t.columnOrders[board := []]), board, ids);
    UnchangedLinks(t, AfterNewBoard(t, board, ids), NewBoard(board, ids));
  }

  lemma ColumnKeepsLinks(t: Tables, board: nat, id: nat)
    ensures LinksKept(t, AfterNewColumn(t, board, id), NewColumn(board, id))
  {
    hide LinksKept;
    UnchangedLinks(t, AfterNewColumn(t, board, id), NewColumn(board, id));
  }

  lemma CardKeepsLinks(t: Tables, column: nat, input: CardInput, id: nat)
    requires Sound(t)
    ensures LinksKept(t, AfterNewCard(t, column, input, id), NewCard(column, input, id))
  {
    hide LinksKept, AllOrdered, Families, Checked, CardOk, Linked;
    UnchangedLinks(t, AfterNewCard(t, column, input, id), NewCard(column, input, id));
  }

  lemma Survivors(t: Tables, u: Tables, gone: set<nat>, op: Op)
    requires Sound(t)
    requires u.parent == Unlinked(t.parent, gone) && u.chain == t.chain - gone && u.cards.Keys == t.cards.Keys - gone
    ensures LinksKept(t, u, op)
  {
    hide AllOrdered, Chains, Child;
  }

  lemma DropsKeepLinks(t: Tables, id: nat)
    requires Sound(t)
    ensures LinksKept(t, AfterDropCard(t, id), DropCard(id))
    ensures LinksKept(t, AfterDropColumn(t, id), DropColumn(id))
  {
    hide Sound, LinksKept, RemoveAt, CloseGap, Unlinked, CardsIn;
    var u, v := AfterDropCard(t, id), AfterDropColumn(t, id);
    if u != t {
      Survivors(t, u, {id}, DropCard(id));
    } else {
      UnchangedLinks(t, u, DropCard(id));
    }
    if v != t {
      Survivors(t, v, CardsIn(t, id), DropColumn(id));
    } else {
      UnchangedLinks(t, v, DropColumn(id));
    }
  }

  lemma MoveKeepsLinks(t: Tables, id: nat, to: nat, pos: int, newId: nat)
    requires Sound(t)
    ensures LinksKept(t, AfterMove(t, id, to, pos, newId), MoveTo(id, to, pos, newId))
  {
    hide Sound, LinksKept, AfterPlacing, AfterSpawn, SpawnFails, MayMove;
    var placed, op := AfterPlacing(t, id, to, pos), MoveTo(id, to, pos, newId);
    PlacingKeeps(t, id, to, pos);
    SoundFamilies(placed);
    SpawnKeepsLinks(placed, id, to, newId, pos);
    PlacedLinks(t, id, to, pos);
    SameStart(t, placed, AfterSpawn(placed, id, to, newId), op);
    UnchangedLinks(t, t, op);
  }

  lemma SoundFamilies(t: Tables)
    requires Sound(t)
    ensures Families(t)
  {
    hide AllOrdered, Chains, Families;
  }

  lemma PlacedLinks(t: Tables, id: nat, to: nat, pos: int)
    ensures var placed := AfterPlacing(t, id, to, pos);
            placed.parent == t.parent && placed.chain == t.chain && placed.cards.Keys == t.cards.Keys
  {
  }

  lemma SameStart(t: Tables, placed: Tables, u: Tables, op: Op)
    requires placed.parent == t.parent && placed.chain == t.chain && placed.cards.Keys == t.cards.Keys
    requires LinksKept(placed, u, op)
    ensures LinksKept(t, u, op)
  {
    assert forall k :: k in t.cards <==> k in placed.cards;
  }

  lemma {:induction false} ColumnsKeepLinks(t: Tables, board: nat, ids: seq<nat>)
    ensures var u := AfterNewColumns(t, board, ids); u.cards == t.cards && u.chain == t.chain && u.parent == t.parent
  {
    if ids != [] { ColumnsKeepLinks(t, board, ids[..|ids| - 1]); }
  }

  lemma SpawnKeepsLinks(t: Tables, id: nat, to: nat, newId: nat, pos: int)
    requires Families(t)
    ensures LinksKept(t, AfterSpawn(t, id, to, newId), MoveTo(id, to, pos, newId))
  {
    hide CardOk, Precedes, Spawned, SpawnFails, Child;
  }
}
