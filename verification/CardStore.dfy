module CardStore {
  // Boards, columns and cards as rows that transactions update in place. The orders of columns and cards
  // and the chains are ghost; every transaction is proved to do what its step says.

  import opened Bytes
  import opened Calendar
  import opened Recurrence
  import opened Positions
  import opened CardChains
  import opened CardSteps

  /** SELECT COALESCE(MAX(position)+1, 0) ... WHERE group=g */
  method NextPosition(p: Places, g: nat) returns (pos: nat)
    ensures forall order :: Ordered(p, g, order) ==> pos == |order|
  {
    pos := 0;
    var todo := p.Keys;
    while todo != {}
      invariant todo <= p.Keys
      invariant forall k :: k in p.Keys - todo && p[k].group == g ==> p[k].pos < pos
      invariant pos == 0 || exists k :: k in p && p[k] == Place(g, pos - 1)
      decreases todo
    {
      var k :| k in todo;
      if p[k].group == g && p[k].pos + 1 > pos { pos := p[k].pos + 1; }
      todo := todo - {k};
    }
    forall order | Ordered(p, g, order) ensures pos == |order| {
      if |order| > 0 { assert order[|order| - 1] in p; }
    }
  }

  /** The first and the last column of a board by position. */
  method FirstAndLast(columns: Places, board: nat, ghost order: seq<nat>) returns (first: nat, last: nat)
    requires Ordered(columns, board, order) && order != []
    ensures first == order[0] && last == order[|order| - 1]
  {
    assert order[0] in columns && order[|order| - 1] in columns;
    first :| first in columns && columns[first].group == board &&
             forall k :: k in columns && columns[k].group == board ==> columns[first].pos <= columns[k].pos;
    last :| last in columns && columns[last].group == board &&
            forall k :: k in columns && columns[k].group == board ==> columns[k].pos <= columns[last].pos;
  }

  class Store {
    var boards: set<nat>
    var columns: Places
    var cards: Table
    var parent: map<nat, nat>
    ghost var columnOrders: map<nat, seq<nat>>
    ghost var cardOrders: map<nat, seq<nat>>
    ghost var chain: map<nat, nat>
    ghost var nextChain: nat

    ghost function Now(): Tables
      reads this
    {
      Tables(boards, columns, columnOrders, cards, cardOrders, parent, chain, nextChain)
    }

    ghost predicate Valid()
      reads this
    {
      Sound(Now())
    }

    constructor ()
      ensures Valid() && Now() == EMPTY_TABLES
    {
      boards, columns, cards, parent := {}, map[], map[], map[];
      columnOrders, cardOrders, chain, nextChain := map[], map[], map[], 0;
      new;
      EmptyIsSound();
    }

    /** A board with the given columns at positions 0, 1 and so on; the program makes three. */
    method CreateBoard(board: nat, ids: seq<nat>)
      requires Valid() && board !in boards && Distinct(ids) && forall id :: id in ids ==> id !in columns
      modifies this
      ensures Valid() && Now() == Step(old(Now()), NewBoard(board, ids))
    {
      hide Sound, AfterNewColumns;
      StepKeeps(Now(), NewBoard(board, ids));
      boards, columnOrders := boards + {board}, columnOrders[board := []];
      ghost var start := Now();
      NoColumnsYet(start, board);
      assert ids[..0] == [];
      var i := 0;
      while i < |ids|
        invariant 0 <= i <= |ids| && Now() == AfterNewColumns(start, board, ids[..i])
        invariant forall j :: i <= j < |ids| ==> ids[j] !in columns
        invariant board in columnOrders && |columnOrders[board]| == i
      {
        OneMoreColumn(start, board, ids, i);
        columns := columns[ids[i] := Place(board, i)];
        columnOrders := columnOrders[board := columnOrders[board] + [ids[i]]];
        cardOrders := cardOrders[ids[i] := []];
        i := i + 1;
      }
      assert ids[..i] == ids;
    }

    /** Appends a column to a board; the database chooses an unused id. */
    method AddColumn(board: nat, id: nat) returns (r: Result<(), StoreError>)
      requires Valid() && id !in columns
      modifies this
      ensures Valid() && Now() == Step(old(Now()), NewColumn(board, id))
      ensures r == if board in boards then Ok(()) else Err(NotFound)
    {
      hide AllOrdered, Ordered, Chains, Families;
      StepKeeps(Now(), NewColumn(board, id));
      if board !in boards { return Err(NotFound); }
      var pos := NextPosition(columns, board);
      OrderedColumn(columns, columnOrders, board);
      columns := columns[id := Place(board, pos)];
      columnOrders := columnOrders[board := columnOrders[board] + [id]];
      cardOrders := cardOrders[id := []];
      return Ok(());
    }

    /** Deletes a column with its cards and closes the gap among its board's columns. */
    method DeleteColumn(id: nat) returns (r: Result<(), StoreError>)
      requires Valid()
      modifies this
      ensures Valid() && Now() == Step(old(Now()), DropColumn(id))
      ensures r == if id in old(columns) then Ok(()) else Err(NotFound)
    {
      hide AllOrdered, Ordered, Chains, Families, RemoveAt, CloseGap, Unlinked, AfterNewBoard, AfterNewColumn, AfterNewCard,
           AfterDropCard, AfterMove;
      StepKeeps(Now(), DropColumn(id));
      ColumnOf(columns, columnOrders, id);
      if id !in columns { return Err(NotFound); }
      var board, pos := columns[id].group, columns[id].pos;
      var gone := set k | k in cards && cards[k].place.group == id;
      columns := CloseGap(columns - {id}, board, pos);
      columnOrders := columnOrders[board := RemoveAt(columnOrders[board], pos)];
      parent := Unlinked(parent, gone);
      cards, chain, cardOrders := cards - gone, chain - gone, cardOrders - {id};
      return Ok(());
    }

    /** Appends a card to a column. */
    method CreateCard(column: nat, input: CardInput, id: nat) returns (r: Result<(), StoreError>)
      requires Valid() && id !in cards
      modifies this
      ensures Valid() && Now() == Step(old(Now()), NewCard(column, input, id))
      ensures r == match Checked(input, Place(0, 0))
                   case Err(e) => Err(e)
                   case Ok(_) => if column in columns then Ok(()) else Err(NotFound)
    {
      hide AllOrdered, Ordered, Chains, Families, PlacesOf, Checked, AfterNewBoard, AfterNewColumn, AfterDropColumn, AfterDropCard,
           AfterMove;
      StepKeeps(Now(), NewCard(column, input, id));
      OrderedColumn(PlacesOf(cards), cardOrders, column);
      var checked := Checked(input, Place(0, 0));
      CheckedAnywhere(input, Place(0, 0), Place(column, if column in cardOrders then |cardOrders[column]| else 0));
      if checked.Err? { return Err(checked.error); }
      if column !in columns { return Err(NotFound); }
      var pos := NextPosition(PlacesOf(cards), column);
      cards := cards[id := Checked(input, Place(column, pos)).value];
      cardOrders := cardOrders[column := cardOrders[column] + [id]];
      chain, nextChain := chain[id := nextChain], nextChain + 1;
      return Ok(());
    }

    /** Deletes a card and closes the gap in its column. */
    method DeleteCard(id: nat) returns (r: Result<(), StoreError>)
      requires Valid()
      modifies this
      ensures Valid() && Now() == Step(old(Now()), DropCard(id))
      ensures r == if id in old(cards) then Ok(()) else Err(NotFound)
    {
      hide AllOrdered, Ordered, Chains, Families, RemoveAt, CloseGap, Unlinked, AfterNewBoard, AfterNewColumn, AfterNewCard,
           AfterDropColumn, AfterMove;
      StepKeeps(Now(), DropCard(id));
      ColumnOf(PlacesOf(cards), cardOrders, id);
      if id !in cards { return Err(NotFound); }
      var column, pos := cards[id].place.group, cards[id].place.pos;
      cards := WithPlaces(cards - {id}, CloseGap(PlacesOf(cards) - {id}, column, pos));
      cardOrders := cardOrders[column := RemoveAt(cardOrders[column], pos)];
      parent := Unlinked(parent, {id});
      chain := chain - {id};
      return Ok(());
    }

    /**
     * Makes the next occurrence of a recurring card that came into the last column: a new row in
     * the first column, while the completed card loses its rule. Fails where there is no next date.
     */
    method SpawnNextOccurrence(id: nat, toColumn: nat, newId: nat) returns (r: Result<(), StoreError>)
      requires Valid() && id in cards && toColumn in columns && newId !in cards
      modifies this
      ensures Valid() && Now() == AfterSpawn(old(Now()), id, toColumn, newId)
      ensures r == if SpawnFails(old(Now()), id, toColumn) then Err(Invalid) else Ok(())
    {
      hide AllOrdered, Ordered, Chains, Families, PlacesOf, CardOk, Precedes, Next, ShiftEnd, AfterSpawn;
      ghost var t := Now();
      SpawnKeeps(t, id, toColumn, newId);
      FailedIsNothing(t, id, toColumn, newId);
      var board := columns[toColumn].group;
      OrderOf(columns, columnOrders, toColumn);
      ghost var order := columnOrders[board];
      OkOf(cards, chain, nextChain, id);
      var first, last := FirstAndLast(columns, board, order);
      if toColumn != last || last == first { return Ok(()); }
      var c := cards[id];
      if c.recur == None || c.due == None { return Ok(()); }
      var found := NextOccurrence(c.recur.value, c.due.value);
      FirstHasOrder(columns, columnOrders, board, PlacesOf(cards), cardOrders);
      if found.Err? { return Err(Invalid); }
      assert Completes(t, id, toColumn) && !SpawnFails(t, id, toColumn);
      SpawnIs(t, id, toColumn, newId);
      var next := found.value;
      r := Ok(());
      if c.until.Some? && Before(c.until.value, next.date) {
        cards := cards[id := c.(recur := None)];
        return;
      }
      var nextEnd := ShiftEnd(c, next);
      var pos := NextPosition(PlacesOf(cards), first);
      var n := Card(Place(first, pos), Some(next), nextEnd, c.recur, c.until);
      cards := cards[id := c.(recur := None)][newId := n];
      cardOrders := cardOrders[first := cardOrders[first] + [newId]];
      parent := parent[newId := id];
      chain := chain[newId := chain[id]];
    }

    /**
     * Moves a card: out of its column, which closes the gap, and into the destination at the index
     * clamped to the size it has then. Coming into the last column may spawn the next occurrence;
     * when that fails, the transaction is rolled back.
     */
    method MoveCard(id: nat, toColumn: nat, newPos: int, newId: nat) returns (r: Result<(), StoreError>)
      requires Valid() && newId !in cards
      modifies this
      ensures Valid() && Now() == Step(old(Now()), MoveTo(id, toColumn, newPos, newId))
      ensures r == if !MayMove(old(Now()), id, toColumn) then Err(NotFound)
                   else if SpawnFails(AfterPlacing(old(Now()), id, toColumn, newPos), id, toColumn) then Err(Invalid) else Ok(())
    {
      hide AllOrdered, Ordered, Chains, Families, AfterPlacing, AfterSpawn, SpawnFails;
      if id !in cards { return Err(NotFound); }
      var from := cards[id].place.group;
      ColumnOf(PlacesOf(cards), cardOrders, id);
      if toColumn !in columns || columns[from].group != columns[toColumn].group { return Err(NotFound); }
      var cardsBefore := cards;
      ghost var ordersBefore := cardOrders;
      FailedIsNothing(AfterPlacing(Now(), id, toColumn, newPos), id, toColumn, newId);
      PlaceCard(id, toColumn, newPos);
      r := SpawnNextOccurrence(id, toColumn, newId);
      if r.Err? { cards, cardOrders := cardsBefore, ordersBefore; }
    }

    /** The three position updates of a move. */
    method PlaceCard(id: nat, toColumn: nat, newPos: int)
      requires Valid() && id in cards && toColumn in columns
      modifies this
      ensures Valid() && Now() == AfterPlacing(old(Now()), id, toColumn, newPos)
      ensures cards.Keys == old(cards.Keys) && columns == old(columns)
      ensures Now().(cards := old(cards), cardOrders := old(cardOrders)) == old(Now())
    {
      hide AllOrdered, Ordered, Chains, Families, Moved, MovedOrders, Clamp, CloseGap, OpenGap, WithPlaces;
      PlacingKeeps(Now(), id, toColumn, newPos);
      ColumnOf(PlacesOf(cards), cardOrders, id);
      var from, oldPos := cards[id].place.group, cards[id].place.pos;
      // the card out of its column: everything behind it moves up
      var p := CloseGap(PlacesOf(cards), from, oldPos);
      // the size of the destination without the card
      var count := |Rows(p - {id}, toColumn)|;
      CountAfterRemoval(PlacesOf(cards), cardOrders, id, toColumn);
      var pos := Clamp(newPos, count);
      // a gap in the destination, and the card into it
      p := OpenGap(p, toColumn, pos, id)[id := Place(toColumn, pos)];
      MovedIs(PlacesOf(cards), id, toColumn, pos);
      MoveClamped(PlacesOf(cards), cardOrders, id, toColumn, newPos);
      cardOrders := MovedOrders(cardOrders, id, from, oldPos, toColumn, newPos);
      cards := WithPlaces(cards, p);
    }
  }

  lemma FailedIsNothing(t: Tables, id: nat, to: nat, newId: nat)
    ensures SpawnFails(t, id, to) || !Completes(t, id, to) ==> AfterSpawn(t, id, to, newId) == t
  {
  }

  lemma SpawnIs(t: Tables, id: nat, to: nat, newId: nat)
    requires Completes(t, id, to) && !SpawnFails(t, id, to) && newId !in t.cards
    ensures var c, first := t.cards[id], BoardOf(t, to)[0];
            var next, done := Due(Next(c.recur.value, c.due.value.date), c.due.value.clock), t.cards[id := c.(recur := None)];
            AfterSpawn(t, id, to, newId) ==
            if c.until.Some? && Before(c.until.value, next.date) then t.(cards := done)
            else t.(cards := done[newId := Card(Place(first, |t.cardOrders[first]|), Some(next), ShiftEnd(c, next), c.recur, c.until)],
                    cardOrders := t.cardOrders[first := t.cardOrders[first] + [newId]],
                    parent := t.parent[newId := id], chain := t.chain[newId := t.chain[id]])
  {
    hide Next, ShiftEnd;
  }

  lemma MovedIs(p: Places, id: nat, to: nat, pos: nat)
    requires id in p
    ensures Moved(p, id, to, pos) == OpenGap(CloseGap(p, p[id].group, p[id].pos), to, pos, id)[id := Place(to, pos)]
  {
  }

  /** The destination is counted without the moving card. */
  lemma {:induction false} CountAfterRemoval(p: Places, orders: map<nat, seq<nat>>, id: nat, to: nat)
    requires AllOrdered(p, orders) && id in p && to in orders
    ensures |Rows(CloseGap(p, p[id].group, p[id].pos) - {id}, to)| ==
            |orders[to]| - (if to == p[id].group then 1 else 0)
  {
    var from := p[id].group;
    hide Ordered, CloseGap, RemoveAt;
    SameWithout(p, from, p[id].pos, id);
    Delete(p, orders, id);
    var after := orders[from := RemoveAt(orders[from], p[id].pos)];
    CountRows(CloseGap(p - {id}, from, p[id].pos), to, after[to]);
  }

  lemma SameWithout(p: Places, g: nat, pos: int, id: nat)
    ensures CloseGap(p, g, pos) - {id} == CloseGap(p - {id}, g, pos)
  {
  }

  lemma CheckedAnywhere(c: CardInput, p: Place, q: Place)
    ensures Checked(c, p).Ok? == Checked(c, q).Ok? && (Checked(c, p).Err? ==> Checked(c, p) == Checked(c, q))
  {
  }
}
