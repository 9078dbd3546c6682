module Positions {
  // Rows that are kept in order inside groups by a position column: what the UPDATE statements that
  // shift positions do to the order of a group.

  /** The group a row belongs to and its position there. */
  datatype Place = Place(group: nat, pos: int)

  type Places = map<nat, Place>

  /** The rows of group g are exactly those of the sequence, at positions 0, 1, 2 and so on. */
  predicate Ordered(p: Places, g: nat, order: seq<nat>) {
    && (forall i :: 0 <= i < |order| ==> order[i] in p && p[order[i]] == Place(g, i))
    && (forall k :: k in p && p[k].group == g ==> 0 <= p[k].pos < |order| && order[p[k].pos] == k)
  }

  /** UPDATE ... SET position=position-1 WHERE group=g AND position>pos */
  function CloseGap(p: Places, g: nat, pos: int): (q: Places)
    ensures q.Keys == p.Keys
  {
    map k | k in p :: if p[k].group == g && p[k].pos > pos then Place(g, p[k].pos - 1) else p[k]
  }

  /** UPDATE ... SET position=position+1 WHERE group=g AND position>=pos AND id<>id */
  function OpenGap(p: Places, g: nat, pos: int, id: nat): (q: Places)
    ensures q.Keys == p.Keys
  {
    map k | k in p :: if p[k].group == g && p[k].pos >= pos && k != id then Place(g, p[k].pos + 1) else p[k]
  }

  function RemoveAt(s: seq<nat>, i: nat): (r: seq<nat>)
    requires i < |s|
    ensures |r| == |s| - 1 && forall j :: 0 <= j < |r| ==> r[j] == s[if j < i then j else j + 1]
  {
    s[..i] + s[i + 1..]
  }

  function InsertAt(s: seq<nat>, i: nat, x: nat): (r: seq<nat>)
    requires i <= |s|
    ensures |r| == |s| + 1 && r[i] == x
    ensures forall j :: 0 <= j < |r| && j != i ==> r[j] == s[if j < i then j else j - 1]
  {
    s[..i] + [x] + s[i..]
  }

  function Clamp(pos: int, count: nat): (r: nat)
    ensures r <= count
    ensures 0 <= pos <= count ==> r == pos
  {
    if pos < 0 then 0 else if pos > count then count else pos
  }

  /** All the rows in their groups, with an order for every group. */
  predicate AllOrdered(p: Places, orders: map<nat, seq<nat>>) {
    && (forall k :: k in p ==> p[k].group in orders)
    && (forall g :: g in orders ==> Ordered(p, g, orders[g]))
  }

  lemma Append(p: Places, orders: map<nat, seq<nat>>, g: nat, id: nat)
    requires AllOrdered(p, orders) && g in orders && id !in p
    ensures AllOrdered(p[id := Place(g, |orders[g]|)], orders[g := orders[g] + [id]])
  {
  }

  lemma {:induction false} CloseGapOrder(p: Places, g: nat, order: seq<nat>, id: nat)
    requires Ordered(p, g, order) && id in p && p[id].group == g
    ensures 0 <= p[id].pos < |order|
    ensures Ordered(CloseGap(p - {id}, g, p[id].pos), g, RemoveAt(order, p[id].pos))
  {
    hide RemoveAt;
    var i: nat := p[id].pos;
    assert order[i] == id;
    var q, o := CloseGap(p - {id}, g, i), RemoveAt(order, i);
    forall j | 0 <= j < |o| ensures o[j] in q && q[o[j]] == Place(g, j) {
      var from := if j < i then j else j + 1;
      assert o[j] == order[from] && p[order[from]] == Place(g, from);
    }
    forall k | k in q && q[k].group == g ensures 0 <= q[k].pos < |o| && o[q[k].pos] == k {
      ClosedRow(p, g, order, id, k);
    }
  }

  lemma ClosedRow(p: Places, g: nat, order: seq<nat>, id: nat, k: nat)
    requires Ordered(p, g, order) && id in p && p[id].group == g && 0 <= p[id].pos < |order|
    requires k in p && k != id && p[k].group == g
    ensures var at := CloseGap(p - {id}, g, p[id].pos)[k].pos;
            0 <= at < |order| - 1 && RemoveAt(order, p[id].pos)[at] == k
  {
    hide RemoveAt;
    assert order[p[k].pos] == k && order[p[id].pos] == id;
    assert p[k].pos != p[id].pos;
  }

  lemma {:induction false} OpenGapOrder(p: Places, g: nat, order: seq<nat>, i: nat, id: nat)
    requires Ordered(p, g, order) && id !in p && i <= |order|
    ensures Ordered(OpenGap(p, g, i, id)[id := Place(g, i)], g, InsertAt(order, i, id))
  {
    hide InsertAt;
    var q, o := OpenGap(p, g, i, id)[id := Place(g, i)], InsertAt(order, i, id);
    forall j | 0 <= j < |o| ensures o[j] in q && q[o[j]] == Place(g, j) {
      if j != i {
        var from := if j < i then j else j - 1;
        assert o[j] == order[from] && p[order[from]] == Place(g, from);
      }
    }
    forall k | k in q && q[k].group == g ensures 0 <= q[k].pos < |o| && o[q[k].pos] == k {
      OpenedRow(p, g, order, i, id, k);
    }
  }

  lemma OpenedRow(p: Places, g: nat, order: seq<nat>, i: nat, id: nat, k: nat)
    requires Ordered(p, g, order) && id !in p && i <= |order|
    requires k == id || (k in p && p[k].group == g)
    ensures var at := OpenGap(p, g, i, id)[id := Place(g, i)][k].pos;
            0 <= at < |order| + 1 && InsertAt(order, i, id)[at] == k
  {
    hide InsertAt;
    if k != id { assert order[p[k].pos] == k; }
  }

  /** Deleting a row and closing the gap takes it out of the order of its group. */
  lemma {:induction false} Delete(p: Places, orders: map<nat, seq<nat>>, id: nat)
    requires AllOrdered(p, orders) && id in p
    ensures var g, i := p[id].group, p[id].pos;
            && 0 <= i < |orders[g]|
            && AllOrdered(CloseGap(p - {id}, g, i), orders[g := RemoveAt(orders[g], i)])
  {
    hide Ordered, RemoveAt;
    var g := p[id].group;
    CloseGapOrder(p, g, orders[g], id);
    OtherGroups(p, CloseGap(p - {id}, g, p[id].pos), orders, g);
  }

  lemma {:induction false} Insert(p: Places, orders: map<nat, seq<nat>>, g: nat, i: nat, id: nat)
    requires AllOrdered(p, orders) && g in orders && id !in p && i <= |orders[g]|
    ensures AllOrdered(OpenGap(p, g, i, id)[id := Place(g, i)], orders[g := InsertAt(orders[g], i, id)])
  {
    hide Ordered, InsertAt;
    OpenGapOrder(p, g, orders[g], i, id);
    OtherGroups(p, OpenGap(p, g, i, id)[id := Place(g, i)], orders, g);
  }

  /** The table after the statements of a move: close the gap, open one, place the row. */
  function Moved(p: Places, id: nat, to: nat, pos: nat): (q: Places)
    requires id in p
    ensures q.Keys == p.Keys
  {
    OpenGap(CloseGap(p, p[id].group, p[id].pos), to, pos, id)[id := Place(to, pos)]
  }

  /** The orders after taking the row out of its group and putting it into another, or the same, one. */
  function MovedOrders(orders: map<nat, seq<nat>>, id: nat, from: nat, oldPos: nat, to: nat, newPos: int)
    : (r: map<nat, seq<nat>>)
    requires from in orders && to in orders && oldPos < |orders[from]|
    ensures r.Keys == orders.Keys && |r[to]| == |orders[to]| + (if to == from then 0 else 1)
  {
    var without := orders[from := RemoveAt(orders[from], oldPos)];
    without[to := InsertAt(without[to], Clamp(newPos, |without[to]|), id)]
  }

  /** The order of the other rows. */
  function Without(s: seq<nat>, id: nat): seq<nat> {
    if s == [] then [] else (if s[0] == id then [] else [s[0]]) + Without(s[1..], id)
  }

  lemma {:induction false} OnlyIt(a: seq<nat>, id: nat, c: seq<nat>)
    ensures Without(a + [id] + c, id) == Without(a + c, id)
  {
    if a == [] {
      assert a + [id] + c == [id] + c && a + c == c;
      assert ([id] + c)[1..] == c;
    } else {
      assert (a + [id] + c)[1..] == a[1..] + [id] + c && (a + c)[1..] == a[1..] + c;
      OnlyIt(a[1..], id, c);
    }
  }

  lemma Rejoined(s: seq<nat>, i: nat)
    requires i < |s|
    ensures s[..i] + [s[i]] + s[i + 1..] == s && RemoveAt(s, i) == s[..i] + s[i + 1..]
  {}

  lemma RemovedOnly(s: seq<nat>, i: nat)
    requires i < |s|
    ensures Without(RemoveAt(s, i), s[i]) == Without(s, s[i])
  {
    hide Without;
    OnlyIt(s[..i], s[i], s[i + 1..]);
    Rejoined(s, i);
  }

  lemma Parted(s: seq<nat>, i: nat, id: nat)
    requires i <= |s|
    ensures s[..i] + s[i..] == s && InsertAt(s, i, id) == s[..i] + [id] + s[i..]
  {}

  lemma InsertedOnly(s: seq<nat>, i: nat, id: nat)
    requires i <= |s|
    ensures Without(InsertAt(s, i, id), id) == Without(s, id)
  {
    hide Without;
    OnlyIt(s[..i], id, s[i..]);
    Parted(s, i, id);
  }

  /**
   * A move puts the row at the clamped index of the destination as it is without the row, and leaves the
   * other rows of every group in their order, also when the two groups are the same.
   */
  lemma MoveKeepsOtherOrders(orders: map<nat, seq<nat>>, id: nat, from: nat, oldPos: nat, to: nat, newPos: int, g: nat)
    requires from in orders && to in orders && oldPos < |orders[from]| && orders[from][oldPos] == id
    requires g in orders
    ensures Without(MovedOrders(orders, id, from, oldPos, to, newPos)[g], id) == Without(orders[g], id)
    ensures var size := |orders[to]| - (if to == from then 1 else 0);
            MovedOrders(orders, id, from, oldPos, to, newPos)[to][Clamp(newPos, size)] == id
  {
    hide Without, RemoveAt, InsertAt;
    RemovedOnly(orders[from], oldPos);
    var without := orders[from := RemoveAt(orders[from], oldPos)];
    InsertedOnly(without[to], Clamp(newPos, |without[to]|), id);
  }

  /** A move is a removal followed by an insertion; within one group the index counts after the removal. */
  lemma {:induction false} Move(p: Places, orders: map<nat, seq<nat>>, id: nat, to: nat, pos: nat)
    requires AllOrdered(p, orders) && id in p && to in orders
    requires pos <= |orders[to]| - (if to == p[id].group then 1 else 0)
    ensures 0 <= p[id].pos < |orders[p[id].group]|
    ensures AllOrdered(Moved(p, id, to, pos), MovedOrders(orders, id, p[id].group, p[id].pos, to, pos))
  {
    hide Ordered, RemoveAt, InsertAt, OpenGap, CloseGap, Moved;
    var from := p[id].group;
    Delete(p, orders, id);
    var q := CloseGap(p - {id}, from, p[id].pos);
    Insert(q, orders[from := RemoveAt(orders[from], p[id].pos)], to, pos, id);
    MovedWithout(p, id, to, pos);
  }

  /** The row's own entry does not matter for the two shifts. */
  lemma MovedWithout(p: Places, id: nat, to: nat, pos: nat)
    requires id in p
    ensures Moved(p, id, to, pos) ==
            OpenGap(CloseGap(p - {id}, p[id].group, p[id].pos), to, pos, id)[id := Place(to, pos)]
  {
  }

  /** SELECT count(*) ... WHERE group=g */
  function Rows(p: Places, g: nat): set<nat> {
    set k | k in p && p[k].group == g
  }

  /** The number of rows of a group is the length of its order. */
  lemma {:induction false} CountRows(p: Places, g: nat, order: seq<nat>)
    requires Ordered(p, g, order)
    ensures |Rows(p, g)| == |order|
    decreases |order|
  {
    if order == [] {
      assert Rows(p, g) == {};
    } else {
      var last := order[|order| - 1];
      var rest := p - {last};
      CountRows(rest, g, order[..|order| - 1]);
      assert Rows(p, g) == Rows(rest, g) + {last} && last !in Rows(rest, g);
    }
  }

  /** Groups whose rows did not change keep their order. */
  lemma OtherGroups(p: Places, q: Places, orders: map<nat, seq<nat>>, g: nat)
    requires AllOrdered(p, orders)
    requires forall k :: k in p && p[k].group != g ==> k in q && q[k] == p[k]
    requires forall k :: k in q && q[k].group != g ==> k in p && q[k] == p[k]
    ensures forall h :: h in orders && h != g ==> Ordered(q, h, orders[h])
  {
  }
}
