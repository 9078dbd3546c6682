module Transfers {
  // Pairing transfers between one's own accounts: the same amount leaves one account and arrives at
  // another within ten minutes. The greedy pairing is shown to be a largest possible one.

  import opened Bytes

  /** A transaction; `minute` is its parsed time stamp, zero where the stamp does not parse. */
  datatype Tx = Tx(transfer: bool, amount: int, minute: int)

  const WINDOW := 10

  predicate Outgoing(t: Tx) { t.transfer && t.amount < 0 }

  predicate Incoming(t: Tx) { t.transfer && t.amount > 0 }

  /** Row i received what row o sent, at most ten minutes apart. */
  predicate Compatible(tx: seq<Tx>, i: nat, o: nat) {
    && i < |tx| && o < |tx|
    && Incoming(tx[i]) && Outgoing(tx[o])
    && tx[o].amount == -tx[i].amount
    && -WINDOW <= tx[o].minute - tx[i].minute <= WINDOW
  }

  /** A symmetric map between partner rows. */
  predicate IsPairing(tx: seq<Tx>, p: map<nat, nat>) {
    forall i :: i in p ==>
      && p[i] in p && p[p[i]] == i
      && (Compatible(tx, i, p[i]) || Compatible(tx, p[i], i))
  }

  predicate SortedByTime(tx: seq<Tx>) {
    forall i, j :: 0 <= i <= j < |tx| ==> tx[i].minute <= tx[j].minute
  }

  /** The same pairing seen from the receiving rows only. */
  predicate IsMatching(tx: seq<Tx>, m: map<nat, nat>) {
    && (forall i :: i in m ==> Compatible(tx, i, m[i]))
    && (forall i, k :: i in m && k in m && m[i] == m[k] ==> i == k)
  }

  function Receivers(tx: seq<Tx>, p: map<nat, nat>): (m: map<nat, nat>)
    requires IsPairing(tx, p)
    ensures IsMatching(tx, m) && m.Keys <= p.Keys
  {
    map i | i in p && Incoming(tx[i]) :: p[i]
  }

  // ---------------------------------------------------------------------- the exchange argument

  /** m agrees with the choices f made for the receiving rows before i. */
  ghost predicate Completes(tx: seq<Tx>, f: map<nat, nat>, i: nat, m: map<nat, nat>) {
    && IsMatching(tx, m)
    && (forall k :: k in f ==> k in m && m[k] == f[k])
    && (forall k :: k in m && k < i ==> k in f)
  }

  ghost predicate CanReach(tx: seq<Tx>, f: map<nat, nat>, i: nat, size: nat) {
    exists m :: Completes(tx, f, i, m) && |m| >= size
  }

  /** Row j is the first row that f leaves free for i. */
  ghost predicate FirstFree(tx: seq<Tx>, f: map<nat, nat>, i: nat, j: nat) {
    && Compatible(tx, i, j) && j !in f.Values
    && (forall o: nat :: o < j && Compatible(tx, i, o) ==> o in f.Values)
  }

  /**
   * Any completion of f can be rearranged, without losing a pair, into one that gives i the first
   * free row. If both i and that row were matched elsewhere, their partners can be matched with
   * each other, because both are later.
   */
  lemma {:induction false} Exchange(tx: seq<Tx>, f: map<nat, nat>, i: nat, j: nat, m: map<nat,
                                    nat>) returns (r: map<nat, nat>)
    requires SortedByTime(tx) && Completes(tx, f, i, m) && i !in f
    requires FirstFree(tx, f, i, j)
    ensures Completes(tx, f[i := j], i + 1, r) && |r| >= |m|
  {
    hide Compatible, SortedByTime;
    if j !in m.Values {
      Assign(tx, m, i, j);
      r := m[i := j];
      assert m.Keys <= r.Keys;
      Larger(m, r);
    } else {
      var k :| k in m && m[k] == j;
      assert k !in f;
      if k == i {
        r := m;
      } else if i in m {
        SwapIsCompatible(tx, f, i, j, k, m);
        r := Swap(tx, f, i, j, k, m);
      } else {
        r := Replace(tx, f, i, j, k, m);
      }
    }
  }

  lemma SwapMatches(tx: seq<Tx>, f: map<nat, nat>, i: nat, j: nat, k: nat, m: map<nat, nat>)
    requires Completes(tx, f, i, m) && Compatible(tx, i, j)
    requires i in m && k in m && m[k] == j && k != i && Compatible(tx, k, m[i])
    ensures IsMatching(tx, (m - {k})[i := j][k := m[i]])
  {
    hide Compatible, IsMatching;
    Drop(tx, m, k);
    Drop(tx, m, i);
    Assign(tx, m - {k}, i, j);
    Assign(tx, (m - {k})[i := j], k, m[i]);
  }

  lemma SwapCompletes(tx: seq<Tx>, f: map<nat, nat>, i: nat, j: nat, k: nat, m: map<nat, nat>, r: map<nat, nat>)
    requires Completes(tx, f, i, m) && i in m && k in m && k != i && k !in f && i !in f
    requires r == (m - {k})[i := j][k := m[i]] && IsMatching(tx, r)
    ensures Completes(tx, f[i := j], i + 1, r)
  {
    hide IsMatching;
  }

  lemma Swap(tx: seq<Tx>, f: map<nat, nat>, i: nat, j: nat, k: nat, m: map<nat, nat>) returns (r: map<nat, nat>)
    requires Completes(tx, f, i, m) && i !in f && Compatible(tx, i, j)
    requires i in m && k in m && m[k] == j && k != i && k !in f && Compatible(tx, k, m[i])
    ensures Completes(tx, f[i := j], i + 1, r) && |r| >= |m|
  {
    hide Compatible, IsMatching, Completes;
    r := (m - {k})[i := j][k := m[i]];
    SwapMatches(tx, f, i, j, k, m);
    SwapCompletes(tx, f, i, j, k, m, r);
    assert r.Keys == m.Keys;
    Larger(m, r);
  }

  lemma Replace(tx: seq<Tx>, f: map<nat, nat>, i: nat, j: nat, k: nat, m: map<nat, nat>) returns (r: map<nat, nat>)
    requires Completes(tx, f, i, m) && i !in f && Compatible(tx, i, j)
    requires i !in m && k in m && m[k] == j && k !in f
    ensures Completes(tx, f[i := j], i + 1, r) && |r| >= |m|
  {
    hide Compatible, IsMatching;
    Drop(tx, m, k);
    Assign(tx, m - {k}, i, j);
    r := (m - {k})[i := j];
    assert r.Keys == m.Keys - {k} + {i};
    Larger(m, r);
  }

  lemma Drop(tx: seq<Tx>, m: map<nat, nat>, k: nat)
    requires IsMatching(tx, m) && k in m
    ensures IsMatching(tx, m - {k})
    ensures forall l :: l in m && l != k ==> m[l] != m[k]
  {
  }

  lemma Assign(tx: seq<Tx>, m: map<nat, nat>, i: nat, j: nat)
    requires IsMatching(tx, m) && Compatible(tx, i, j)
    requires forall k :: k in m && m[k] == j ==> k == i
    ensures IsMatching(tx, m[i := j])
  {
    hide Compatible;
  }

  lemma Larger(m: map<nat, nat>, r: map<nat, nat>)
    requires |m.Keys| <= |r.Keys|
    ensures |m| <= |r|
  {
    assert |m| == |m.Keys| && |r| == |r.Keys|;
  }

  lemma SwapIsCompatible(tx: seq<Tx>, f: map<nat, nat>, i: nat, j: nat, k: nat, m: map<nat, nat>)
    requires SortedByTime(tx) && Completes(tx, f, i, m) && i !in f && FirstFree(tx, f, i, j)
    requires i in m && k in m && m[k] == j && k != i
    ensures Compatible(tx, k, m[i])
  {
    assert k > i;
    assert m[i] > j;
  }

  /** The choices made so far still allow a pairing as large as any. */
  ghost predicate Optimal(tx: seq<Tx>, f: map<nat, nat>, i: nat) {
    forall m :: IsMatching(tx, m) ==> CanReach(tx, f, i, |m|)
  }

  lemma StartOptimal(tx: seq<Tx>)
    ensures IsPairing(tx, map[]) && Receivers(tx, map[]) == map[]
    ensures Optimal(tx, map[], 0)
  {
    forall m | IsMatching(tx, m) ensures CanReach(tx, map[], 0, |m|) {
      assert Completes(tx, map[], 0, m);
    }
  }

  /** Taking the first free row keeps the choices optimal. */
  lemma {:induction false} TakeFirst(tx: seq<Tx>, f: map<nat, nat>, i: nat, j: nat)
    requires SortedByTime(tx) && Optimal(tx, f, i) && i !in f && FirstFree(tx, f, i, j)
    ensures Optimal(tx, f[i := j], i + 1)
  {
    forall m | IsMatching(tx, m) ensures CanReach(tx, f[i := j], i + 1, |m|) {
      var c :| Completes(tx, f, i, c) && |c| >= |m|;
      var r := Exchange(tx, f, i, j, c);
    }
  }

  /** So does passing over a row for which nothing is free. */
  lemma {:induction false} TakeNone(tx: seq<Tx>, f: map<nat, nat>, i: nat)
    requires Optimal(tx, f, i)
    requires forall o: nat :: Compatible(tx, i, o) ==> o in f.Values
    ensures Optimal(tx, f, i + 1)
  {
    forall m | IsMatching(tx, m) ensures CanReach(tx, f, i + 1, |m|) {
      var c :| Completes(tx, f, i, c) && |c| >= |m|;
      assert i in c ==> i in f;
      assert Completes(tx, f, i + 1, c);
    }
  }

  /** When all rows are decided, the only completion is the choice itself. */
  lemma {:induction false} AllDecided(tx: seq<Tx>, f: map<nat, nat>, m: map<nat, nat>)
    requires Optimal(tx, f, |tx|) && IsMatching(tx, m)
    ensures |m| <= |f|
  {
    hide IsMatching;
    var c :| Completes(tx, f, |tx|, c) && |c| >= |m|;
    RowsOf(tx, c);
    SameMap(f, c);
  }

  lemma RowsOf(tx: seq<Tx>, m: map<nat, nat>)
    requires IsMatching(tx, m)
    ensures forall k :: k in m ==> k < |tx|
  {
  }

  lemma SameMap(f: map<nat, nat>, c: map<nat, nat>)
    requires forall k :: k in f ==> k in c && c[k] == f[k]
    requires forall k :: k in c ==> k in f
    ensures f == c
  {
  }

  // ---------------------------------------------------------------------- sizes of pairings

  lemma {:induction false} InjectiveValues(m: map<nat, nat>)
    requires forall i, k :: i in m && k in m && m[i] == m[k] ==> i == k
    ensures |m.Values| == |m.Keys|
    decreases |m|
  {
    if m != map[] {
      var i :| i in m;
      var rest := m - {i};
      assert m.Keys == rest.Keys + {i};
      assert m.Values == rest.Values + {m[i]};
      InjectiveValues(rest);
    }
  }

  lemma BothSides(tx: seq<Tx>, p: map<nat, nat>)
    requires IsPairing(tx, p)
    ensures var m := Receivers(tx, p); p.Keys == m.Keys + m.Values && m.Keys !! m.Values
  {
    var m := Receivers(tx, p);
    forall o | o in p && o !in m ensures o in m.Values {
      assert m[p[o]] == o;
    }
  }

  /** Each pair counts twice in the symmetric map. */
  lemma PairingSize(tx: seq<Tx>, p: map<nat, nat>)
    requires IsPairing(tx, p)
    ensures |p| == 2 * |Receivers(tx, p)|
  {
    var m := Receivers(tx, p);
    InjectiveValues(m);
    BothSides(tx, p);
    hide IsPairing, IsMatching, Receivers;
    assert |p| == |p.Keys| && |m| == |m.Keys|;
  }

  /** The sum of the amounts of the given rows. */
  ghost function Total(tx: seq<Tx>, rows: set<nat>): int
    requires forall i :: i in rows ==> i < |tx|
    decreases |rows|
  {
    if rows == {} then 0
    else
      var i :| i in rows;
      tx[i].amount + Total(tx, rows - {i})
  }

  lemma {:induction false} TotalRemove(tx: seq<Tx>, rows: set<nat>, i: nat)
    requires forall k :: k in rows ==> k < |tx|
    requires i in rows
    ensures Total(tx, rows) == tx[i].amount + Total(tx, rows - {i})
    decreases |rows|
  {
    var k :| k in rows && Total(tx, rows) == tx[k].amount + Total(tx, rows - {k});
    if k != i {
      TotalRemove(tx, rows - {k}, i);
      TotalRemove(tx, rows - {i}, k);
      assert rows - {k} - {i} == rows - {i} - {k};
    }
  }

  /** Money that only changes its place cancels out: paired amounts sum to zero. */
  lemma {:induction false} PairedTotalIsZero(tx: seq<Tx>, p: map<nat, nat>)
    requires IsPairing(tx, p)
    ensures Total(tx, p.Keys) == 0
    decreases |p|
  {
    if p != map[] {
      var i :| i in p;
      var o := p[i];
      var rest := p - {i, o};
      assert rest.Keys == p.Keys - {i} - {o};
      TotalRemove(tx, p.Keys, i);
      TotalRemove(tx, p.Keys - {i}, o);
      assert |rest.Keys| < |p.Keys|;
      PairedTotalIsZero(tx, rest);
    }
  }

  // ---------------------------------------------------------------------- the greedy method

  /** The sending rows for an amount among the first n, in order. */
  function Senders(tx: seq<Tx>, amount: int, n: nat): (s: seq<nat>)
    requires n <= |tx|
    ensures forall o: nat :: o in s <==> o < n && Outgoing(tx[o]) && tx[o].amount == -amount
    ensures forall a :: 0 <= a < |s| ==> s[a] < n
    ensures forall a, b :: 0 <= a < b < |s| ==> s[a] < s[b]
  {
    if n == 0 then []
    else
      var s := Senders(tx, amount, n - 1);
      if Outgoing(tx[n - 1]) && tx[n - 1].amount == -amount then s + [n - 1] else s
  }

  function SendersIn(outs: map<int, seq<nat>>, amount: int): seq<nat> {
    if amount in outs then outs[amount] else []
  }

  /** The first candidate that is not paired yet and close enough in time. */
  method FindPartner(tx: seq<Tx>, paired: map<nat, nat>, i: nat, candidates: seq<nat>) returns (r: Option<nat>)
    requires i < |tx| && Incoming(tx[i]) && candidates == Senders(tx, tx[i].amount, |tx|)
    ensures r.Some? ==> Compatible(tx, i, r.value) && r.value !in paired
    ensures r.Some? ==> forall o: nat :: o < r.value && Compatible(tx, i, o) ==> o in paired
    ensures r == None ==> forall o: nat :: Compatible(tx, i, o) ==> o in paired
  {
    hide Senders;
    for n := 0 to |candidates|
      invariant forall l :: 0 <= l < n && Compatible(tx, i, candidates[l]) ==> candidates[l] in paired
    {
      var j := candidates[n];
      assert j in candidates;
      if j !in paired {
        var d := tx[j].minute - tx[i].minute;
        if -WINDOW <= d <= WINDOW { return Some(j); }
      }
    }
    return None;
  }

  lemma FirstFreeSender(tx: seq<Tx>, p: map<nat, nat>, i: nat, j: nat)
    requires IsPairing(tx, p) && Compatible(tx, i, j) && j !in p
    requires forall o: nat :: o < j && Compatible(tx, i, o) ==> o in p
    ensures Incoming(tx[i]) && FirstFree(tx, Receivers(tx, p), i, j)
  {
    UsedSenders(tx, p);
  }

  function Join(p: map<nat, nat>, i: nat, j: nat): map<nat, nat> {
    p[i := j][j := i]
  }

  lemma NoFreeSender(tx: seq<Tx>, p: map<nat, nat>, i: nat)
    requires IsPairing(tx, p)
    requires forall o: nat :: Compatible(tx, i, o) ==> o in p
    ensures forall o: nat :: Compatible(tx, i, o) ==> o in Receivers(tx, p).Values
  {
    UsedSenders(tx, p);
  }

  /** Adding two partners that were free. */
  lemma PairUp(tx: seq<Tx>, p: map<nat, nat>, i: nat, j: nat)
    requires IsPairing(tx, p) && Compatible(tx, i, j) && i !in p && j !in p
    ensures IsPairing(tx, Join(p, i, j)) && Outgoing(tx[j])
    ensures Receivers(tx, Join(p, i, j)) == Receivers(tx, p)[i := j]
  {
    JoinPairs(tx, p, i, j);
    hide IsPairing;
    JoinReceives(tx, p, i, j);
  }

  lemma JoinPairs(tx: seq<Tx>, p: map<nat, nat>, i: nat, j: nat)
    requires IsPairing(tx, p) && Compatible(tx, i, j) && i !in p && j !in p
    ensures IsPairing(tx, Join(p, i, j)) && Outgoing(tx[j])
  {
    hide Receivers;
  }

  lemma JoinReceives(tx: seq<Tx>, p: map<nat, nat>, i: nat, j: nat)
    requires IsPairing(tx, p) && IsPairing(tx, Join(p, i, j)) && Compatible(tx, i, j) && i !in p && j !in p
    ensures Receivers(tx, Join(p, i, j)) == Receivers(tx, p)[i := j]
  {
  }

  /** What holds once the first i rows are decided. */
  ghost predicate Decided(tx: seq<Tx>, p: map<nat, nat>, i: nat) {
    && IsPairing(tx, p)
    && (forall k :: k in p && Incoming(tx[k]) ==> k < i)
    && (forall k: nat, o: nat :: k < i && Compatible(tx, k, o) ==> k in p || o in p)
    && (SortedByTime(tx) ==> Optimal(tx, Receivers(tx, p), i))
  }

  lemma {:induction false} DecideNone(tx: seq<Tx>, p: map<nat, nat>, i: nat)
    requires Decided(tx, p, i)
    requires forall o: nat :: Compatible(tx, i, o) ==> o in p
    ensures Decided(tx, p, i + 1)
  {
    hide Compatible, Optimal, Receivers, IsPairing;
    NoFreeSender(tx, p, i);
    if SortedByTime(tx) { TakeNone(tx, Receivers(tx, p), i); }
  }

  lemma ReceiverIsFree(tx: seq<Tx>, p: map<nat, nat>, i: nat)
    requires Decided(tx, p, i) && i < |tx| && Incoming(tx[i])
    ensures i !in p && i !in Receivers(tx, p)
  {
  }

  lemma {:induction false} DecidePair(tx: seq<Tx>, p: map<nat, nat>, i: nat, j: nat)
    requires Decided(tx, p, i) && i < |tx| && Compatible(tx, i, j) && j !in p
    requires forall o: nat :: o < j && Compatible(tx, i, o) ==> o in p
    ensures Decided(tx, Join(p, i, j), i + 1)
  {
    hide Optimal, Receivers, FirstFree, Compatible, IsPairing;
    FirstFreeSender(tx, p, i, j);
    ReceiverIsFree(tx, p, i);
    PairUp(tx, p, i, j);
    if SortedByTime(tx) { TakeFirst(tx, Receivers(tx, p), i, j); }
  }

  lemma NothingDecided(tx: seq<Tx>)
    ensures Decided(tx, map[], 0)
  {
    StartOptimal(tx);
  }

  lemma LargestPairing(tx: seq<Tx>, p: map<nat, nat>)
    requires IsPairing(tx, p) && Optimal(tx, Receivers(tx, p), |tx|)
    ensures forall q :: IsPairing(tx, q) ==> |q| <= |p|
  {
    hide IsPairing, Optimal, Receivers;
    forall q | IsPairing(tx, q) ensures |q| <= |p| {
      AllDecided(tx, Receivers(tx, p), Receivers(tx, q));
      PairingSize(tx, q);
      PairingSize(tx, p);
    }
  }

  /** A sending row is used exactly when some receiving row has it. */
  lemma UsedSenders(tx: seq<Tx>, p: map<nat, nat>)
    requires IsPairing(tx, p)
    ensures forall o: nat :: o < |tx| && Outgoing(tx[o]) ==> (o in p <==> o in Receivers(tx, p).Values)
  {
    var m := Receivers(tx, p);
    forall o | o in p && Outgoing(tx[o]) ensures o in m.Values {
      assert m[p[o]] == o;
    }
  }

  /** The sending rows of every amount. */
  method CollectSenders(tx: seq<Tx>) returns (outs: map<int, seq<nat>>)
    ensures forall a :: SendersIn(outs, a) == Senders(tx, a, |tx|)
  {
    outs := map[];
    for i: nat := 0 to |tx|
      invariant forall a :: SendersIn(outs, a) == Senders(tx, a, i)
    {
      if Outgoing(tx[i]) {
        var a := -tx[i].amount;
        outs := outs[a := SendersIn(outs, a) + [i]];
      }
    }
  }

  method FinPairs(tx: seq<Tx>) returns (paired: map<nat, nat>)
    ensures IsPairing(tx, paired)
    ensures forall i: nat, o: nat :: Compatible(tx, i, o) ==> i in paired || o in paired
    ensures SortedByTime(tx) ==> forall q :: IsPairing(tx, q) ==> |q| <= |paired|
  {
    hide Compatible, Decided;
    var outs := CollectSenders(tx);
    paired := map[];
    NothingDecided(tx);
    for i: nat := 0 to |tx|
      invariant Decided(tx, paired, i)
    {
      var partner := None;
      if Incoming(tx[i]) {
        partner := FindPartner(tx, paired, i, SendersIn(outs, tx[i].amount));
      } else {
        OnlyReceivers(tx, i);
      }
      if partner.Some? {
        DecidePair(tx, paired, i, partner.value);
        paired := Join(paired, i, partner.value);
      } else {
        DecideNone(tx, paired, i);
      }
    }
    AllRowsDecided(tx, paired);
  }

  lemma {:induction false} AllRowsDecided(tx: seq<Tx>, p: map<nat, nat>)
    requires Decided(tx, p, |tx|)
    ensures IsPairing(tx, p)
    ensures forall i: nat, o: nat :: Compatible(tx, i, o) ==> i in p || o in p
    ensures SortedByTime(tx) ==> forall q :: IsPairing(tx, q) ==> |q| <= |p|
  {
    hide IsPairing, Optimal, Receivers;
    if SortedByTime(tx) { LargestPairing(tx, p); }
  }

  lemma OnlyReceivers(tx: seq<Tx>, i: nat)
    ensures forall o: nat :: Compatible(tx, i, o) ==> Incoming(tx[i])
  {
  }
}
