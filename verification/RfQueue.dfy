module RfQueue {
  // The transmit queue of the 447 MHz bridge: the latest command of each device, served first come first
  // served, with a wake channel of one slot between the callers and the transmit loop.
  //
  // A caller changes the queue under the lock and signals afterwards, outside it, so callers and the loop
  // interleave at those points. Every theorem about steps holds for any number of callers and any order.

  import opened Bytes

  type Id = string

  // ---------------------------------------------------------------------- the queue

  datatype Queue<T> = Queue(pending: map<Id, T>, order: seq<Id>)

  /** The waiting devices, each once, are exactly those with a command. */
  ghost predicate Orderly<T>(q: Queue<T>) {
    && (forall i, j :: 0 <= i < j < |q.order| ==> q.order[i] != q.order[j])
    && (forall id :: id in q.order <==> id in q.pending)
  }

  /** A new command: it takes the place of the waiting one, or queues the device. */
  function Put<T>(q: Queue<T>, id: Id, t: T): Queue<T> {
    Queue(q.pending[id := t], if id in q.pending then q.order else q.order + [id])
  }

  function Front<T>(q: Queue<T>): (r: Option<(Id, T)>)
    requires Orderly(q)
    ensures r.Some? <==> q.order != []
  {
    if q.order == [] then None else Some((q.order[0], q.pending[q.order[0]]))
  }

  function Rest<T>(q: Queue<T>): Queue<T> {
    if q.order == [] then q else Queue(q.pending - {q.order[0]}, q.order[1..])
  }

  lemma PutKeepsOrder<T>(q: Queue<T>, id: Id, t: T)
    requires Orderly(q)
    ensures Orderly(Put(q, id, t))
  {
  }

  lemma RestKeepsOrder<T>(q: Queue<T>)
    requires Orderly(q)
    ensures Orderly(Rest(q))
  {
  }

  /** The queue and wake slot of the driver. A method is what one thread does without giving way. */
  class Driver<T> {
    var pending: map<Id, T>
    var order: seq<Id>
    var wake: bool

    ghost function Value(): Queue<T>
      reads this
    {
      Queue(pending, order)
    }

    constructor ()
      ensures Value() == Queue(map[], []) && Orderly(Value()) && !wake
    {
      pending, order, wake := map[], [], false;
    }

    /** The locked part of enqueue. */
    method Add(id: Id, t: T)
      requires Orderly(Value())
      modifies this
      ensures Value() == Put(old(Value()), id, t) && Orderly(Value()) && wake == old(wake)
    {
      if id !in pending { order := order + [id]; }
      pending := pending[id := t];
    }

    /** The signal after it: a full slot is left as it is. */
    method Signal()
      modifies this
      ensures wake && Value() == old(Value())
    {
      wake := true;
    }

    method Pop() returns (r: Option<(Id, T)>)
      requires Orderly(Value())
      modifies this
      ensures r == Front(old(Value())) && Value() == Rest(old(Value())) && Orderly(Value()) && wake == old(wake)
    {
      if |order| == 0 { return None; }
      var id := order[0];
      r := Some((id, pending[id]));
      order := order[1..];
      pending := pending - {id};
    }
  }

  // ---------------------------------------------------------------------- first come, first served

  datatype Op<T> = Add(id: Id, t: T) | Pop

  function Apply<T>(q: Queue<T>, op: Op<T>): Queue<T> {
    match op
    case Add(id, t) => Put(q, id, t)
    case Pop => Rest(q)
  }

  function ApplyAll<T>(q: Queue<T>, ops: seq<Op<T>>): Queue<T>
    decreases |ops|
  {
    if ops == [] then q else ApplyAll(Apply(q, ops[0]), ops[1..])
  }

  function Pops<T>(ops: seq<Op<T>>): nat {
    if ops == [] then 0 else Pops(ops[1..]) + if ops[0].Pop? then 1 else 0
  }

  /** The last command for a device, when it starts out with the given one. */
  function Latest<T>(ops: seq<Op<T>>, id: Id, t: T): T {
    if ops == [] then t
    else Latest(ops[1..], id, if ops[0].Add? && ops[0].id == id then ops[0].t else t)
  }

  /**
   * A device behind k others is at the front after k pops, whatever else was added meanwhile, and the
   * next pop transmits its latest command.
   */
  lemma {:induction false} ServedInTurn<T>(q: Queue<T>, ops: seq<Op<T>>, k: nat)
    requires Orderly(q) && k < |q.order| && Pops(ops) == k
    ensures Orderly(ApplyAll(q, ops))
    decreases |ops|
    ensures Front(ApplyAll(q, ops)) == Some((q.order[k], Latest(ops, q.order[k], q.pending[q.order[k]])))
  {
    InPlace(q, k);
    if ops != [] {
      hide Orderly, Put, Rest;
      var q' := Apply(q, ops[0]);
      if ops[0].Pop? {
        OneAhead(q, k);
        ServedInTurn(q', ops[1..], k - 1);
      } else {
        NoneAhead(q, ops[0].id, ops[0].t, k);
        NoPopsLeft(ops, k);
        ServedInTurn(q', ops[1..], k);
      }
    } else {
      assert ApplyAll(q, ops) == q;
    }
  }

  lemma InPlace<T>(q: Queue<T>, k: nat)
    requires Orderly(q) && k < |q.order|
    ensures q.order[k] in q.pending
  {
  }

  /** A pop brings the devices behind the first one forward. */
  lemma OneAhead<T>(q: Queue<T>, k: nat)
    requires Orderly(q) && 0 < k < |q.order|
    ensures Orderly(Rest(q)) && k - 1 < |Rest(q).order| && Rest(q).order[k - 1] == q.order[k]
    ensures q.order[k] in Rest(q).pending && Rest(q).pending[q.order[k]] == q.pending[q.order[k]]
  {
    RestKeepsOrder(q);
  }

  /** A new command leaves every device where it is. */
  lemma NoneAhead<T>(q: Queue<T>, id: Id, t: T, k: nat)
    requires Orderly(q) && k < |q.order|
    ensures Orderly(Put(q, id, t)) && k < |Put(q, id, t).order| && Put(q, id, t).order[k] == q.order[k]
    ensures q.order[k] in Put(q, id, t).pending
    ensures Put(q, id, t).pending[q.order[k]] == if id == q.order[k] then t else q.pending[q.order[k]]
  {
    PutKeepsOrder(q, id, t);
  }

  lemma NoPopsLeft<T>(ops: seq<Op<T>>, k: nat)
    requires ops != [] && ops[0].Add? && Pops(ops) == k
    ensures Pops(ops[1..]) == k
  {
  }

  /** How many commands were superseded before they were transmitted. */
  function Superseded<T>(q: Queue<T>, ops: seq<Op<T>>): nat
    decreases |ops|
  {
    if ops == [] then 0
    else Superseded(Apply(q, ops[0]), ops[1..]) + if ops[0].Add? && ops[0].id in q.pending then 1 else 0
  }

  function Sent<T>(q: Queue<T>, ops: seq<Op<T>>): nat
    decreases |ops|
  {
    if ops == [] then 0
    else Sent(Apply(q, ops[0]), ops[1..]) + if ops[0].Pop? && q.order != [] then 1 else 0
  }

  /** No command is lost or made up: each is waiting, was transmitted or was superseded. */
  lemma {:induction false} EveryCommandAccounted<T>(q: Queue<T>, ops: seq<Op<T>>)
    requires Orderly(q)
    ensures |q.order| + (|ops| - Pops(ops))
         == |ApplyAll(q, ops).order| + Sent(q, ops) + Superseded(q, ops)
    decreases |ops|
  {
    if ops != [] {
      if ops[0].Add? { PutKeepsOrder(q, ops[0].id, ops[0].t); } else { RestKeepsOrder(q); }
      EveryCommandAccounted(Apply(q, ops[0]), ops[1..]);
    }
  }

  // ---------------------------------------------------------------------- callers and the loop

  /** Where the transmit loop is. */
  datatype Loop<T> = Popping | Waiting | Sending(id: Id, t: T) | Pacing | Stopped

  /** `signals` counts the callers that have added their command but not signalled yet. */
  datatype State<T> = State(q: Queue<T>, token: bool, signals: nat, loop: Loop<T>, cancelled: bool)

  function Start<T>(): State<T> {
    State(Queue(map[], []), false, 0, Popping, false)
  }

  datatype Action<T> =
    | CallerAdds(id: Id, t: T)
    | CallerSignals
    | LoopPops
    | LoopWakes
    | LoopSeesCancel
    | LoopPublishes(ok: bool)
    | LoopPaced
    | Cancel

  predicate Enabled<T>(s: State<T>, a: Action<T>) {
    match a
    case CallerAdds(_, _) => true
    case CallerSignals => s.signals > 0
    case LoopPops => s.loop.Popping?
    case LoopWakes => s.loop.Waiting? && s.token
    case LoopSeesCancel => s.loop.Waiting? && s.cancelled
    case LoopPublishes(_) => s.loop.Sending?
    case LoopPaced => s.loop.Pacing?
    case Cancel => true
  }

  function Next<T>(s: State<T>, a: Action<T>): State<T>
    requires Orderly(s.q) && Enabled(s, a)
  {
    match a
    case CallerAdds(id, t) => s.(q := Put(s.q, id, t), signals := s.signals + 1)
    case CallerSignals => s.(token := true, signals := s.signals - 1)
    case LoopPops =>
      s.(q := Rest(s.q),
         loop := if Front(s.q).None? then Waiting else Sending(Front(s.q).value.0, Front(s.q).value.1))
    case LoopWakes => s.(token := false, loop := Popping)
    case LoopSeesCancel => s.(loop := Stopped)
    case LoopPublishes(ok) => s.(loop := if ok then Pacing else Popping)
    case LoopPaced => s.(loop := if s.cancelled then Stopped else Popping)
    case Cancel => s.(cancelled := true)
  }

  /** If the loop waits and a command is queued, a token is in the slot or about to be put there. */
  ghost predicate Awake<T>(s: State<T>) {
    && Orderly(s.q)
    && (s.loop.Waiting? && s.q.order != [] ==> s.token || s.signals > 0)
    && (s.loop.Stopped? ==> s.cancelled)
  }

  ghost predicate Trace<T>(states: seq<State<T>>, actions: seq<Action<T>>) {
    && |states| == |actions| + 1
    && forall i :: 0 <= i < |actions| ==>
         Orderly(states[i].q) && Enabled(states[i], actions[i]) && states[i + 1] == Next(states[i], actions[i])
  }

  lemma StepStaysAwake<T>(s: State<T>, a: Action<T>)
    requires Awake(s) && Enabled(s, a)
    ensures Awake(Next(s, a))
  {
    if a.CallerAdds? { PutKeepsOrder(s.q, a.id, a.t); }
    if a.LoopPops? { RestKeepsOrder(s.q); }
  }

  /** No wakeup is lost in any interleaving. */
  lemma {:induction false} NoWakeupLost<T>(states: seq<State<T>>, actions: seq<Action<T>>, n: nat)
    requires Trace(states, actions) && Awake(states[0]) && n < |states|
    ensures Awake(states[n])
  {
    if n > 0 {
      NoWakeupLost(states, actions, n - 1);
      StepStaysAwake(states[n - 1], actions[n - 1]);
    }
  }

  /** So if neither a caller nor the loop can do anything, every command has gone out or the loop was told to stop. */
  lemma QuietMeansDone<T>(states: seq<State<T>>, actions: seq<Action<T>>)
    requires Trace(states, actions) && states[0] == Start<T>()
    requires var s := states[|actions|];
             forall a: Action<T> :: Enabled(s, a) ==> a.CallerAdds? || a.Cancel?
    ensures var s := states[|actions|]; (s.loop.Waiting? && s.q.order == []) || (s.loop.Stopped? && s.cancelled)
  {
    NoWakeupLost(states, actions, |actions|);
    var s := states[|actions|];
    var signal, pop, wake, publish, paced: Action<T> := CallerSignals, LoopPops, LoopWakes, LoopPublishes(true), LoopPaced;
    assert !Enabled(s, signal) && !Enabled(s, pop) && !Enabled(s, wake) && !Enabled(s, publish) && !Enabled(s, paced);
  }

  /** The queue operation of a step, if it is one. */
  function OpOf<T>(a: Action<T>): seq<Op<T>> {
    match a
    case CallerAdds(id, t) => [Add(id, t)]
    case LoopPops => [Pop]
    case _ => []
  }

  function Ops<T>(actions: seq<Action<T>>): seq<Op<T>> {
    if actions == [] then [] else OpOf(actions[0]) + Ops(actions[1..])
  }

  lemma StepIsOp<T>(s: State<T>, a: Action<T>, ops: seq<Op<T>>)
    requires Orderly(s.q) && Enabled(s, a)
    ensures ApplyAll(s.q, OpOf(a) + ops) == ApplyAll(Next(s, a).q, ops)
  {
    if OpOf(a) != [] {
      var all := OpOf(a) + ops;
      assert all[0] == OpOf(a)[0] && all[1..] == ops;
    } else {
      assert OpOf(a) + ops == ops;
    }
  }

  /** The queue of an interleaved run is that of its queue operations, one after the other. */
  lemma {:induction false} RunIsSerial<T>(states: seq<State<T>>, actions: seq<Action<T>>)
    requires Trace(states, actions)
    ensures states[|actions|].q == ApplyAll(states[0].q, Ops(actions))
    decreases |actions|
  {
    if actions != [] {
      hide ApplyAll, OpOf, Next, Enabled, Orderly;
      StepIsOp(states[0], actions[0], Ops(actions[1..]));
      RunIsSerial(states[1..], actions[1..]);
    }
  }

  /**
   * In every interleaving, when the loop pops with k pops since a device was k-th in the queue, it
   * sends that device's latest command.
   */
  lemma LoopServesInTurn<T>(states: seq<State<T>>, actions: seq<Action<T>>, k: nat)
    requires Trace(states, actions) && Awake(states[0])
    requires k < |states[0].q.order| && Pops(Ops(actions)) == k
    requires Enabled(states[|actions|], LoopPops)
    ensures Orderly(states[|actions|].q)
    ensures Next(states[|actions|], LoopPops).loop
         == Sending(states[0].q.order[k],
                    Latest(Ops(actions), states[0].q.order[k], states[0].q.pending[states[0].q.order[k]]))
  {
    ServedInTurn(states[0].q, Ops(actions), k);
    RunIsSerial(states, actions);
  }
}
