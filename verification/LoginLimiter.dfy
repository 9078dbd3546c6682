module LoginLimiter {
  // The login limiter of the planner: one row a key, where a key is an account or an IP address. An account
  // is locked after repeated failures, an address after repeated unknown names, and an address may make
  // twenty attempts a window of fifteen minutes. Old rows are purged now and then.
  //
  // Times are in seconds. The theorems are about every sequential run of check-then-record attempts and
  // purges at nondecreasing times.

  import opened Bytes

  const ACCOUNT_THRESHOLD := 5
  const UNKNOWN_THRESHOLD := 3
  const UNKNOWN_LOCK := 3600
  const WINDOW := 900
  const IP_MAX := 20

  // ---------------------------------------------------------------------- rows

  datatype Key = User(name: string) | Ip(address: string)

  datatype Row = Row(fails: nat, start: int, count: nat, locked: int)

  type Table = map<Key, Row>

  datatype Outcome = Success | WrongPass | UnknownUser

  datatype Gate = Allowed | Blocked(retry: int)

  /** How long the row of one key makes the caller wait, if it does. */
  function Wait(rows: Table, key: Key, now: int): (r: Option<int>) {
    if key !in rows then None
    else if rows[key].locked > now then Some(rows[key].locked - now)
    else if key.Ip? && now - rows[key].start < WINDOW && rows[key].count >= IP_MAX then
      Some(WINDOW - (now - rows[key].start))
    else None
  }

  /** The account is looked at before the address; an empty name or address has no key. */
  function KeysFor(account: string, ip: string): seq<Key> {
    (if account == "" then [] else [User(account)]) + (if ip == "" then [] else [Ip(ip)])
  }

  function Check(rows: Table, account: string, ip: string, now: int): Gate {
    if account != "" && Wait(rows, User(account), now).Some? then Blocked(Wait(rows, User(account), now).value)
    else if ip != "" && Wait(rows, Ip(ip), now).Some? then Blocked(Wait(rows, Ip(ip), now).value)
    else Allowed
  }

  /** An attempt is let through exactly if no key of it has to wait, and otherwise the wait is not over. */
  lemma CheckIsAllKeys(rows: Table, account: string, ip: string, now: int)
    ensures Check(rows, account, ip, now).Allowed? <==> forall k :: k in KeysFor(account, ip) ==> Wait(rows, k, now) == None
    ensures Check(rows, account, ip, now).Blocked? ==> Check(rows, account, ip, now).retry > 0
  {
    var keys := KeysFor(account, ip);
    assert account != "" ==> keys[0] == User(account);
    assert ip != "" ==> keys[|keys| - 1] == Ip(ip);
  }

  /** The wait that is reported runs down as time passes; when it is over, so is the lock, or the window of the address. */
  lemma WaitRunsDown(rows: Table, key: Key, now: int, later: int)
    requires Wait(rows, key, now).Some? && now <= later
    ensures var r := Wait(rows, key, now).value;
            && r > 0
            && (later < now + r ==> Wait(rows, key, later) == Some(now + r - later))
            && (later >= now + r && rows[key].locked <= now ==> Wait(rows, key, later) == None)
            && (later >= now + r ==> rows[key].locked <= later)
  {
  }

  function LockStep(fails: nat): (seconds: nat)
    ensures fails >= ACCOUNT_THRESHOLD ==> seconds >= 60
    ensures fails < ACCOUNT_THRESHOLD ==> seconds == 0
  {
    if fails < ACCOUNT_THRESHOLD then 0
    else if fails == ACCOUNT_THRESHOLD then 60
    else if fails == ACCOUNT_THRESHOLD + 1 then 300
    else if fails == ACCOUNT_THRESHOLD + 2 then 900
    else 3600
  }

  function Fails(rows: Table, key: Key): nat {
    if key in rows then rows[key].fails else 0
  }

  /** One more attempt in the address's window, or the first of a new window. */
  function WindowBumped(rows: Table, key: Key, now: int): Table {
    if key !in rows then rows[key := Row(0, now, 1, 0)]
    else if now - rows[key].start >= WINDOW then rows[key := rows[key].(start := now, count := 1)]
    else rows[key := rows[key].(count := rows[key].count + 1)]
  }

  function UnknownBumped(rows: Table, key: Key, now: int): Table
    requires key in rows
  {
    var fails := rows[key].fails + 1;
    rows[key := rows[key].(fails := fails, locked := if fails >= UNKNOWN_THRESHOLD then now + UNKNOWN_LOCK else 0)]
  }

  function AccountRecorded(rows: Table, key: Key, success: bool, now: int): Table {
    if success then rows - {key}
    else
      var fails := Fails(rows, key) + 1;
      var locked := if fails >= ACCOUNT_THRESHOLD then now + LockStep(fails) else 0;
      rows[key := if key in rows then rows[key].(fails := fails, locked := locked) else Row(fails, now, 0, locked)]
  }

  function Recorded(rows: Table, account: string, ip: string, outcome: Outcome, now: int): Table {
    var a :=
      if ip == "" then rows
      else if outcome == UnknownUser then UnknownBumped(WindowBumped(rows, Ip(ip), now), Ip(ip), now)
      else WindowBumped(rows, Ip(ip), now);
    if account == "" then a else AccountRecorded(a, User(account), outcome == Success, now)
  }

  function Purged(rows: Table, now: int): (r: Table) {
    map k | k in rows && !(rows[k].locked <= now && rows[k].start < now - WINDOW) :: rows[k]
  }

  /** The table of attempts; a method is one transaction. */
  class LoginStore {
    var rows: Table

    constructor ()
      ensures rows == map[]
    {
      rows := map[];
    }

    /** Whether an attempt is let through, and how long to wait otherwise. */
    method CheckLogin(account: string, ip: string, now: int) returns (gate: Gate)
      ensures gate == Check(rows, account, ip, now)
    {
      hide Check;
      CheckIsAllKeys(rows, account, ip, now);
      var keys := KeysFor(account, ip);
      var i := 0;
      while i < |keys|
        invariant 0 <= i <= |keys|
        invariant forall j :: 0 <= j < i ==> Wait(rows, keys[j], now) == None
      {
        var key := keys[i];
        FirstToWait(rows, account, ip, now, i);
        if key in rows {
          var row := rows[key];
          if row.locked > now { return Blocked(row.locked - now); }
          if key.Ip? && now - row.start < WINDOW && row.count >= IP_MAX {
            return Blocked(WINDOW - (now - row.start));
          }
        }
        i := i + 1;
      }
      gate := Allowed;
    }

    method BumpWindow(key: Key, now: int)
      modifies this
      ensures rows == WindowBumped(old(rows), key, now)
    {
      var start, count := now, 0;
      if key in rows && now - rows[key].start < WINDOW {
        start, count := rows[key].start, rows[key].count;
      }
      rows := rows[key := if key !in rows then Row(0, start, count + 1, 0) else rows[key].(start := start, count := count + 1)];
    }

    method BumpUnknown(key: Key, now: int)
      requires key in rows
      modifies this
      ensures rows == UnknownBumped(old(rows), key, now)
    {
      var fails := rows[key].fails + 1;
      var locked := 0;
      if fails >= UNKNOWN_THRESHOLD { locked := now + UNKNOWN_LOCK; }
      rows := rows[key := rows[key].(fails := fails, locked := locked)];
    }

    /** Records the outcome of an attempt that was let through. */
    method RecordAttempt(account: string, ip: string, outcome: Outcome, now: int)
      modifies this
      ensures rows == Recorded(old(rows), account, ip, outcome, now)
    {
      if ip != "" {
        BumpWindow(Ip(ip), now);
        if outcome == UnknownUser { BumpUnknown(Ip(ip), now); }
      }
      if account != "" {
        var key := User(account);
        if outcome == Success {
          rows := rows - {key};
        } else {
          var fails: nat := 0;
          if key in rows { fails := rows[key].fails; }
          fails := fails + 1;
          var locked := 0;
          if fails >= ACCOUNT_THRESHOLD { locked := now + LockStep(fails); }
          var row := Row(fails, now, 0, locked);
          if key in rows { row := rows[key].(fails := fails, locked := locked); }
          rows := rows[key := row];
        }
      }
    }

    /** Drops the rows that are not locked and whose window is over. */
    method PurgeLoginAttempts(now: int) returns (n: nat)
      modifies this
      ensures rows == Purged(old(rows), now)
      ensures n == |old(rows)| - |rows|
    {
      var kept := Purged(rows, now);
      assert kept.Keys <= rows.Keys;
      CardinalityOfSubset(kept.Keys, rows.Keys);
      n := |rows| - |kept|;
      rows := kept;
    }
  }

  lemma FirstToWait(rows: Table, account: string, ip: string, now: int, i: nat)
    requires i < |KeysFor(account, ip)|
    requires forall j :: 0 <= j < i ==> Wait(rows, KeysFor(account, ip)[j], now) == None
    ensures Wait(rows, KeysFor(account, ip)[i], now).Some? ==>
              Check(rows, account, ip, now) == Blocked(Wait(rows, KeysFor(account, ip)[i], now).value)
  {
    hide Wait;
    var keys := KeysFor(account, ip);
    assert account != "" ==> keys[0] == User(account);
    assert ip != "" ==> keys[|keys| - 1] == Ip(ip);
    if i == 1 { assert Wait(rows, keys[0], now) == None; }
  }

  lemma {:induction false} CardinalityOfSubset<T>(a: set<T>, b: set<T>)
    requires a <= b
    ensures |a| <= |b|
  {
    if a != {} {
      var x :| x in a;
      CardinalityOfSubset(a - {x}, b - {x});
    }
  }

  // ---------------------------------------------------------------------- runs

  datatype Event =
    | Attempt(account: string, ip: string, outcome: Outcome, at: int)
    | Purge(at: int)

  predicate LetThrough(rows: Table, e: Event) {
    e.Attempt? && Check(rows, e.account, e.ip, e.at).Allowed?
  }

  /** An attempt is checked and, if let through, recorded at the same time; a refused one leaves no trace. */
  function Step(rows: Table, e: Event): Table {
    match e
    case Purge(at) => Purged(rows, at)
    case Attempt(account, ip, outcome, at) =>
      if LetThrough(rows, e) then Recorded(rows, account, ip, outcome, at) else rows
  }

  function Run(rows: Table, es: seq<Event>): Table {
    if es == [] then rows else Step(Run(rows, es[..|es| - 1]), es[|es| - 1])
  }

  predicate InOrder(es: seq<Event>) {
    forall i, j :: 0 <= i < j < |es| ==> es[i].at <= es[j].at
  }

  predicate From(rows: Table, e: Event, ip: string) {
    LetThrough(rows, e) && e.ip == ip
  }

  /** The times at which a run from an empty table let an attempt of this address through. */
  function Times(es: seq<Event>, ip: string): (r: seq<int>)
    ensures es == [] ==> r == []
  {
    if es == [] then []
    else
      var p, e := es[..|es| - 1], es[|es| - 1];
      Times(p, ip) + (if From(Run(map[], p), e, ip) then [e.at] else [])
  }

  // ---------------------------------------------------------------------- windows of attempts

  predicate Sorted(ts: seq<int>) {
    forall i, j :: 0 <= i < j < |ts| ==> ts[i] <= ts[j]
  }

  /** The index of the attempt that opened the window of the last attempt. */
  function Opening(ts: seq<int>): (f: nat)
    requires ts != []
    ensures f < |ts|
  {
    if |ts| == 1 then 0
    else
      var f := Opening(ts[..|ts| - 1]);
      if ts[|ts| - 1] - ts[f] >= WINDOW then |ts| - 1 else f
  }

  /** A window is shorter than fifteen minutes, and the one before it opened at least that long before. */
  lemma {:induction false} Windows(ts: seq<int>)
    requires ts != []
    ensures var f := Opening(ts);
            && (forall i :: f <= i < |ts| ==> ts[i] - ts[f] < WINDOW)
            && (f > 0 ==> ts[f] - ts[Opening(ts[..f])] >= WINDOW)
  {
    if |ts| > 1 {
      var p := ts[..|ts| - 1];
      Windows(p);
      var f := Opening(p);
      assert p[..f] == ts[..f];
    }
  }

  ghost predicate Limited(ts: seq<int>) {
    forall n {:trigger ts[..n]} :: 0 < n <= |ts| ==> n - Opening(ts[..n]) <= IP_MAX
  }

  /** No attempt before a window's opening is at its opening's time. */
  lemma BeforeOpening(ts: seq<int>, i: nat)
    requires ts != [] && Sorted(ts) && i < Opening(ts)
    ensures ts[i] < ts[Opening(ts)]
  {
    var f := Opening(ts);
    Windows(ts);
    Windows(ts[..f]);
    assert ts[i] <= ts[..f][f - 1];
  }

  /** Two attempts at most fifteen minutes apart are in the same window or in neighbouring ones. */
  lemma Crowded(ts: seq<int>, i: nat, j: nat)
    requires Sorted(ts) && Limited(ts) && i <= j < |ts|
    ensures ts[j] - ts[i] <= WINDOW ==> j - i + 1 <= 2 * IP_MAX
    ensures ts[j] - ts[i] < WINDOW ==> j - i + 1 <= 2 * IP_MAX - 1
  {
    var p := ts[..j + 1];
    var f := Opening(p);
    Windows(p);
    if i < f && ts[j] - ts[i] <= WINDOW {
      var q := p[..f];
      assert q == ts[..f];
      var g := Opening(q);
      assert ts[g] <= ts[i];
      if i < g {
        BeforeOpening(q, i);
        assert false;
      }
    }
  }

  // ---------------------------------------------------------------------- the table follows the windows

  /** What the table knows of an address once the given attempts were let through. */
  ghost predicate Follows(rows: Table, ip: string, ts: seq<int>, clock: int) {
    && Sorted(ts) && Limited(ts)
    && (forall i :: 0 <= i < |ts| ==> ts[i] <= clock)
    && (ts == [] ==> Ip(ip) !in rows)
    && (ts != [] && Ip(ip) in rows ==>
          rows[Ip(ip)].start == ts[Opening(ts)] && rows[Ip(ip)].count == |ts| - Opening(ts))
    && (ts != [] && Ip(ip) !in rows ==> clock - ts[Opening(ts)] > WINDOW)
  }

  /** The row of the address after an attempt of it was let through. */
  lemma Bumped(rows: Table, ip: string, e: Event)
    requires LetThrough(rows, e) && e.ip == ip && ip != ""
    ensures Ip(ip) in rows && e.at - rows[Ip(ip)].start < WINDOW ==> rows[Ip(ip)].count < IP_MAX
    ensures Ip(ip) in Step(rows, e)
    ensures var row := Step(rows, e)[Ip(ip)];
            if Ip(ip) in rows && e.at - rows[Ip(ip)].start < WINDOW then
              row.start == rows[Ip(ip)].start && row.count == rows[Ip(ip)].count + 1
            else row.start == e.at && row.count == 1
  {
    assert Ip(ip) in KeysFor(e.account, ip);
    assert Wait(rows, Ip(ip), e.at) == None;
  }

  lemma OpeningOfMore(ts: seq<int>, t: int)
    ensures Opening(ts + [t]) == if ts != [] && t - ts[Opening(ts)] < WINDOW then Opening(ts) else |ts|
  {
    assert (ts + [t])[..|ts|] == ts;
  }

  lemma Extended(ts: seq<int>, t: int)
    requires Sorted(ts) && Limited(ts) && forall i :: 0 <= i < |ts| ==> ts[i] <= t
    requires ts != [] && t - ts[Opening(ts)] < WINDOW ==> |ts| - Opening(ts) < IP_MAX
    ensures Sorted(ts + [t]) && Limited(ts + [t])
  {
    hide Opening;
    var us := ts + [t];
    OpeningOfMore(ts, t);
    forall n | 0 < n <= |us| ensures n - Opening(us[..n]) <= IP_MAX {
      if n <= |ts| {
        assert us[..n] == ts[..n];
      } else {
        assert us[..n] == us;
      }
    }
  }

  lemma OneMore(rows: Table, ip: string, ts: seq<int>, clock: int, e: Event)
    requires Follows(rows, ip, ts, clock) && clock <= e.at && ip != ""
    requires LetThrough(rows, e) && e.ip == ip
    ensures Follows(Step(rows, e), ip, ts + [e.at], e.at)
  {
    hide LetThrough, Step, Opening, Limited;
    Bumped(rows, ip, e);
    OpeningOfMore(ts, e.at);
    Extended(ts, e.at);
  }

  lemma SameRow(rows: Table, ip: string, ts: seq<int>, clock: int, e: Event)
    requires Follows(rows, ip, ts, clock) && clock <= e.at
    requires !From(rows, e, ip)
    ensures Follows(Step(rows, e), ip, ts, e.at)
  {
    hide Limited, Opening;
    if LetThrough(rows, e) {
      assert Ip(ip) in rows <==> Ip(ip) in Step(rows, e);
      assert Ip(ip) in rows ==> Step(rows, e)[Ip(ip)] == rows[Ip(ip)];
    }
  }

  lemma {:induction false} RunFollows(es: seq<Event>, ip: string) returns (clock: int)
    requires InOrder(es) && ip != ""
    ensures Follows(Run(map[], es), ip, Times(es, ip), clock)
    ensures es != [] ==> clock == es[|es| - 1].at
  {
    if es == [] {
      clock := 0;
    } else {
      var p, e := es[..|es| - 1], es[|es| - 1];
      var before := RunFollows(p, ip);
      clock := e.at;
      if p == [] {
        assert Follows(map[], ip, [], clock);
        before := clock;
      }
      hide Follows, Step, LetThrough;
      if From(Run(map[], p), e, ip) {
        OneMore(Run(map[], p), ip, Times(p, ip), before, e);
      } else {
        SameRow(Run(map[], p), ip, Times(p, ip), before, e);
        assert Times(es, ip) == Times(p, ip);
      }
    }
  }

  // ---------------------------------------------------------------------- the bounds

  /**
   * In every run one address gets at most twenty attempts a window; forty take at least fifteen minutes
   * and forty-one take more. Purges, other addresses and account locks make no difference.
   */
  lemma AttemptsAreLimited(es: seq<Event>, ip: string, i: nat, j: nat)
    requires InOrder(es) && ip != "" && i <= j < |Times(es, ip)|
    ensures var ts := Times(es, ip);
            && j + 1 - Opening(ts[..j + 1]) <= IP_MAX
            && (ts[j] - ts[i] <= WINDOW ==> j - i + 1 <= 2 * IP_MAX)
            && (ts[j] - ts[i] < WINDOW ==> j - i + 1 <= 2 * IP_MAX - 1)
  {
    var clock := RunFollows(es, ip);
    Crowded(Times(es, ip), i, j);
  }

  /** The keys an attempt looks at. */
  predicate Uses(e: Event, key: Key) {
    e.Attempt? && key in KeysFor(e.account, e.ip)
  }

  lemma RowOfAnother(rows: Table, e: Event, key: Key)
    requires e.Attempt? && !Uses(e, key) && LetThrough(rows, e)
    ensures key in Step(rows, e) <==> key in rows
    ensures key in rows ==> Step(rows, e)[key] == rows[key]
  {
    var keys := KeysFor(e.account, e.ip);
    assert e.account != "" ==> keys[0] == User(e.account);
    assert e.ip != "" ==> keys[|keys| - 1] == Ip(e.ip);
  }

  /** While a key is locked, every attempt that uses it is refused, and nothing lifts the lock. */
  lemma {:induction false} LockHolds(rows: Table, es: seq<Event>, key: Key)
    requires key in rows
    requires forall e :: e in es ==> e.at < rows[key].locked
    ensures key in Run(rows, es) && Run(rows, es)[key] == rows[key]
    ensures forall n :: 0 <= n < |es| && Uses(es[n], key) ==> !LetThrough(Run(rows, es[..n]), es[n])
  {
    hide Step, LetThrough, Uses;
    if es != [] {
      var p, e := es[..|es| - 1], es[|es| - 1];
      LockHolds(rows, p, key);
      LockStays(Run(rows, p), e, key);
      forall n | 0 <= n < |es| && Uses(es[n], key) ensures !LetThrough(Run(rows, es[..n]), es[n]) {
        if n < |p| {
          assert p[n] == es[n] && p[..n] == es[..n];
        } else {
          assert es[..n] == p;
        }
      }
    }
  }

  lemma LockStays(rows: Table, e: Event, key: Key)
    requires key in rows && e.at < rows[key].locked
    ensures key in Step(rows, e) && Step(rows, e)[key] == rows[key]
    ensures Uses(e, key) ==> !LetThrough(rows, e)
  {
    if e.Attempt? && LetThrough(rows, e) {
      assert Wait(rows, key, e.at).Some?;
      RowOfAnother(rows, e, key);
    }
  }

  /**
   * The fifth failure in a row, and every one after it, shuts the account for the step of its count: no
   * address gets an attempt on it through before that time is over.
   */
  lemma FailureShutsAccount(rows: Table, e: Event, es: seq<Event>, n: nat)
    requires LetThrough(rows, e) && e.account != "" && e.outcome != Success
    requires Fails(rows, User(e.account)) + 1 >= ACCOUNT_THRESHOLD
    requires n < |es| && InOrder([e] + es) && es[n].Attempt? && es[n].account == e.account
    requires es[n].at < e.at + LockStep(Fails(rows, User(e.account)) + 1)
    ensures !LetThrough(Run(Step(rows, e), es[..n]), es[n])
  {
    var key := User(e.account);
    var p := es[..n + 1];
    var after := Step(rows, e);
    assert after[key].locked == e.at + LockStep(Fails(rows, key) + 1);
    forall x | x in p ensures x.at < after[key].locked {
      var i :| 0 <= i < |p| && p[i] == x;
      assert ([e] + es)[i + 1] == x && ([e] + es)[n + 1] == es[n];
    }
    LockHolds(after, p, key);
    assert p[n] == es[n] && p[..n] == es[..n];
    assert KeysFor(es[n].account, es[n].ip)[0] == key;
  }

  // ---------------------------------------------------------------------- decisions from the history alone

  /** The attempt got through after these events. */
  predicate Passed(p: seq<Event>, e: Event) { LetThrough(Run(map[], p), e) }

  /** Failures that count, when the first of them was, and until when the key is shut; no time where nothing is known. */
  datatype Known = Known(fails: nat, since: int, until: Option<int>)

  const NOTHING := Known(0, 0, None)

  /** A purge forgets an account that is not shut, fifteen minutes after its first failure. */
  predicate ForgetsAccount(h: Known, e: Event) {
    e.Purge? && h.until.Some? && h.until.value <= e.at && h.since < e.at - 900
  }

  /** The failures of an account since its last success, unless a purge has forgotten them. */
  function AccountKnown(es: seq<Event>, account: string): Known {
    if es == [] then NOTHING
    else
      var p, e := es[..|es| - 1], es[|es| - 1];
      var h := AccountKnown(p, account);
      if e.Attempt? && e.account == account && Passed(p, e) then
        if e.outcome == Success then NOTHING
        else Known(h.fails + 1, if h.until == None then e.at else h.since, Some(if h.fails + 1 >= 5 then e.at + ShutFor(h.fails + 1) else 0))
      else if ForgetsAccount(h, e) then NOTHING
      else h
  }

  /** One minute from the fifth failure on, then five, fifteen and sixty. */
  function ShutFor(fails: nat): nat {
    if fails <= 5 then 60 else if fails == 6 then 300 else if fails == 7 then 900 else 3600
  }

  /** A purge forgets an address that is not shut, fifteen minutes after its last window opened. */
  predicate ForgetsAddress(p: seq<Event>, ip: string, h: Known, e: Event) {
    && e.Purge? && h.until.Some? && h.until.value <= e.at
    && Times(p, ip) != [] && Times(p, ip)[Opening(Times(p, ip))] < e.at - 900
  }

  /** The unknown names that an address came through with, unless a purge has forgotten them. */
  function AddressKnown(es: seq<Event>, ip: string): Known {
    if es == [] then NOTHING
    else
      var p, e := es[..|es| - 1], es[|es| - 1];
      var h := AddressKnown(p, ip);
      if e.Attempt? && e.ip == ip && Passed(p, e) then
        if e.outcome == UnknownUser then Known(h.fails + 1, 0, Some(if h.fails + 1 >= 3 then e.at + 3600 else 0))
        else Known(h.fails, 0, Some(if h.until == None then 0 else h.until.value))
      else if ForgetsAddress(p, ip, h, e) then NOTHING
      else h
  }

  /** The row of a key holds what is known of it. */
  predicate Holds(rows: Table, key: Key, h: Known) {
    && (key in rows <==> h.until.Some?)
    && (key in rows ==> rows[key].fails == h.fails && rows[key].locked == h.until.value)
    && (key !in rows ==> h == NOTHING)
    && (key in rows && key.User? ==> rows[key].start == h.since)
  }

  lemma {:induction false} AccountHeld(es: seq<Event>, account: string)
    requires account != ""
    ensures Holds(Run(map[], es), User(account), AccountKnown(es, account))
  {
    hide LetThrough, Times, Holds;
    if es != [] {
      var p, e := es[..|es| - 1], es[|es| - 1];
      AccountHeld(p, account);
      AccountStep(Run(map[], p), account, AccountKnown(p, account), e);
    } else {
      NothingHeld(User(account));
    }
  }

  lemma NothingHeld(key: Key)
    ensures Holds(map[], key, NOTHING)
  {
  }

  lemma AccountStep(rows: Table, account: string, h: Known, e: Event)
    requires account != "" && Holds(rows, User(account), h)
    ensures Holds(Step(rows, e), User(account),
                  if e.Attempt? && e.account == account && LetThrough(rows, e) then
                    if e.outcome == Success then NOTHING
                    else Known(h.fails + 1, if h.until == None then e.at else h.since,
                               Some(if h.fails + 1 >= 5 then e.at + ShutFor(h.fails + 1) else 0))
                  else if ForgetsAccount(h, e) then NOTHING
                  else h)
  {
    hide LetThrough;
    var key := User(account);
    if e.Attempt? && LetThrough(rows, e) && e.account != account { AccountOfAnother(rows, e, account); }
  }

  lemma AccountOfAnother(rows: Table, e: Event, account: string)
    requires e.Attempt? && LetThrough(rows, e) && e.account != account && account != ""
    ensures User(account) in Step(rows, e) <==> User(account) in rows
    ensures User(account) in rows ==> Step(rows, e)[User(account)] == rows[User(account)]
  {
    hide LetThrough;
  }

  lemma {:induction false} AddressHeld(es: seq<Event>, ip: string)
    requires InOrder(es) && ip != ""
    ensures Holds(Run(map[], es), Ip(ip), AddressKnown(es, ip))
  {
    hide LetThrough, Times, Holds, Opening, Step, Follows, ForgetsAddress;
    if es != [] {
      var p, e := es[..|es| - 1], es[|es| - 1];
      AddressHeld(p, ip);
      var clock := RunFollows(p, ip);
      AddressStep(p, ip, clock, AddressKnown(p, ip), e);
    } else {
      NothingHeld(Ip(ip));
    }
  }

  lemma AddressStep(p: seq<Event>, ip: string, clock: int, h: Known, e: Event)
    requires ip != "" && Holds(Run(map[], p), Ip(ip), h) && Follows(Run(map[], p), ip, Times(p, ip), clock)
    ensures Holds(Step(Run(map[], p), e), Ip(ip),
                  if e.Attempt? && e.ip == ip && Passed(p, e) then
                    if e.outcome == UnknownUser then Known(h.fails + 1, 0, Some(if h.fails + 1 >= 3 then e.at + 3600 else 0))
                    else Known(h.fails, 0, Some(if h.until == None then 0 else h.until.value))
                  else if ForgetsAddress(p, ip, h, e) then NOTHING
                  else h)
  {
    hide LetThrough, Times, Opening, Run, Limited;
    var rows := Run(map[], p);
    if e.Attempt? && LetThrough(rows, e) && e.ip != ip { AddressOfAnother(rows, e, ip); }
  }

  lemma AddressOfAnother(rows: Table, e: Event, ip: string)
    requires e.Attempt? && LetThrough(rows, e) && e.ip != ip && ip != ""
    ensures Ip(ip) in Step(rows, e) <==> Ip(ip) in rows
    ensures Ip(ip) in rows ==> Step(rows, e)[Ip(ip)] == rows[Ip(ip)]
  {
    hide LetThrough;
  }

  predicate Shut(h: Known, now: int) { h.until.Some? && h.until.value > now }

  /** Twenty attempts of the address got through within its current window of fifteen minutes. */
  predicate Full(ts: seq<int>, now: int) {
    ts != [] && now - ts[Opening(ts)] < 900 && |ts| - Opening(ts) >= 20
  }

  /**
   * What decides on an attempt, in every run: it gets through if and only if neither its account nor its
   * address is shut by the attempts that got through before, and the address's window is not full.
   */
  lemma Decided(p: seq<Event>, e: Event)
    requires InOrder(p + [e]) && e.Attempt?
    ensures Passed(p, e) <==>
            && (e.account != "" ==> !Shut(AccountKnown(p, e.account), e.at))
            && (e.ip != "" ==> !Shut(AddressKnown(p, e.ip), e.at) && !Full(Times(p, e.ip), e.at))
  {
    hide Run, Times, Opening, AccountKnown, AddressKnown, Limited;
    assert forall i :: 0 <= i < |p| ==> (p + [e])[i] == p[i];
    if e.account != "" { AccountHeld(p, e.account); }
    if e.ip != "" {
      AddressHeld(p, e.ip);
      var clock := RunFollows(p, e.ip);
      assert p != [] ==> (p + [e])[|p| - 1].at <= (p + [e])[|p|].at;
    }
  }

  // ---------------------------------------------------------------------- counting failures

  /** How many unknown names of the address got through. */
  function Unknowns(es: seq<Event>, ip: string): nat {
    if es == [] then 0
    else
      var p, e := es[..|es| - 1], es[|es| - 1];
      Unknowns(p, ip) + if e.Attempt? && e.ip == ip && e.outcome == UnknownUser && Passed(p, e) then 1 else 0
  }

  /** How many failures on the account got through. */
  function Failures(es: seq<Event>, account: string): nat {
    if es == [] then 0
    else
      var p, e := es[..|es| - 1], es[|es| - 1];
      Failures(p, account) + if e.Attempt? && e.account == account && e.outcome != Success && Passed(p, e) then 1 else 0
  }

  /** From the j-th event on no purge forgets the address. */
  ghost predicate AddressKept(es: seq<Event>, ip: string, j: nat) {
    forall i {:trigger es[i]} :: j <= i < |es| ==> !ForgetsAddress(es[..i], ip, AddressKnown(es[..i], ip), es[i])
  }

  /** From the j-th event on nothing makes the failures of the account count from zero. */
  ghost predicate AccountKept(es: seq<Event>, account: string, j: nat) {
    forall i {:trigger es[i]} :: j <= i < |es| ==>
      && !ForgetsAccount(AccountKnown(es[..i], account), es[i])
      && !(es[i].Attempt? && es[i].account == account && es[i].outcome == Success && Passed(es[..i], es[i]))
  }

  lemma {:induction false} UnknownsCount(es: seq<Event>, ip: string, j: nat)
    requires j <= |es| && AddressKept(es, ip, j)
    ensures AddressKnown(es, ip).fails == AddressKnown(es[..j], ip).fails + Unknowns(es, ip) - Unknowns(es[..j], ip)
    decreases |es|
  {
    hide Passed, ForgetsAddress;
    if j == |es| {
      assert es[..j] == es;
    } else {
      var p := es[..|es| - 1];
      assert p[..j] == es[..j] && forall i :: 0 <= i < |p| ==> p[..i] == es[..i] && p[i] == es[i];
      UnknownsCount(p, ip, j);
      assert !ForgetsAddress(es[..|es| - 1], ip, AddressKnown(es[..|es| - 1], ip), es[|es| - 1]);
    }
  }

  lemma {:induction false} FailuresCount(es: seq<Event>, account: string, j: nat)
    requires j <= |es| && AccountKept(es, account, j)
    ensures AccountKnown(es, account).fails == AccountKnown(es[..j], account).fails + Failures(es, account) - Failures(es[..j], account)
    decreases |es|
  {
    hide Passed, ForgetsAccount;
    if j == |es| {
      assert es[..j] == es;
    } else {
      var p := es[..|es| - 1];
      assert p[..j] == es[..j] && forall i :: 0 <= i < |p| ==> p[..i] == es[..i] && p[i] == es[i];
      FailuresCount(p, account, j);
      assert !ForgetsAccount(AccountKnown(es[..|es| - 1], account), es[|es| - 1]);
    }
  }

  /** What was found out at the n-th event of a run. */
  lemma KnownAfter(es: seq<Event>, n: nat)
    requires n < |es|
    ensures es[..n + 1][..n] == es[..n] && es[..n + 1][n] == es[n]
  {
  }

  /**
   * The third unknown name that an address comes through with since it was last forgotten, and every one
   * after it, shuts the address for an hour, in every run and whatever is purged.
   */
  lemma UnknownsShutAddress(es: seq<Event>, ip: string, j: nat, n: nat, k: nat)
    requires InOrder(es) && ip != "" && j <= n < k < |es|
    requires AddressKept(es[..n + 1], ip, j) && Unknowns(es[..n + 1], ip) - Unknowns(es[..j], ip) >= 3
    requires es[n].Attempt? && es[n].ip == ip && es[n].outcome == UnknownUser && Passed(es[..n], es[n])
    requires es[k].Attempt? && es[k].ip == ip && es[k].at < es[n].at + 3600
    ensures !Passed(es[..k], es[k])
  {
    hide Run, Passed, AddressKept, Unknowns, ForgetsAddress, AddressKnown, InOrder;
    KnownAfter(es, n);
    assert es[..n + 1][..j] == es[..j];
    UnknownsCount(es[..n + 1], ip, j);
    OrderOfPart(es, n + 1);
    AddressHeld(es[..n + 1], ip);
    AddressAfter(es[..n + 1], ip);
    UsesAddress(es[k]);
    RefusedWhileLocked(es, Ip(ip), n, k);
  }

  lemma OrderOfPart(es: seq<Event>, n: nat)
    requires InOrder(es) && n <= |es|
    ensures InOrder(es[..n])
  {
  }

  lemma AddressAfter(es: seq<Event>, ip: string)
    requires es != []
    requires var e := es[|es| - 1]; e.Attempt? && e.ip == ip && e.outcome == UnknownUser && Passed(es[..|es| - 1], e)
    ensures var h := AddressKnown(es, ip); h.until == Some(if h.fails >= 3 then es[|es| - 1].at + 3600 else 0)
  {
    hide Passed, ForgetsAddress;
  }

  lemma AccountAfter(es: seq<Event>, account: string)
    requires es != []
    requires var e := es[|es| - 1]; e.Attempt? && e.account == account && e.outcome != Success && Passed(es[..|es| - 1], e)
    ensures var h := AccountKnown(es, account); h.until == Some(if h.fails >= 5 then es[|es| - 1].at + ShutFor(h.fails) else 0)
  {
    hide Passed, ForgetsAccount, ShutFor;
  }

  /** What uses a key that an earlier event locked for long enough does not get through. */
  lemma RefusedWhileLocked(es: seq<Event>, key: Key, n: nat, k: nat)
    requires InOrder(es) && n < k < |es| && Uses(es[k], key)
    requires key in Run(map[], es[..n + 1]) && es[k].at < Run(map[], es[..n + 1])[key].locked
    ensures !Passed(es[..k], es[k])
  {
    hide Run, LetThrough, InOrder, Uses;
    var after, later := Run(map[], es[..n + 1]), es[n + 1..k + 1];
    AllBefore(es, n, k, after[key].locked);
    LockHolds(after, later, key);
    RunParts(es, n + 1, k);
    assert later[k - n - 1] == es[k] && later[..k - n - 1] == es[n + 1..k];
  }

  lemma AllBefore(es: seq<Event>, n: nat, k: nat, t: int)
    requires InOrder(es) && n < k < |es| && es[k].at < t
    ensures forall e :: e in es[n + 1..k + 1] ==> e.at < t
  {
    forall e | e in es[n + 1..k + 1] ensures e.at < t {
      var i :| n + 1 <= i <= k && es[i] == e;
    }
  }

  lemma UsesAddress(e: Event)
    requires e.Attempt?
    ensures e.ip != "" ==> Uses(e, Ip(e.ip))
    ensures e.account != "" ==> Uses(e, User(e.account))
  {
    var keys := KeysFor(e.account, e.ip);
    assert e.account != "" ==> keys[0] == User(e.account);
    assert e.ip != "" ==> keys[|keys| - 1] == Ip(e.ip);
  }

  lemma {:induction false} RunParts(es: seq<Event>, j: nat, k: nat)
    requires j <= k <= |es|
    ensures Run(map[], es[..k]) == Run(Run(map[], es[..j]), es[j..k])
    decreases k
  {
    hide Step;
    if j < k {
      RunParts(es, j, k - 1);
      assert es[..k][..k - 1] == es[..k - 1] && es[j..k][..k - j - 1] == es[j..k - 1];
      assert es[..k][k - 1] == es[j..k][k - j - 1] == es[k - 1];
    } else {
      assert es[j..k] == [];
    }
  }

  /**
   * The fifth failure on an account since its last success, unless it was forgotten meanwhile, shuts it for a
   * minute, and the ones after it for five, fifteen and sixty; a success makes them count from zero again.
   */
  lemma FailuresShutAccount(es: seq<Event>, account: string, j: nat, n: nat, k: nat)
    requires InOrder(es) && account != "" && j <= n < k < |es|
    requires j > 0 ==> es[j - 1].Attempt? && es[j - 1].account == account && es[j - 1].outcome == Success && Passed(es[..j - 1], es[j - 1])
    requires AccountKept(es[..n + 1], account, j) && Failures(es[..n + 1], account) - Failures(es[..j], account) >= 5
    requires es[n].Attempt? && es[n].account == account && es[n].outcome != Success && Passed(es[..n], es[n])
    requires es[k].Attempt? && es[k].account == account
    requires var count := Failures(es[..n + 1], account) - Failures(es[..j], account);
             es[k].at < es[n].at + if count == 5 then 60 else if count == 6 then 300 else if count == 7 then 900 else 3600
    ensures !Passed(es[..k], es[k])
  {
    hide Run, Passed, AccountKept, Failures, ForgetsAccount, AccountKnown, InOrder;
    KnownAfter(es, n);
    assert es[..n + 1][..j] == es[..j];
    FailuresCount(es[..n + 1], account, j);
    FromZero(es, account, j);
    AccountHeld(es[..n + 1], account);
    AccountAfter(es[..n + 1], account);
    UsesAddress(es[k]);
    RefusedWhileLocked(es, User(account), n, k);
  }

  lemma FromZero(es: seq<Event>, account: string, j: nat)
    requires j <= |es|
    requires j > 0 ==> es[j - 1].Attempt? && es[j - 1].account == account && es[j - 1].outcome == Success && Passed(es[..j - 1], es[j - 1])
    ensures AccountKnown(es[..j], account) == NOTHING
  {
    if j > 0 { assert es[..j][..j - 1] == es[..j - 1]; }
  }
}
