/** The geocoder's throttle: one mutex, one timer, any number of callers and cancellations. */
module Throttle {
  import opened Text

  type Caller = nat

  /** Where the holder of the mutex stands between locking and unlocking. */
  datatype Phase = Checking | Waiting(wait: int) | Sleeping(until: int) | Ready

  datatype Holder = Holder(who: Caller, phase: Phase)

  /** `last` is None for the zero time; `grants` records every value `last` is given. */
  datatype State = State(now: int, last: Option<int>, holder: Option<Holder>, grants: seq<int>)

  datatype Step =
    | Tick(d: nat)
    | Lock(c: Caller)
    | Check(c: Caller)       // compute how long to wait
    | StartTimer(c: Caller)  // time.After(wait)
    | Wake(c: Caller)
    | Cancel(c: Caller)      // the context ends first
    | Grant(c: Caller)       // stamp and unlock

  predicate Holds(s: State, c: Caller) { s.holder.Some? && s.holder.value.who == c }

  predicate Enabled(s: State, e: Step) {
    match e
    case Tick(_) => true
    case Lock(c) => s.holder == None
    case Check(c) => Holds(s, c) && s.holder.value.phase.Checking?
    case StartTimer(c) => Holds(s, c) && s.holder.value.phase.Waiting?
    case Wake(c) => Holds(s, c) && s.holder.value.phase.Sleeping? && s.now >= s.holder.value.phase.until
    case Cancel(c) => Holds(s, c) && s.holder.value.phase.Sleeping?
    case Grant(c) => Holds(s, c) && s.holder.value.phase.Ready?
  }

  function Next(s: State, e: Step, minInterval: int): State
    requires Enabled(s, e)
  {
    match e
    case Tick(d) => s.(now := s.now + d)
    case Lock(c) => s.(holder := Some(Holder(c, Checking)))
    case Check(c) =>
      if s.last.Some? && minInterval - (s.now - s.last.value) > 0 then
        s.(holder := Some(Holder(c, Waiting(minInterval - (s.now - s.last.value)))))
      else s.(holder := Some(Holder(c, Ready)))
    case StartTimer(c) => s.(holder := Some(Holder(c, Sleeping(s.now + s.holder.value.phase.wait))))
    case Wake(c) => s.(holder := Some(Holder(c, Ready)))
    case Cancel(c) => s.(holder := None)
    case Grant(c) => s.(last := Some(s.now), holder := None, grants := s.grants + [s.now])
  }

  function Init(now: int): State { State(now, None, None, []) }

  /** es leads from s to t. */
  ghost predicate Runs(s: State, es: seq<Step>, t: State, minInterval: int)
    decreases |es|
  {
    if es == [] then t == s
    else Enabled(s, es[0]) && Runs(Next(s, es[0], minInterval), es[1..], t, minInterval)
  }

  predicate Spaced(grants: seq<int>, minInterval: int) {
    forall i :: 0 < i < |grants| ==> grants[i] - grants[i - 1] >= minInterval
  }

  /** At `t` the previous grant is long enough ago. */
  predicate Due(s: State, t: int, minInterval: int) {
    s.last.Some? ==> t - s.last.value >= minInterval
  }

  predicate Inv(s: State, minInterval: int) {
    && Spaced(s.grants, minInterval)
    && s.last == (if s.grants == [] then None else Some(s.grants[|s.grants| - 1]))
    && (s.last.Some? ==> s.last.value <= s.now)
    && (s.holder.Some? ==>
          match s.holder.value.phase
          case Checking => true
          case Waiting(wait) => Due(s, s.now + wait, minInterval)
          case Sleeping(until) => Due(s, until, minInterval)
          case Ready => Due(s, s.now, minInterval))
  }

  lemma {:induction false} RunKeepsInv(s: State, es: seq<Step>, t: State, minInterval: int)
    requires Inv(s, minInterval) && Runs(s, es, t, minInterval)
    ensures Inv(t, minInterval)
    decreases |es|
  {
    if es != [] {
      RunKeepsInv(Next(s, es[0], minInterval), es[1..], t, minInterval);
    }
  }

  /** Whatever the callers and their contexts do, successive grants are at least
      the minimum interval apart. */
  lemma GrantsAreSpaced(now: int, es: seq<Step>, t: State, minInterval: int)
    requires Runs(Init(now), es, t, minInterval)
    ensures Spaced(t.grants, minInterval)
  {
    RunKeepsInv(Init(now), es, t, minInterval);
  }

  /** How many grants lie between `from` and `to`, both included. */
  function InWindow(grants: seq<int>, from: int, to: int): nat {
    if grants == [] then 0
    else InWindow(grants[..|grants| - 1], from, to) + if from <= grants[|grants| - 1] <= to then 1 else 0
  }

  lemma {:induction false} WindowBound(grants: seq<int>, from: int, to: int, minInterval: int)
    requires Spaced(grants, minInterval) && minInterval > 0
    ensures var n := InWindow(grants, from, to);
      n > 0 ==> (n - 1) * minInterval <= to - from && (n - 1) * minInterval <= grants[|grants| - 1] - from
  {
    if grants != [] {
      var init := grants[..|grants| - 1];
      WindowBound(init, from, to, minInterval);
      var k := InWindow(init, from, to);
      OneMoreInterval(k, minInterval);
      if k > 0 {
        assert grants[|grants| - 1] - grants[|grants| - 2] >= minInterval;
      }
    }
  }

  lemma OneMoreInterval(k: nat, minInterval: int)
    ensures k * minInterval == (k - 1) * minInterval + minInterval
    ensures k == 1 ==> (k - 1) * minInterval == 0
  {
  }

  /** A window of length `length` sees at most length / minInterval + 1 grants. */
  lemma WindowSeesFewGrants(now: int, es: seq<Step>, t: State, minInterval: int, from: int, length: nat)
    requires minInterval > 0 && Runs(Init(now), es, t, minInterval)
    ensures InWindow(t.grants, from, from + length) <= length / minInterval + 1
  {
    GrantsAreSpaced(now, es, t, minInterval);
    WindowBound(t.grants, from, from + length, minInterval);
    var n := InWindow(t.grants, from, from + length);
    if n > 0 {
      QuotientBound(n - 1, length, minInterval);
    }
  }

  lemma QuotientBound(k: nat, length: nat, minInterval: int)
    requires minInterval > 0 && k * minInterval <= length
    ensures k <= length / minInterval
  {
    assert length == length / minInterval * minInterval + length % minInterval;
    if k >= length / minInterval + 1 {
      MultiplyBoth(length / minInterval + 1, k, minInterval);
    }
  }

  lemma MultiplyBoth(a: int, b: int, m: int)
    requires a <= b && m > 0
    ensures a * m <= b * m
  {
  }

  /** Only the holder of the mutex moved, and it neither gave up nor was granted its turn. */
  predicate OnlyTicksAnd(es: seq<Step>, c: Caller) {
    forall e :: e in es ==> e.Tick? || e == Check(c) || e == StartTimer(c) || e == Wake(c)
  }

  function Elapsed(es: seq<Step>): nat {
    if es == [] then 0 else (if es[0].Tick? then es[0].d else 0) + Elapsed(es[1..])
  }

  /** While a caller holds the mutex nobody else takes a step. */
  lemma {:induction false} HolderIsAlone(s: State, es: seq<Step>, t: State, c: Caller, minInterval: int)
    requires Holds(s, c) && Runs(s, es, t, minInterval)
    requires forall e :: e in es ==> !e.Cancel? && !e.Grant?
    ensures OnlyTicksAnd(es, c) && Holds(t, c)
    ensures t.last == s.last && t.grants == s.grants && t.now == s.now + Elapsed(es)
    decreases |es|
  {
    if es != [] {
      HolderIsAlone(Next(s, es[0], minInterval), es[1..], t, c, minInterval);
    }
  }

  /** A caller cancelled while waiting leaves the throttle as if it had never come, but for
      the time that went by: the slot goes to whoever is next. */
  lemma CancelTakesNoSlot(s: State, c: Caller, es: seq<Step>, t: State, minInterval: int)
    requires s.holder == None
    requires forall e :: e in es ==> !e.Cancel? && !e.Grant?
    requires Runs(Next(s, Lock(c), minInterval), es, t, minInterval) && Enabled(t, Cancel(c))
    ensures Next(t, Cancel(c), minInterval) == Next(s, Tick(Elapsed(es)), minInterval)
  {
    HolderIsAlone(Next(s, Lock(c), minInterval), es, t, c, minInterval);
  }

  /** When the throttle next lets a caller through: now, or once the interval is over. */
  function DueTime(s: State, minInterval: int): int {
    if s.last.Some? && s.last.value + minInterval > s.now then s.last.value + minInterval else s.now
  }

  function WaitAndGo(c: Caller, wait: nat): seq<Step> { [StartTimer(c), Tick(wait), Wake(c), Grant(c)] }

  lemma WaitedOut(s: State, c: Caller, wait: nat, minInterval: int)
    requires s.holder == Some(Holder(c, Waiting(wait)))
    ensures Runs(s, WaitAndGo(c, wait),
                 State(s.now + wait, Some(s.now + wait), None, s.grants + [s.now + wait]), minInterval)
  {
    var es := WaitAndGo(c, wait);
    var s1 := Next(s, es[0], minInterval);
    var s2 := Next(s1, es[1], minInterval);
    var s3 := Next(s2, es[2], minInterval);
    assert es[1..][1..][1..][1..] == [];
    assert Runs(Next(s3, es[3], minInterval), [], Next(s3, es[3], minInterval), minInterval);
    assert Runs(s3, es[1..][1..][1..], Next(s3, es[3], minInterval), minInterval);
  }

  /** A caller who finds the throttle free can be let through exactly when the interval since
      the last grant is over, not later: if that is now, without waiting at all. */
  lemma NobodyWaitsLongerThanDue(s: State, c: Caller, minInterval: int) returns (es: seq<Step>)
    requires s.holder == None
    ensures var due := DueTime(s, minInterval);
      && Runs(s, es, State(due, Some(due), None, s.grants + [due]), minInterval)
      && (due == s.now ==> es == [Lock(c), Check(c), Grant(c)])
      && (due > s.now ==> es == [Lock(c), Check(c)] + WaitAndGo(c, due - s.now))
  {
    var due := DueTime(s, minInterval);
    var s1 := Next(s, Lock(c), minInterval);
    var s2 := Next(s1, Check(c), minInterval);
    if due == s.now {
      es := [Lock(c), Check(c), Grant(c)];
      assert es[1..][1..][1..] == [];
      assert Runs(s2, es[1..][1..], Next(s2, Grant(c), minInterval), minInterval);
    } else {
      es := [Lock(c), Check(c)] + WaitAndGo(c, due - s.now);
      WaitedOut(s2, c, due - s.now, minInterval);
      assert es[1..][1..] == WaitAndGo(c, due - s.now);
    }
  }
}
