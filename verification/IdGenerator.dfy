/** `nextTransactionID`: a load / compare-and-swap retry loop on one shared counter,
    called by any number of goroutines with whatever the clock says. */
module IdGenerator {
  import opened Domain

  const MAX_INT64: int := 0x7FFF_FFFF_FFFF_FFFF

  /** The value a caller tries to install. */
  function Next(last: int, now: int): int {
    if now <= last then last + 1 else now
  }

  /** Where a caller stands in the loop. History: `since` is the number of identifiers issued when the call
      began, `loadedAt` when it last loaded, and `charges` names, for each failed CAS, the issue blamed for it. */
  datatype Caller =
    | AtTop(since: nat, charges: seq<nat>)
    | HasClock(since: nat, charges: seq<nat>, now: int)
    | HasLoaded(since: nat, charges: seq<nat>, now: int, last: int, loadedAt: nat)

  /** The counter and the callers; history: who was issued which number, in CAS order, and the largest clock reading. */
  datatype State = State(counter: int, callers: map<ThreadId, Caller>,
                         issued: seq<int>, owners: seq<ThreadId>, maxClock: Option<int>)

  datatype Action =
    | Call(t: ThreadId)
    | ReadClock(t: ThreadId, now: int)
    | Load(t: ThreadId)
    | CompareAndSwap(t: ThreadId)

  function Start(counter: int): State {
    State(counter, map[], [], [], None)
  }

  predicate Enabled(s: State, a: Action) {
    match a
    case Call(t) => t !in s.callers
    case ReadClock(t, _) => t in s.callers && s.callers[t].AtTop?
    case Load(t) => t in s.callers && s.callers[t].HasClock?
    case CompareAndSwap(t) => t in s.callers && s.callers[t].HasLoaded?
  }

  predicate SwapSucceeds(s: State, t: ThreadId)
    requires Enabled(s, CompareAndSwap(t))
  {
    s.counter == s.callers[t].last
  }

  function Later(m: Option<int>, now: int): int {
    if m.Some? && m.value > now then m.value else now
  }

  function Apply(s: State, a: Action): State
    requires Enabled(s, a)
  {
    match a
    case Call(t) => s.(callers := s.callers[t := AtTop(|s.issued|, [])])
    case ReadClock(t, now) =>
      var c := s.callers[t];
      s.(callers := s.callers[t := HasClock(c.since, c.charges, now)], maxClock := Some(Later(s.maxClock, now)))
    case Load(t) =>
      var c := s.callers[t];
      s.(callers := s.callers[t := HasLoaded(c.since, c.charges, c.now, s.counter, |s.issued|)])
    case CompareAndSwap(t) =>
      var c := s.callers[t];
      if SwapSucceeds(s, t) then
        State(Next(c.last, c.now), s.callers - {t}, s.issued + [Next(c.last, c.now)], s.owners + [t], s.maxClock)
      else
        s.(callers := s.callers[t := AtTop(c.since, c.charges + [c.loadedAt])])
  }

  function Run(s: State, acts: seq<Action>): Option<State> {
    if acts == [] then Some(s) else
      match Run(s, acts[..|acts| - 1])
      case None => None
      case Some(m) =>
        if Enabled(m, acts[|acts| - 1]) then Some(Apply(m, acts[|acts| - 1])) else None
  }

  // ---------------------------------------------------------------- the invariant

  /** The counter's value after the first `k` issues. */
  function CounterAfter(first: int, issued: seq<int>, k: nat): int
    requires k <= |issued|
  {
    if k == 0 then first else issued[k - 1]
  }

  predicate Increasing(first: int, issued: seq<int>) {
    && (forall k :: 0 <= k < |issued| ==> first < issued[k])
    && (forall i, k :: 0 <= i < k < |issued| ==> issued[i] < issued[k])
  }

  /** Every failed CAS of this call is charged to one issue, none twice, each to another caller, made since the call began. */
  predicate Charged(owners: seq<ThreadId>, t: ThreadId, c: Caller) {
    && c.since <= |owners|
    && (forall i :: 0 <= i < |c.charges| ==> c.since <= c.charges[i] < |owners|)
    && (forall i, k :: 0 <= i < k < |c.charges| ==> c.charges[i] < c.charges[k])
    && (forall k :: c.since <= k < |owners| ==> owners[k] != t)
    && (c.HasLoaded? ==>
          && c.since <= c.loadedAt <= |owners|
          && (forall i :: 0 <= i < |c.charges| ==> c.charges[i] < c.loadedAt))
  }

  predicate Consistent(first: int, s: State) {
    && |s.owners| == |s.issued|
    && Increasing(first, s.issued)
    && s.counter == CounterAfter(first, s.issued, |s.issued|)
    && (forall t <- s.callers :: Charged(s.owners, t, s.callers[t]))
    && (forall t <- s.callers :: s.callers[t].HasLoaded? ==>
          s.callers[t].last == CounterAfter(first, s.issued, s.callers[t].loadedAt))
  }

  /** A CAS succeeds only if nothing was issued since the load: the counter never returns to an old value (no ABA). */
  lemma NoAba(first: int, s: State, t: ThreadId)
    requires Consistent(first, s) && Enabled(s, CompareAndSwap(t))
    ensures SwapSucceeds(s, t) <==> s.callers[t].loadedAt == |s.issued|
  {
    var c := s.callers[t];
    assert Charged(s.owners, t, c);
    if c.loadedAt < |s.issued| && c.loadedAt > 0 {
      assert s.issued[c.loadedAt - 1] < s.issued[|s.issued| - 1];
    }
  }

  lemma WinConsistent(first: int, s: State, t: ThreadId)
    requires Consistent(first, s) && Enabled(s, CompareAndSwap(t)) && SwapSucceeds(s, t)
    ensures Consistent(first, Apply(s, CompareAndSwap(t)))
  {
    var s' := Apply(s, CompareAndSwap(t));
    forall u | u in s'.callers ensures Charged(s'.owners, u, s'.callers[u]) {
      assert Charged(s.owners, u, s.callers[u]);
    }
    forall k | 0 <= k < |s.issued| ensures s.issued[k] <= s.counter {
      if k < |s.issued| - 1 { assert s.issued[k] < s.issued[|s.issued| - 1]; }
    }
    forall u | u in s'.callers && s'.callers[u].HasLoaded?
      ensures s'.callers[u].last == CounterAfter(first, s'.issued, s'.callers[u].loadedAt)
    {
      assert Charged(s.owners, u, s.callers[u]);
    }
  }

  lemma LoseConsistent(first: int, s: State, t: ThreadId)
    requires Consistent(first, s) && Enabled(s, CompareAndSwap(t)) && !SwapSucceeds(s, t)
    ensures Consistent(first, Apply(s, CompareAndSwap(t)))
  {
    NoAba(first, s, t);
    assert Charged(s.owners, t, s.callers[t]);
  }

  lemma StepConsistent(first: int, s: State, a: Action)
    requires Consistent(first, s) && Enabled(s, a)
    ensures Consistent(first, Apply(s, a))
  {
    if a.CompareAndSwap? {
      if SwapSucceeds(s, a.t) { WinConsistent(first, s, a.t); } else { LoseConsistent(first, s, a.t); }
    } else {
      if a.t in s.callers { assert Charged(s.owners, a.t, s.callers[a.t]); }
    }
  }

  lemma {:induction false} RunConsistent(first: int, acts: seq<Action>)
    requires Run(Start(first), acts).Some?
    ensures Consistent(first, Run(Start(first), acts).value)
  {
    if acts != [] {
      RunConsistent(first, acts[..|acts| - 1]);
      StepConsistent(first, Run(Start(first), acts[..|acts| - 1]).value, acts[|acts| - 1]);
    }
  }

  // ---------------------------------------------------------------- the theorems

  /** For any goroutines, interleaving and clock, the numbers issued strictly increase in CAS order,
      and lie above the initial counter; so no two are equal. */
  lemma IssuedStrictlyIncrease(first: int, acts: seq<Action>)
    requires Run(Start(first), acts).Some?
    ensures var issued := Run(Start(first), acts).value.issued;
            && (forall k :: 0 <= k < |issued| ==> first < issued[k])
            && (forall i, k :: 0 <= i < k < |issued| ==> issued[i] < issued[k])
  {
    RunConsistent(first, acts);
  }

  /** Nothing restricts the schedule or the clock: a goroutine that is not in the loop can call, and one that is can always
      take its next step, whatever the clock says. */
  lemma AnyoneCanMove(s: State, t: ThreadId, now: int)
    ensures t !in s.callers ==> Enabled(s, Call(t))
    ensures t in s.callers && s.callers[t].AtTop? ==> Enabled(s, ReadClock(t, now))
    ensures t in s.callers && s.callers[t].HasClock? ==> Enabled(s, Load(t))
    ensures t in s.callers && s.callers[t].HasLoaded? ==> Enabled(s, CompareAndSwap(t))
  {
  }

  /** The clock reading of a call: the one made since it began or last lost a CAS. */
  function Reading(acts: seq<Action>, t: ThreadId): Option<int> {
    if acts == [] then None else
      match acts[|acts| - 1]
      case ReadClock(u, now) => if u == t then Some(now) else Reading(acts[..|acts| - 1], t)
      case Call(u) => if u == t then None else Reading(acts[..|acts| - 1], t)
      case CompareAndSwap(u) => if u == t then None else Reading(acts[..|acts| - 1], t)
      case Load(_) => Reading(acts[..|acts| - 1], t)
  }

  lemma {:induction false} CallerHasReading(first: int, acts: seq<Action>, t: ThreadId)
    requires Run(Start(first), acts).Some? && t in Run(Start(first), acts).value.callers
    ensures var c := Run(Start(first), acts).value.callers[t];
            Reading(acts, t) == if c.AtTop? then None else Some(c.now)
  {
    if acts != [] {
      var init := acts[..|acts| - 1];
      if t in Run(Start(first), init).value.callers { CallerHasReading(first, init, t); }
    }
  }

  /** The readings of the calls that returned, in CAS order. */
  function WinningReadings(first: int, acts: seq<Action>): seq<Option<int>>
    requires Run(Start(first), acts).Some?
  {
    if acts == [] then [] else
      var init, a := acts[..|acts| - 1], acts[|acts| - 1];
      var returned := |Run(Start(first), acts).value.issued| > |Run(Start(first), init).value.issued|;
      WinningReadings(first, init) + (if returned then [Reading(init, a.t)] else [])
  }

  /** The number after `before` for a call that reads `now`: the clock, unless the counter is there already. */
  predicate Follows(number: int, before: int, now: int) {
    (now > before ==> number == now) && (now <= before ==> number == before + 1)
  }

  /** Each number is the clock reading of its call if that is above the number before, and that number plus one if not. */
  predicate FromClock(first: int, issued: seq<int>, readings: seq<Option<int>>) {
    && |readings| == |issued|
    && forall k :: 0 <= k < |issued| ==>
         readings[k].Some? && Follows(issued[k], CounterAfter(first, issued, k), readings[k].value)
  }

  lemma FromClockAppend(first: int, issued: seq<int>, readings: seq<Option<int>>, n: int, now: int)
    requires FromClock(first, issued, readings) && Follows(n, CounterAfter(first, issued, |issued|), now)
    ensures FromClock(first, issued + [n], readings + [Some(now)])
  {
    var longer, more := issued + [n], readings + [Some(now)];
    forall k | 0 <= k < |longer|
      ensures more[k].Some? && Follows(longer[k], CounterAfter(first, longer, k), more[k].value)
    {
      if k < |issued| {
        assert readings[k].Some? && Follows(issued[k], CounterAfter(first, issued, k), readings[k].value);
        assert longer[k] == issued[k] && more[k] == readings[k] && CounterAfter(first, longer, k) == CounterAfter(first, issued, k);
      }
    }
  }

  /** What a CAS issues, if it does. */
  lemma WinnerFollows(first: int, acts: seq<Action>, t: ThreadId)
    requires Run(Start(first), acts).Some? && Enabled(Run(Start(first), acts).value, CompareAndSwap(t))
    ensures var s, s' := Run(Start(first), acts).value, Apply(Run(Start(first), acts).value, CompareAndSwap(t));
            || s'.issued == s.issued
            || (s'.issued == s.issued + [s'.counter] && Reading(acts, t).Some?
                && Follows(s'.counter, s.counter, Reading(acts, t).value))
  {
    CallerHasReading(first, acts, t);
  }

  /** For any goroutines, interleaving and clock: the k-th number is the reading its call made after its last lost CAS, if
      that is above the counter before it, and otherwise that counter plus one. */
  lemma {:induction false} IssuedFromClock(first: int, acts: seq<Action>)
    requires Run(Start(first), acts).Some?
    ensures FromClock(first, Run(Start(first), acts).value.issued, WinningReadings(first, acts))
  {
    hide Reading, Follows, FromClock, Charged, Increasing;
    if acts == [] {
      NothingIssued(first);
    } else {
      var init, a := acts[..|acts| - 1], acts[|acts| - 1];
      IssuedFromClock(first, init);
      RunConsistent(first, init);
      var m, s := Run(Start(first), init).value, Run(Start(first), acts).value;
      if a.CompareAndSwap? { WinnerFollows(first, init, a.t); }
      if s.issued == m.issued {
        assert WinningReadings(first, acts) == WinningReadings(first, init);
      } else {
        FromClockAppend(first, m.issued, WinningReadings(first, init), s.counter, Reading(init, a.t).value);
        assert WinningReadings(first, acts) == WinningReadings(first, init) + [Reading(init, a.t)];
      }
    }
  }

  lemma NothingIssued(first: int)
    ensures FromClock(first, [], [])
  {
  }

  /** How often a call has tried a CAS since it began. */
  function Attempts(acts: seq<Action>, t: ThreadId): nat {
    if acts == [] || acts[|acts| - 1] == Call(t) then 0
    else Attempts(acts[..|acts| - 1], t) + (if acts[|acts| - 1] == CompareAndSwap(t) then 1 else 0)
  }

  /** How many numbers had been issued when it began. */
  function IssuedAtCall(first: int, acts: seq<Action>, t: ThreadId): nat
    requires Run(Start(first), acts).Some?
  {
    if acts == [] then 0
    else if acts[|acts| - 1] == Call(t) then |Run(Start(first), acts[..|acts| - 1]).value.issued|
    else IssuedAtCall(first, acts[..|acts| - 1], t)
  }

  lemma {:induction false} HistoryOfCall(first: int, acts: seq<Action>, t: ThreadId)
    requires Run(Start(first), acts).Some? && t in Run(Start(first), acts).value.callers
    ensures var c := Run(Start(first), acts).value.callers[t];
            c.since == IssuedAtCall(first, acts, t) && |c.charges| == Attempts(acts, t)
  {
    if acts != [] {
      var init := acts[..|acts| - 1];
      if t in Run(Start(first), init).value.callers { HistoryOfCall(first, init, t); }
    }
  }

  /** Progress: a call that has failed n times has seen at least n other calls return since it began. */
  lemma FailuresAreCharged(first: int, acts: seq<Action>, t: ThreadId)
    requires Run(Start(first), acts).Some? && t in Run(Start(first), acts).value.callers
    ensures var s := Run(Start(first), acts).value;
            var c, since := s.callers[t], IssuedAtCall(first, acts, t);
            && |s.owners| == |s.issued|
            && |c.charges| == Attempts(acts, t) <= |s.issued| - since
            && (forall i :: 0 <= i < |c.charges| ==> since <= c.charges[i] < |s.issued| && s.owners[c.charges[i]] != t)
            && (forall i, k :: 0 <= i < k < |c.charges| ==> c.charges[i] != c.charges[k])
  {
    RunConsistent(first, acts);
    HistoryOfCall(first, acts, t);
    var s := Run(Start(first), acts).value;
    assert Charged(s.owners, t, s.callers[t]);
    SparseIncreasing(s.callers[t].charges, s.callers[t].since, |s.issued|);
  }

  lemma {:induction false} SparseIncreasing(c: seq<nat>, low: nat, high: nat)
    requires forall i :: 0 <= i < |c| ==> low <= c[i] < high
    requires forall i, k :: 0 <= i < k < |c| ==> c[i] < c[k]
    requires low <= high
    ensures |c| <= high - low
  {
    if c != [] {
      SparseIncreasing(c[..|c| - 1], low, c[|c| - 1]);
    }
  }

  /** No clock reading of the schedule is below `low`. */
  predicate ClockAbove(low: int, acts: seq<Action>) {
    forall a <- acts :: a.ReadClock? ==> a.now >= low
  }

  /** A number is never below the clock reading it was made from. */
  lemma {:induction false} IssuedAboveClock(first: int, low: int, acts: seq<Action>)
    requires Run(Start(first), acts).Some? && ClockAbove(low, acts)
    ensures var s := Run(Start(first), acts).value;
            && (forall n <- s.issued :: n >= low)
            && (forall t <- s.callers :: !s.callers[t].AtTop? ==> s.callers[t].now >= low)
  {
    if acts != [] {
      var init, a := acts[..|acts| - 1], acts[|acts| - 1];
      assert a in acts;
      forall b | b in init ensures b in acts {}
      IssuedAboveClock(first, low, init);
    }
  }

  predicate Drifts(s: State) {
    && (forall t <- s.callers :: !s.callers[t].AtTop? ==> s.maxClock.Some? && 1 <= s.callers[t].now <= s.maxClock.value)
    && (s.issued == [] ==> s.counter == 0)
    && (s.issued != [] ==> s.maxClock.Some? && s.counter <= s.maxClock.value + |s.issued| - 1)
  }

  lemma {:induction false} RunDrifts(acts: seq<Action>)
    requires Run(Start(0), acts).Some? && ClockAbove(1, acts)
    ensures Drifts(Run(Start(0), acts).value)
  {
    if acts != [] {
      var init, a := acts[..|acts| - 1], acts[|acts| - 1];
      assert a in acts;
      forall b | b in init ensures b in acts {}
      RunDrifts(init);
      RunConsistent(0, init);
      var s := Run(Start(0), init).value;
      if a.CompareAndSwap? {
        NoAba(0, s, a.t);
      }
    }
  }

  lemma {:induction false} MaxClockIsAReading(first: int, acts: seq<Action>)
    requires Run(Start(first), acts).Some?
    ensures var m := Run(Start(first), acts).value.maxClock;
            && (m.Some? ==> exists a <- acts :: a.ReadClock? && a.now == m.value)
            && (forall a <- acts :: a.ReadClock? ==> m.Some? && a.now <= m.value)
  {
    if acts != [] {
      var init, a := acts[..|acts| - 1], acts[|acts| - 1];
      assert acts == init + [a];
      MaxClockIsAReading(first, init);
    }
  }

  /** Drift: with positive clock readings, after n issues the counter is at most the largest reading plus n - 1. */
  lemma DriftBound(acts: seq<Action>)
    requires Run(Start(0), acts).Some? && ClockAbove(1, acts)
    ensures var s := Run(Start(0), acts).value;
            && (s.issued == [] ==> s.counter == 0)
            && (s.issued != [] ==> exists a <- acts :: a.ReadClock? && s.counter <= a.now + |s.issued| - 1)
  {
    RunDrifts(acts);
    MaxClockIsAReading(0, acts);
  }

  /** The largest clock reading leaves room for the number of calls. */
  predicate LeavesRoom(acts: seq<Action>, calls: nat) {
    forall a <- acts :: a.ReadClock? ==> a.now + calls - 1 <= MAX_INT64
  }

  /** So the 64-bit counter cannot wrap while the clock leaves room for the number of calls. */
  lemma NoOverflow(acts: seq<Action>)
    requires Run(Start(0), acts).Some? && ClockAbove(1, acts)
    requires LeavesRoom(acts, |Run(Start(0), acts).value.issued|)
    ensures forall n <- Run(Start(0), acts).value.issued :: 0 < n <= MAX_INT64
  {
    DriftBound(acts);
    RunConsistent(0, acts);
    var s := Run(Start(0), acts).value;
    forall n | n in s.issued ensures 0 < n <= MAX_INT64 {
      var k :| 0 <= k < |s.issued| && s.issued[k] == n;
      if k < |s.issued| - 1 { assert s.issued[k] < s.issued[|s.issued| - 1]; }
    }
  }

  // ---------------------------------------------------------------- one call, as the loop it is

  /** What the other goroutines do to one round of a call: the clock it reads,
      and the clock readings of the calls that return between its load and its CAS. */
  datatype Round = Round(now: int, others: seq<int>)

  /** The counter after the given calls have returned. */
  function Advanced(counter: int, others: seq<int>): int
    decreases |others|
  {
    if others == [] then counter else Advanced(Next(counter, others[0]), others[1..])
  }

  lemma {:induction false} AdvancedGrows(counter: int, others: seq<int>)
    ensures Advanced(counter, others) >= counter + |others|
    decreases |others|
  {
    if others != [] {
      AdvancedGrows(Next(counter, others[0]), others[1..]);
    }
  }

  /** The counter once the first `n` rounds have been lost. */
  function Lost(counter: int, rounds: seq<Round>, n: nat): int
    requires n <= |rounds|
  {
    if n == 0 then counter else Advanced(Lost(counter, rounds, n - 1), rounds[n - 1].others)
  }

  class TxCounter {
    var value: int

    /** The retry loop. It returns in the first round in which no other call returned between its load and its CAS,
        and the number it installs is above every number the others were given. */
    method NextTransactionID(rounds: seq<Round>, quiet: int) returns (id: int, failures: nat)
      modifies this
      ensures failures <= |rounds|
      ensures forall i :: 0 <= i < failures ==> rounds[i].others != []
      ensures failures < |rounds| ==> rounds[failures].others == []
      ensures id == value
      ensures value == Next(Lost(old(value), rounds, failures),
                            if failures < |rounds| then rounds[failures].now else quiet)
      ensures var now := if failures < |rounds| then rounds[failures].now else quiet;
              var loaded := Lost(old(value), rounds, failures);
              (now > loaded ==> id == now) && (now <= loaded ==> id == loaded + 1)
      ensures Lost(old(value), rounds, failures) >= old(value) + failures
    {
      failures := 0;
      while true
        invariant failures <= |rounds|
        invariant forall i :: 0 <= i < failures ==> rounds[i].others != []
        invariant value == Lost(old(value), rounds, failures) >= old(value) + failures
        decreases |rounds| - failures
      {
        var now := if failures < |rounds| then rounds[failures].now else quiet;
        var last := value;
        var next := now;
        if next <= last {
          next := last + 1;
        }
        // Other calls return here.
        var others := if failures < |rounds| then rounds[failures].others else [];
        AdvancedGrows(value, others);
        value := Advanced(value, others);
        if value == last {
          value := next;
          id := next;
          return;
        }
        failures := failures + 1;
      }
    }
  }
}
