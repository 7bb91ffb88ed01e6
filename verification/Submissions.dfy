/** The protocol takes an identifier in one step, when a request is submitted. Here the request is inside the retry loop of
    `nextTransactionID` first, its clock reading, load and CAS interleaved with everything else; every such run is a
    run of the protocol in which the submission happens at the CAS that succeeds. */
module Submissions {
  import opened Domain
  import opened Protocol
  import opened Invariant
  import Gen = IdGenerator
  import Locking
  import IdText

  /** An API call that has passed the guard and has no identifier yet. */
  datatype Call = Call(req: Request, async: bool)

  /** The protocol, the generator of the running process, and the calls inside the loop. */
  datatype Fine = Fine(p: State, g: Gen.State, calls: map<ThreadId, Call>)

  datatype FineAction =
    | Arrive(t: ThreadId, req: Request, async: bool)
    | Loop(step: Gen.Action)  // one step of the retry loop of a call
    | Other(action: Action)   // anything else

  function FineInit(c: Config): Fine {
    Fine(Init(c), Gen.Start(0), map[])
  }

  /** What the clock must read past; see A5. */
  function ClockBound(c: Config, p: State): int {
    if c.laterClock then p.floor else IdText.SEEDED - 1
  }

  predicate FineEnabled(c: Config, f: Fine, a: FineAction) {
    match a
    case Arrive(t, req, _) => t !in f.p.threads && t !in f.calls && Admits(req) && Gen.Enabled(f.g, Gen.Call(t))
    case Loop(b) =>
      && !b.Call? && b.t in f.calls && Gen.Enabled(f.g, b)
      && (b.ReadClock? ==> b.now > ClockBound(c, f.p))
    case Other(b) => !b.Submit? && Enabled(c, f.p, b) && (b.Deliver? ==> b.t !in f.calls)
  }

  /** The CAS with which the call of `t` leaves the loop. */
  predicate Wins(f: Fine, a: FineAction) {
    a.Loop? && a.step.CompareAndSwap? && Gen.Enabled(f.g, a.step) && Gen.SwapSucceeds(f.g, a.step.t)
  }

  /** The submission a winning CAS amounts to. */
  function Submission(f: Fine, a: FineAction): Action
    requires Wins(f, a) && a.step.t in f.calls
  {
    var call := f.calls[a.step.t];
    Submit(a.step.t, call.req, f.g.callers[a.step.t].now, call.async)
  }

  /** The identifier is what the CAS installed. */
  function Submitted(p: State, t: ThreadId, call: Call, id: TxId): State {
    var j := Job(id, call.req);
    if call.async then Goto(p.(counter := id), t, Saving(j))
    else Goto(p.(counter := id, db := Locking.Begin(p.db, t, j, true)), t, Syncing(j))
  }

  function FineApply(c: Config, f: Fine, a: FineAction): Fine
    requires FineEnabled(c, f, a)
  {
    match a
    case Arrive(t, req, async) => f.(g := Gen.Apply(f.g, Gen.Call(t)), calls := f.calls[t := Call(req, async)])
    case Loop(b) =>
      var g := Gen.Apply(f.g, b);
      if Wins(f, a) then Fine(Submitted(f.p, b.t, f.calls[b.t], g.counter), g, f.calls - {b.t}) else f.(g := g)
    case Other(b) =>
      if b.Restart? then Fine(Apply(c, f.p, b), Gen.Start(0), map[]) else f.(p := Apply(c, f.p, b))
  }

  function FineRun(c: Config, acts: seq<FineAction>): Option<Fine> {
    if acts == [] then Some(FineInit(c)) else
      match FineRun(c, acts[..|acts| - 1])
      case None => None
      case Some(m) =>
        if FineEnabled(c, m, acts[|acts| - 1]) then Some(FineApply(c, m, acts[|acts| - 1])) else None
  }

  /** The protocol actions of a run: what is outside the loop, and a submission for each winning CAS. */
  function Coarse(c: Config, acts: seq<FineAction>): seq<Action>
    requires FineRun(c, acts).Some?
  {
    if acts == [] then [] else
      var init, a := acts[..|acts| - 1], acts[|acts| - 1];
      var f := FineRun(c, init).value;
      Coarse(c, init) + (if Wins(f, a) then [Submission(f, a)] else if a.Other? then [a.action] else [])
  }

  /** The steps of the loop since the process last started. */
  function LoopSteps(acts: seq<FineAction>): seq<Gen.Action> {
    if acts == [] then [] else
      var init, a := acts[..|acts| - 1], acts[|acts| - 1];
      match a
      case Arrive(t, _, _) => LoopSteps(init) + [Gen.Call(t)]
      case Loop(b) => LoopSteps(init) + [b]
      case Other(b) => if b.Restart? then [] else LoopSteps(init)
  }

  // ---------------------------------------------------------------- the links between the two

  predicate Together(c: Config, f: Fine) {
    && f.p.counter == f.g.counter
    && f.g.callers.Keys == f.calls.Keys
    && (forall t <- f.calls :: t !in f.p.threads && Admits(f.calls[t].req))
    && (forall t <- f.g.callers :: !f.g.callers[t].AtTop? ==> f.g.callers[t].now > ClockBound(c, f.p))
  }

  /** Nothing but a submission or a restart moves the counter or the floor, and only a delivery starts a goroutine. */
  lemma OthersKeepCounter(c: Config, p: State, a: Action)
    requires Enabled(c, p, a) && !a.Submit? && !a.Restart?
    ensures Apply(c, p, a).counter == p.counter && Apply(c, p, a).floor == p.floor
    ensures forall t <- Apply(c, p, a).threads :: t in p.threads || (a.Deliver? && a.t == t)
  {
    hide Locking.Execute, Locking.CommitTx, Locking.Rollback, Locking.Begin, Locking.Enabled, Acknowledged, Rejected, Returned,
         Enqueued, Recorded, WithStatus;
  }

  lemma TogetherStep(c: Config, f: Fine, a: FineAction)
    requires Together(c, f) && FineEnabled(c, f, a)
    ensures Together(c, FineApply(c, f, a))
  {
    hide Enabled, Apply, Locking.Begin;
    if a.Other? && !a.action.Restart? { OthersKeepCounter(c, f.p, a.action); }
    if a.Other? && a.action.Restart? { RestartCounter(c, f.p); }
  }

  lemma RestartCounter(c: Config, p: State)
    requires Enabled(c, p, Restart)
    ensures Apply(c, p, Restart).counter == 0
  {
  }

  /** A winning CAS is the atomic submission: the counter is still what the call loaded. */
  lemma WinIsSubmit(c: Config, f: Fine, a: FineAction)
    requires Together(c, f) && FineEnabled(c, f, a) && Wins(f, a)
    ensures a.step.t in f.calls
    ensures Enabled(c, f.p, Submission(f, a)) && FineApply(c, f, a).p == Apply(c, f.p, Submission(f, a))
  {
  }

  lemma {:induction false} RunTogether(c: Config, acts: seq<FineAction>)
    requires FineRun(c, acts).Some?
    ensures Together(c, FineRun(c, acts).value)
  {
    hide FineApply, FineEnabled;
    if acts != [] {
      RunTogether(c, acts[..|acts| - 1]);
      TogetherStep(c, FineRun(c, acts[..|acts| - 1]).value, acts[|acts| - 1]);
    } else {
      StartTogether(c);
    }
  }

  lemma StartTogether(c: Config)
    ensures Together(c, FineInit(c))
  {
  }

  /** Nothing restricts how calls in the loop interleave with each other and with the rest. */
  lemma AnyoneCanMove(c: Config, f: Fine, t: ThreadId, req: Request, async: bool, step: Gen.Action, a: Action)
    requires Together(c, f)
    ensures t !in f.p.threads && t !in f.calls && req.src != 0 && req.dst != 0 && req.amount > 0 ==>
              FineEnabled(c, f, Arrive(t, req, async))
    ensures step.t in f.calls && !step.Call? && Gen.Enabled(f.g, step)
            && (step.ReadClock? ==> step.now >= IdText.SEEDED && step.now > f.p.floor) ==>
              FineEnabled(c, f, Loop(step))
    ensures Enabled(c, f.p, a) && !a.Submit? && (a.Deliver? ==> a.t !in f.calls) ==> FineEnabled(c, f, Other(a))
  {
    hide Enabled;
  }

  // ---------------------------------------------------------------- the theorems

  lemma ProtocolStep(c: Config, f: Fine, a: FineAction)
    requires FineEnabled(c, f, a) && !Wins(f, a)
    ensures a.Other? ==> Enabled(c, f.p, a.action) && FineApply(c, f, a).p == Apply(c, f.p, a.action)
    ensures !a.Other? ==> FineApply(c, f, a).p == f.p
  {
    hide Enabled, Apply;
  }

  /** Refinement: with identifiers taken by load and CAS steps among any number of calls, interleaved with all the rest, the
      system behaves as the protocol does, each submission being atomic at the CAS that succeeds. */
  lemma {:induction false} SubmissionsAreAtomic(c: Config, acts: seq<FineAction>)
    requires FineRun(c, acts).Some?
    ensures Run(c, Coarse(c, acts)) == Some(FineRun(c, acts).value.p)
  {
    hide FineApply, FineEnabled, Enabled, Apply, Wins;
    if acts != [] {
      var init, a := acts[..|acts| - 1], acts[|acts| - 1];
      var f := FineRun(c, init).value;
      SubmissionsAreAtomic(c, init);
      RunTogether(c, init);
      if Wins(f, a) {
        WinIsSubmit(c, f, a);
        OneMore(c, Coarse(c, init), f.p, Submission(f, a));
        assert Coarse(c, acts) == Coarse(c, init) + [Submission(f, a)];
      } else {
        ProtocolStep(c, f, a);
        if a.Other? {
          OneMore(c, Coarse(c, init), f.p, a.action);
          assert Coarse(c, acts) == Coarse(c, init) + [a.action];
        } else {
          assert Coarse(c, acts) == Coarse(c, init);
        }
      }
    }
  }

  lemma OneMore(c: Config, acts: seq<Action>, s: State, a: Action)
    requires Run(c, acts) == Some(s) && Enabled(c, s, a)
    ensures Run(c, acts + [a]) == Some(Apply(c, s, a))
  {
    assert (acts + [a])[..|acts|] == acts;
  }

  lemma GeneratorStep(c: Config, f: Fine, a: FineAction)
    requires FineEnabled(c, f, a)
    ensures match a
            case Arrive(t, _, _) => Gen.Enabled(f.g, Gen.Call(t)) && FineApply(c, f, a).g == Gen.Apply(f.g, Gen.Call(t))
            case Loop(b) => Gen.Enabled(f.g, b) && FineApply(c, f, a).g == Gen.Apply(f.g, b)
            case Other(b) => FineApply(c, f, a).g == if b.Restart? then Gen.Start(0) else f.g
  {
    hide Enabled, Apply, Gen.Enabled, Gen.Apply;
  }

  /** And the identifiers come from a run of the generator alone, so all that is proved of it holds of them. */
  lemma {:induction false} LoopIsGenerator(c: Config, acts: seq<FineAction>)
    requires FineRun(c, acts).Some?
    ensures Gen.Run(Gen.Start(0), LoopSteps(acts)) == Some(FineRun(c, acts).value.g)
  {
    hide FineApply, FineEnabled, Gen.Enabled, Gen.Apply;
    if acts != [] {
      var init, a := acts[..|acts| - 1], acts[|acts| - 1];
      var f := FineRun(c, init).value;
      LoopIsGenerator(c, init);
      GeneratorStep(c, f, a);
      match a
      case Arrive(t, _, _) => OneMoreStep(LoopSteps(init), f.g, Gen.Call(t));
      case Loop(b) => OneMoreStep(LoopSteps(init), f.g, b);
      case Other(_) =>
    }
  }

  lemma OneMoreStep(steps: seq<Gen.Action>, g: Gen.State, a: Gen.Action)
    requires Gen.Run(Gen.Start(0), steps) == Some(g) && Gen.Enabled(g, a)
    ensures Gen.Run(Gen.Start(0), steps + [a]) == Some(Gen.Apply(g, a))
  {
    assert (steps + [a])[..|steps|] == steps;
  }

  /** The identifier with which a call leaves the loop is the last number issued, above every other one issued by this
      process, and in no row, message or goroutine left by earlier ones. */
  lemma WinnerIsNew(c: Config, acts: seq<FineAction>, a: FineAction)
    requires c.Reliable() && c.Valid() && FineRun(c, acts).Some?
    requires FineEnabled(c, FineRun(c, acts).value, a) && Wins(FineRun(c, acts).value, a)
    ensures var f, f' := FineRun(c, acts).value, FineApply(c, FineRun(c, acts).value, a);
            var id := f'.g.counter;
            && f'.g.issued == f.g.issued + [id] && f'.g.owners == f.g.owners + [a.step.t]
            && a.step.t in f'.p.threads && f'.p.threads[a.step.t].job == Job(id, f.calls[a.step.t].req)
            && (forall n <- f.g.issued :: n < id)
            && Gen.Reading(LoopSteps(acts), a.step.t).Some?
            && Gen.Follows(id, f.p.counter, Gen.Reading(LoopSteps(acts), a.step.t).value)
            && id !in f.p.rows && Unpublished(f.p.broker, id) && (forall t <- f.p.threads :: f.p.threads[t].job.id != id)
  {
    hide FineRun, Inv, Apply, Enabled;
    var f := FineRun(c, acts).value;
    SubmissionsAreAtomic(c, acts);
    RunTogether(c, acts);
    RunInv(c, Coarse(c, acts));
    NewIdentifier(c, f.p, Gen.Next(f.p.counter, f.g.callers[a.step.t].now));
    LoopIsGenerator(c, acts);
    IssuedBelow(LoopSteps(acts), f.g);
    Gen.WinnerFollows(0, LoopSteps(acts), a.step.t);
  }

  lemma IssuedBelow(steps: seq<Gen.Action>, g: Gen.State)
    requires Gen.Run(Gen.Start(0), steps) == Some(g)
    ensures forall n <- g.issued :: n <= g.counter
  {
    Gen.RunConsistent(0, steps);
    forall n | n in g.issued ensures n <= g.counter {
      var k :| 0 <= k < |g.issued| && g.issued[k] == n;
      if k < |g.issued| - 1 { assert g.issued[k] < g.issued[|g.issued| - 1]; }
    }
  }

  lemma FineExtend(c: Config, acts: seq<FineAction>, f: Fine, a: FineAction) returns (longer: seq<FineAction>)
    requires FineRun(c, acts) == Some(f) && FineEnabled(c, f, a)
    ensures longer == acts + [a] && FineRun(c, longer) == Some(FineApply(c, f, a))
  {
    longer := acts + [a];
    assert longer[..|acts|] == acts;
  }

  /** Every submission of the protocol happens so: a call that meets no other in the loop leaves it after one round. */
  lemma CallGoesThrough(c: Config, acts: seq<FineAction>, t: ThreadId, req: Request, now: int, async: bool)
      returns (longer: seq<FineAction>)
    requires FineRun(c, acts).Some? && t !in FineRun(c, acts).value.calls
    requires Enabled(c, FineRun(c, acts).value.p, Submit(t, req, now, async))
    ensures longer == acts + [Arrive(t, req, async)] + [Loop(Gen.ReadClock(t, now))] + [Loop(Gen.Load(t))]
                      + [Loop(Gen.CompareAndSwap(t))]
    ensures FineRun(c, longer).Some?
    ensures var f, f' := FineRun(c, acts).value, FineRun(c, longer).value;
            f'.p == Apply(c, f.p, Submit(t, req, now, async)) && f'.calls == f.calls
  {
    hide FineRun;
    RunTogether(c, acts);
    var f := FineRun(c, acts).value;
    longer := FineExtend(c, acts, f, Arrive(t, req, async));
    var f1 := FineApply(c, f, Arrive(t, req, async));
    longer := FineExtend(c, longer, f1, Loop(Gen.ReadClock(t, now)));
    var f2 := FineApply(c, f1, Loop(Gen.ReadClock(t, now)));
    longer := FineExtend(c, longer, f2, Loop(Gen.Load(t)));
    var f3 := FineApply(c, f2, Loop(Gen.Load(t)));
    longer := FineExtend(c, longer, f3, Loop(Gen.CompareAndSwap(t)));
    assert f1.calls - {t} == f.calls;
  }
}
