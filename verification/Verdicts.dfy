/** A delivery ends in one acknowledgement or rejection, after a bounded number of steps of its own goroutine. */
module Verdicts {
  import opened Domain
  import opened Protocol
  import opened Invariant
  import opened Unconditional
  import Locking

  /** A step that goroutine `t` takes itself, or its crash. */
  predicate Own(a: Action, t: ThreadId) {
    !a.Restart? && !a.Requeue? && a.t == t
  }

  predicate Verdict(a: Action, t: ThreadId) {
    a == Ack(t) || a == Nack(t) || a == Crash(t)
  }

  function StatementsLeft(stage: Locking.Stage): nat {
    match stage
    case Select => 5
    case CheckDest => 4
    case Debit => 3
    case Credit => 2
    case Record => 1
    case Commit => 0
  }

  /** How many more steps `process` can take before it returns. */
  function StepsLeft(s: State, t: ThreadId): nat
    requires t in s.threads
  {
    match s.threads[t]
    case Checking(_) => 10
    case Settling(_) => 4 + (if t in s.db.txs then StatementsLeft(s.db.txs[t].stage) else 0)
    case DelBalances(_) => 3
    case DelStatus(_) => 2
    case Acking(_) => 1
    case MarkingFailed(_) => 2
    case Nacking(_) => 1
    case _ => 0
  }

  predicate Processing(s: State, t: ThreadId, j: Job) {
    t in s.threads && s.threads[t].Consuming() && s.threads[t].job == j
  }

  /** A delivery being processed ends in exactly one acknowledgement or rejection, unless its goroutine crashes;
      every other step of its goroutine brings that nearer. */
  lemma OneVerdict(c: Config, s: State, a: Action, t: ThreadId)
    requires Enabled(c, s, a) && t in s.threads && s.threads[t].Consuming() && Own(a, t)
    ensures t !in Apply(c, s, a).threads <==> Verdict(a, t)
    ensures !Verdict(a, t) ==>
              Processing(Apply(c, s, a), t, s.threads[t].job) && StepsLeft(Apply(c, s, a), t) < StepsLeft(s, t)
  {
    hide Locking.CommitTx, Locking.Rollback, Acknowledged, Rejected, Returned, Enqueued, Recorded, WithStatus;
    if a.Statement? { StatementLowers(s.db, t); }
    hide Locking.Execute;
  }

  lemma StatementLowers(d: Locking.Db, t: ThreadId)
    requires Locking.Enabled(d, Locking.Statement(t))
    ensures t in Locking.Execute(d, t).txs ==>
              StatementsLeft(Locking.Execute(d, t).txs[t].stage) < StatementsLeft(d.txs[t].stage)
  {
  }

  /** Nobody else's step moves the goroutine. */
  lemma OthersStep(c: Config, s: State, a: Action, t: ThreadId)
    requires Enabled(c, s, a) && t in s.threads && s.threads[t].Consuming() && !Own(a, t)
    ensures Processing(Apply(c, s, a), t, s.threads[t].job) && StepsLeft(Apply(c, s, a), t) == StepsLeft(s, t)
  {
    hide Apply, Enabled;
    OthersThread(c, s, a, t);
    OthersTransaction(c, s, a, t);
  }

  lemma OthersThread(c: Config, s: State, a: Action, t: ThreadId)
    requires Enabled(c, s, a) && t in s.threads && !Own(a, t)
    ensures t in Apply(c, s, a).threads && Apply(c, s, a).threads[t] == s.threads[t]
  {
    hide Acknowledged, Rejected, Returned, Enqueued, Recorded, WithStatus, CanInsert, StatusOf, Admits,
         Locking.Execute, Locking.CommitTx, Locking.Rollback, Locking.Begin, Locking.Enabled;
  }

  lemma OthersTransaction(c: Config, s: State, a: Action, t: ThreadId)
    requires Enabled(c, s, a) && t in s.threads && !Own(a, t)
    ensures var d, d' := s.db, Apply(c, s, a).db; (t in d'.txs <==> t in d.txs) && (t in d.txs ==> d'.txs[t] == d.txs[t])
  {
    hide Acknowledged, Rejected, Returned, Enqueued, Recorded, WithStatus, CanInsert, StatusOf, Admits, Locking.Execute,
         Locking.Unlocked;
    if a.Statement? { OtherStatement(s.db, a.t, t); }
  }

  lemma OtherStatement(d: Locking.Db, u: ThreadId, t: ThreadId)
    requires Locking.Enabled(d, Locking.Statement(u)) && u != t
    ensures var d' := Locking.Execute(d, u); (t in d'.txs <==> t in d.txs) && (t in d.txs ==> d'.txs[t] == d.txs[t])
  {
  }

  /** Unless it waits for a row lock, a goroutine with a delivery has a next step. */
  lemma NeverStuck(c: Config, s: State, t: ThreadId) returns (a: Action)
    requires Fit(c, s) && t in s.threads && s.threads[t].Consuming()
    ensures (s.threads[t].Settling? && t in s.db.txs && Locking.Blocked(s.db, t)) || (Own(a, t) && !a.Crash? && Enabled(c, s, a))
  {
    hide Fit, Partition, Database, Deliveries, Admits, Locking.Blocked, Top;
    Knows(c, s, t);
    var th := s.threads[t];
    if th.Checking? { a := ReadStatus(t, StatusOf(s, th.job.id)); }
    else if th.Settling? { a := if s.db.txs[t].stage.Commit? then Commit(t) else Statement(t); }
    else if th.DelBalances? || th.DelStatus? { a := Invalidate(t); }
    else if th.Acking? { a := Ack(t); }
    else if th.MarkingFailed? { a := MarkFailed(t, true); }
    else { a := Nack(t); }
  }

  function OwnSteps(acts: seq<Action>, t: ThreadId): nat {
    if acts == [] then 0 else OwnSteps(acts[..|acts| - 1], t) + (if Own(acts[|acts| - 1], t) then 1 else 0)
  }

  /** Over whole runs, whatever the others do: until its verdict a delivery stays with its goroutine, which takes
      at most nine steps from the delivery on. */
  lemma {:induction false} VerdictInTime(c: Config, acts: seq<Action>, more: seq<Action>, t: ThreadId)
    requires Run(c, acts).Some? && Run(c, acts + more).Some?
    requires var s := Run(c, acts).value; t in s.threads && s.threads[t].Consuming()
    requires forall a <- more :: !Verdict(a, t)
    ensures var s, s' := Run(c, acts).value, Run(c, acts + more).value;
            Processing(s', t, s.threads[t].job) && 1 <= StepsLeft(s', t) <= StepsLeft(s, t) - OwnSteps(more, t)
    ensures OwnSteps(more, t) <= 9
    decreases |more|
  {
    hide Apply, Enabled;
    if more == [] {
      assert acts + more == acts;
    } else {
      var init, a := more[..|more| - 1], more[|more| - 1];
      assert (acts + more)[..|acts + more| - 1] == acts + init && a in more;
      forall b | b in init ensures b in more {}
      VerdictInTime(c, acts, init, t);
      var m := Run(c, acts + init).value;
      if Own(a, t) { OneVerdict(c, m, a, t); } else { OthersStep(c, m, a, t); }
    }
  }
}
