/** Which jobs are accepted and which rejected, at the level of the whole protocol: concurrent workers and API calls decide
    as `createSync` does one request after the other. */
module Decisions {
  import opened Domain
  import opened Ledger
  import opened Protocol
  import opened Invariant
  import opened Unconditional
  import Locking

  /** An applied COMMIT, whatever it reports. */
  predicate Commits(a: Action) {
    a.Commit? || (a.CommitFails? && a.applied)
  }

  /** The job a step decides: a COMMIT accepts it, a failed check rejects it. */
  function Decision(c: Config, s: State, a: Action): Option<Job>
    requires Enabled(c, s, a)
  {
    if Commits(a) then Locking.Decision(s.db, Locking.Finish(a.t))
    else if a.Statement? then Locking.Decision(s.db, Locking.Statement(a.t))
    else None
  }

  function Decided(c: Config, acts: seq<Action>): seq<Job>
    requires Run(c, acts).Some?
  {
    if acts == [] then [] else
      var init, a := acts[..|acts| - 1], acts[|acts| - 1];
      var decision := Decision(c, Run(c, init).value, a);
      Decided(c, init) + (if decision.Some? then [decision.value] else [])
  }

  /** A decision is the one createSync would take on the committed balances of that moment; no other step commits anything. */
  lemma DecisionStep(c: Config, s: State, a: Action)
    requires Fit(c, s) && Enabled(c, s, a)
    ensures var d, d' := s.db, Apply(c, s, a).db;
            match Decision(c, s, a)
            case None => d'.bal == d.bal && d'.journal == d.journal
            case Some(j) =>
              && Accepts(d.bal, j.req) == Commits(a)
              && d'.bal == (if Commits(a) then Post(d.bal, j.req) else d.bal)
              && d'.journal == (if Commits(a) then d.journal + [j] else d.journal)
    ensures Decision(c, s, a).Some? ==>
              a.t in s.threads && s.threads[a.t].InDb() && Decision(c, s, a) == Some(s.threads[a.t].job)
    ensures Commits(a) ==> Decision(c, s, a).Some?
    ensures Decision(c, s, a).Some? ==> Commits(a) || a.Statement?
  {
    hide Fit, Accepts, Post, Locking.Execute, Locking.CommitTx, Locking.Rollback, Locking.Enabled, Recorded, WithStatus, Locking.Decision;
    if Commits(a) || a.Statement? {
      DatabaseDecision(c, s, a.t, if Commits(a) then Locking.Finish(a.t) else Locking.Statement(a.t));
    } else {
      OthersCommitNothing(c, s, a);
    }
  }

  lemma DatabaseDecision(c: Config, s: State, t: ThreadId, a: Locking.Action)
    requires Fit(c, s) && t in s.threads && s.threads[t].InDb() && Locking.Enabled(s.db, a)
    requires a == Locking.Finish(t) || a == Locking.Statement(t)
    ensures Locking.Decision(s.db, a).Some? ==>
              var j, d' := s.threads[t].job, Locking.Apply(s.db, a);
              && Locking.Decision(s.db, a) == Some(j)
              && Accepts(s.db.bal, j.req) == a.Finish?
              && d'.bal == (if a.Finish? then Post(s.db.bal, j.req) else s.db.bal)
              && d'.journal == (if a.Finish? then s.db.journal + [j] else s.db.journal)
    ensures Locking.Decision(s.db, a).None? ==>
              !a.Finish? && Locking.Apply(s.db, a).bal == s.db.bal && Locking.Apply(s.db, a).journal == s.db.journal
  {
    hide Fit, Partition, Deliveries, Locking.Consistent, Accepts, Post, ThreadFits;
    Parts(c, s);
    Knows(c, s, t);
    if a.Finish? { CommitFits(c, s, t); }
    Locking.DecisionIsSync(s.db, a);
  }

  lemma OthersCommitNothing(c: Config, s: State, a: Action)
    requires Enabled(c, s, a) && !Commits(a) && !a.Statement?
    ensures Apply(c, s, a).db.bal == s.db.bal && Apply(c, s, a).db.journal == s.db.journal
  {
    hide Acknowledged, Rejected, Returned, Enqueued, Recorded, WithStatus, CanInsert, StatusOf;
  }

  /** Mixed traffic of any number of API calls and workers, in any environment, decides as createSync does one job after
      the other: in the order of their COMMITs and failed checks, exactly those commit that it accepts, every one
      rejected it would reject, and the committed balances are its own. */
  lemma {:induction false} TrafficIsSync(c: Config, acts: seq<Action>)
    requires c.Valid() && Run(c, acts).Some?
    ensures var s, jobs := Run(c, acts).value, Decided(c, acts);
            s.db.bal == RunSync(c.open, jobs) && s.db.journal == Chosen(c.open, jobs, true)
  {
    hide Fit, Apply, Enabled, Decision, Chosen, RunSync, Accepts, Post;
    if acts == [] {
      SyncNothing(c.open);
    } else {
      var init, a := acts[..|acts| - 1], acts[|acts| - 1];
      TrafficIsSync(c, init);
      RunFit(c, init);
      DecisionStep(c, Run(c, init).value, a);
      var jobs, decision := Decided(c, init), Decision(c, Run(c, init).value, a);
      if decision.Some? {
        RunSyncAppend(c.open, jobs, decision.value);
        assert Decided(c, acts) == jobs + [decision.value];
      } else {
        assert Decided(c, acts) == jobs;
      }
    }
  }
}
