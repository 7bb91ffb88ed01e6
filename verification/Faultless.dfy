/** The asynchronous path refines the synchronous one: when nothing outside fails, emptying the queue by any number of
    concurrent workers completes exactly the jobs createSync accepts and fails exactly those it rejects. */
module Faultless {
  import opened Domain
  import opened Ledger
  import opened Protocol
  import opened Invariant
  import opened Guarantees
  import opened Decisions
  import opened Uncontended
  import opened Unconditional
  import Finality
  import Locking

  /** Every goroutine has returned and no message waits. */
  predicate Quiescent(s: State) {
    s.threads == map[] && s.broker.ready == {}
  }

  // ---------------------------------------------------------------- the invariant

  predicate Undecided(th: Thread) {
    th.Syncing? || th.Saving? || th.Publishing? || th.Checking? || th.Settling?
  }

  /** What a goroutine knows about the decisions so far; `ids` are those of the decided jobs. */
  predicate ThreadTold(rows: map<TxId, Row>, b: Broker, t: ThreadId, th: Thread, ids: set<TxId>, rejected: seq<Job>) {
    && !th.MarkingUnpublished?
    && (Undecided(th) ==> th.job.id !in ids)
    && (th.MarkingFailed? ==> th.job in rejected)
    && (th.Nacking? ==> RowIs(rows, th.job, Failed))
    && (th.Consuming() ==> t in b.unacked && b.unacked[t] == th.job)
  }

  predicate ThreadsTold(s: State, ids: set<TxId>, rejected: seq<Job>) {
    forall t <- s.threads :: ThreadTold(s.rows, s.broker, t, s.threads[t], ids, rejected)
  }

  predicate MessagesTold(s: State, ids: set<TxId>) {
    (forall m <- s.broker.ready :: m.id !in ids) && (forall m <- s.broker.dlq :: RowIs(s.rows, m, Failed))
  }

  predicate FailedTold(c: Config, rows: map<TxId, Row>, rejected: seq<Job>) {
    forall id <- rows :: id !in c.seed && rows[id].status == Failed ==> id in JobIds(rejected)
  }

  /** A rejected job that has a row is failed, or a worker is about to mark it. */
  ghost predicate RejectedTold(s: State, j: Job) {
    j.id in s.rows ==>
      && s.rows[j.id].req == j.req
      && (s.rows[j.id].status == Failed || exists t :: t in s.threads && s.threads[t] == MarkingFailed(j))
  }

  ghost predicate Told(c: Config, s: State, ids: set<TxId>, rejected: seq<Job>) {
    && ThreadsTold(s, ids, rejected)
    && MessagesTold(s, ids)
    && FailedTold(c, s.rows, rejected)
    && (forall j <- rejected :: RejectedTold(s, j) && j.id in ids)
    && (forall id <- ids :: id <= Top(s))
    && s.orphans == {}
  }

  // ---------------------------------------------------------------- every step keeps it

  /** A step of goroutine `t` on job `j`, which perhaps decides it. */
  ghost predicate Moves(s: State, s': State, t: ThreadId, j: Job) {
    && SameBut(s.threads, s'.threads, t) && SameBut(s.broker.unacked, s'.broker.unacked, t) && SameBut(s.rows, s'.rows, j.id)
    && (forall m <- s'.broker.ready :: m in s.broker.ready || m == j)
    && (forall m <- s'.broker.dlq :: m in s.broker.dlq || m == j)
    && (t in s.threads ==> s.threads[t].job == j)
    && Top(s) <= Top(s') && s'.orphans == s.orphans
  }

  lemma ToldMoves(c: Config, s: State, s': State, t: ThreadId, j: Job, ids: set<TxId>, ids': set<TxId>,
                  rejected: seq<Job>, rejected': seq<Job>)
    requires Told(c, s, ids, rejected) && Moves(s, s', t, j)
    requires ids <= ids' <= ids + {j.id} && j.id <= Top(s')
    requires rejected' == rejected || (rejected' == rejected + [j] && j.id in ids')
    requires forall u <- s.threads :: u != t ==> s.threads[u].job.id != j.id
    requires j.id in ids' ==> forall m <- s'.broker.ready :: m.id != j.id
    requires forall m <- s.broker.dlq :: m.id != j.id || s'.rows == s.rows
    requires j in s'.broker.dlq ==> RowIs(s'.rows, j, Failed)
    requires s'.rows == s.rows || (j.id in s'.rows && s'.rows[j.id].status == Failed ==> j.id in JobIds(rejected'))
    requires t in s'.threads ==> ThreadTold(s'.rows, s'.broker, t, s'.threads[t], ids', rejected')
    requires forall k <- rejected' :: k.id == j.id ==> RejectedTold(s', k)
    ensures Told(c, s', ids', rejected')
  {
    hide FailedTold;
    forall u | u in s'.threads ensures ThreadTold(s'.rows, s'.broker, u, s'.threads[u], ids', rejected') {
      if u != t { assert ThreadTold(s.rows, s.broker, u, s.threads[u], ids, rejected) && s'.threads[u] == s.threads[u]; }
    }
    forall k | k in rejected' ensures RejectedTold(s', k) && k.id in ids' {
      if k.id != j.id {
        assert RejectedTold(s, k);
        if k.id in s'.rows && s'.rows[k.id].status != Failed {
          var u :| u in s.threads && s.threads[u] == MarkingFailed(k);
          assert s'.threads[u] == MarkingFailed(k);
        }
      }
    }
    FailedMoves(c, s.rows, s'.rows, j, rejected, rejected');
  }

  lemma FailedMoves(c: Config, rows: map<TxId, Row>, rows': map<TxId, Row>, j: Job, rejected: seq<Job>, rejected': seq<Job>)
    requires FailedTold(c, rows, rejected) && SameBut(rows, rows', j.id)
    requires rejected' == rejected || rejected' == rejected + [j]
    requires rows' == rows || (j.id in rows' && rows'[j.id].status == Failed ==> j.id in JobIds(rejected'))
    ensures FailedTold(c, rows', rejected')
  {
    JobIdsAppend(rejected, j);
  }

  /** What holds of the goroutine that moves, whatever it does. */
  lemma ToldFacts(c: Config, s: State, t: ThreadId, ids: set<TxId>, rejected: seq<Job>)
    requires Inv(c, s) && Told(c, s, ids, rejected) && t in s.threads
    ensures ThreadTold(s.rows, s.broker, t, s.threads[t], ids, rejected)
    ensures forall u <- s.threads :: u != t ==> s.threads[u].job.id != s.threads[t].job.id
    ensures forall m <- s.broker.dlq :: m.id != s.threads[t].job.id
    ensures s.threads[t].job.id <= Top(s)
    ensures forall m <- s.broker.ready :: m.id != s.threads[t].job.id
    ensures s.threads[t].Consuming() ==>
              s.threads[t].job.id in s.rows && s.rows[s.threads[t].job.id].req == s.threads[t].job.req
    ensures s.threads[t].DelBalances? || s.threads[t].DelStatus? || s.threads[t].Acking? || s.threads[t].SyncDel? ==>
              RowIs(s.rows, s.threads[t].job, Completed)
  {
    Facts(c, s, t);
    hide Journal, Deliveries, Transactions, Accounted, Database, Rows, FailedTold, RejectedTold;
    var j := s.threads[t].job;
    if s.threads[t].Consuming() {
      InProcess(c, s.rows, s.broker, t, j);
      assert j in s.broker.unacked.Values;
    }
  }

  lemma SubmitTold(c: Config, s: State, a: Action, ids: set<TxId>, rejected: seq<Job>)
    requires c.Reliable() && c.Valid() && Inv(c, s) && Told(c, s, ids, rejected) && Enabled(c, s, a) && a.Submit?
    ensures Told(c, Apply(c, s, a), ids, rejected)
  {
    hide Inv, Told, ThreadsTold, MessagesTold, FailedTold, RejectedTold;
    var s' := Apply(c, s, a);
    var j := s'.threads[a.t].job;
    NewIdentifier(c, s, j.id);
    NewNotDecided(c, s, j.id, ids, rejected);
    ToldMoves(c, s, s', a.t, j, ids, ids, rejected, rejected);
  }

  lemma NewNotDecided(c: Config, s: State, id: TxId, ids: set<TxId>, rejected: seq<Job>)
    requires Inv(c, s) && Told(c, s, ids, rejected) && Unpublished(s.broker, id) && id > Top(s)
    ensures id !in ids && forall m <- s.broker.ready + s.broker.dlq :: m.id != id
    ensures forall k <- rejected :: k.id != id
  {
    hide Messages, Rows, Journal, Threads, Deliveries, Database, Transactions, Accounted, ThreadsTold, MessagesTold, FailedTold,
         RejectedTold;
  }

  lemma DeliverTold(c: Config, s: State, a: Action, ids: set<TxId>, rejected: seq<Job>)
    requires c.Reliable() && c.Valid() && Inv(c, s) && Told(c, s, ids, rejected) && Enabled(c, s, a) && a.Deliver?
    ensures Told(c, Apply(c, s, a), ids, rejected)
  {
    hide Inv, ThreadsTold, FailedTold, RejectedTold;
    ReadyMessage(c, s, a.m);
    DeadIsNotReady(c, s, a.m);
    ToldMoves(c, s, Apply(c, s, a), a.t, a.m, ids, ids, rejected, rejected);
  }

  lemma DeadIsNotReady(c: Config, s: State, m: Job)
    requires Inv(c, s) && m in s.broker.ready
    ensures forall k <- s.broker.dlq :: k.id != m.id
  {
    hide Rows, Journal, Threads, Deliveries, Database, Transactions, Accounted;
    InProcess(c, s.rows, s.broker, 0, m);
  }

  /** Before its decision a goroutine saves and publishes. */
  lemma CreatingTold(c: Config, s: State, a: Action, ids: set<TxId>, rejected: seq<Job>)
    requires c.Reliable() && c.Valid() && Inv(c, s) && Told(c, s, ids, rejected) && Enabled(c, s, a)
    requires a.SaveRow? || a.PublishOk?
    ensures Told(c, Apply(c, s, a), ids, rejected)
  {
    hide Inv, ThreadsTold, MessagesTold, FailedTold, RejectedTold, Locking.Begin, JobIds;
    ToldFacts(c, s, a.t, ids, rejected);
    NotInIds(c, s, s.threads[a.t].job.id, ids, rejected);
    ToldMoves(c, s, Apply(c, s, a), a.t, s.threads[a.t].job, ids, ids, rejected, rejected);
  }

  /** Before its decision a goroutine reads and runs statements. */
  lemma UndecidedTold(c: Config, s: State, a: Action, ids: set<TxId>, rejected: seq<Job>)
    requires c.Reliable() && c.Valid() && Inv(c, s) && Told(c, s, ids, rejected) && Enabled(c, s, a)
    requires (a.ReadStatus? || a.Statement?) && Decision(c, s, a).None?
    ensures Told(c, Apply(c, s, a), ids, rejected)
  {
    hide Inv, ThreadsTold, MessagesTold, FailedTold, RejectedTold, Locking.Begin, JobIds, StatusOf;
    ToldFacts(c, s, a.t, ids, rejected);
    NotInIds(c, s, s.threads[a.t].job.id, ids, rejected);
    ToldMoves(c, s, Apply(c, s, a), a.t, s.threads[a.t].job, ids, ids, rejected, rejected);
  }

  lemma NotInIds(c: Config, s: State, id: TxId, ids: set<TxId>, rejected: seq<Job>)
    requires Told(c, s, ids, rejected) && id !in ids
    ensures forall k <- rejected :: k.id != id
  {
  }

  /** After a commit a goroutine deletes cache keys and acknowledges. */
  lemma AcceptedTold(c: Config, s: State, a: Action, ids: set<TxId>, rejected: seq<Job>)
    requires c.Reliable() && c.Valid() && Inv(c, s) && Told(c, s, ids, rejected) && Enabled(c, s, a)
    requires a.Invalidate? || a.Ack?
    ensures Told(c, Apply(c, s, a), ids, rejected)
  {
    hide Inv, ThreadsTold, MessagesTold, FailedTold;
    ToldFacts(c, s, a.t, ids, rejected);
    assert forall k <- rejected :: RejectedTold(s, k);
    ToldMoves(c, s, Apply(c, s, a), a.t, s.threads[a.t].job, ids, ids, rejected, rejected);
  }

  /** After a rejection it marks the row failed, and rejects the message. */
  lemma RefusedTold(c: Config, s: State, a: Action, ids: set<TxId>, rejected: seq<Job>)
    requires c.Reliable() && c.Valid() && Inv(c, s) && Told(c, s, ids, rejected) && Enabled(c, s, a) && Works(a)
    requires a.MarkFailed? || a.Nack? || a.MarkUnpublished?
    ensures Told(c, Apply(c, s, a), ids, rejected)
  {
    hide Inv, ThreadsTold, MessagesTold, FailedTold;
    ToldFacts(c, s, a.t, ids, rejected);
    assert forall k <- rejected :: RejectedTold(s, k) && k.id in ids;
    InJobIds(rejected, s.threads[a.t].job);
    ToldMoves(c, s, Apply(c, s, a), a.t, s.threads[a.t].job, ids, ids, rejected, rejected);
  }

  lemma InJobIds(jobs: seq<Job>, j: Job)
    ensures j in jobs ==> j.id in JobIds(jobs)
  {
  }

  lemma CommitTold(c: Config, s: State, a: Action, ids: set<TxId>, rejected: seq<Job>)
    requires c.Reliable() && c.Valid() && Inv(c, s) && Told(c, s, ids, rejected) && Enabled(c, s, a) && a.Commit?
    ensures s.threads[a.t].job.id !in ids
    ensures Told(c, Apply(c, s, a), ids + {s.threads[a.t].job.id}, rejected)
  {
    hide Inv, ThreadsTold, MessagesTold, FailedTold, RejectedTold, Locking.CommitTx;
    var j := s.threads[a.t].job;
    ToldFacts(c, s, a.t, ids, rejected);
    AtCommit(c, s, a.t);
    NotInIds(c, s, j.id, ids, rejected);
    ToldMoves(c, s, Apply(c, s, a), a.t, j, ids, ids + {j.id}, rejected, rejected);
  }

  lemma RejectTold(c: Config, s: State, a: Action, ids: set<TxId>, rejected: seq<Job>)
    requires c.Reliable() && c.Valid() && Inv(c, s) && Told(c, s, ids, rejected) && Enabled(c, s, a)
    requires a.Statement? && Decision(c, s, a).Some?
    ensures s.threads[a.t].job.id !in ids
    ensures Told(c, Apply(c, s, a), ids + {s.threads[a.t].job.id}, rejected + [s.threads[a.t].job])
  {
    hide Inv, ThreadsTold, MessagesTold, FailedTold, Locking.Execute, Locking.Enabled;
    var j, s' := s.threads[a.t].job, Apply(c, s, a);
    ToldFacts(c, s, a.t, ids, rejected);
    Facts(c, s, a.t);
    NotInIds(c, s, j.id, ids, rejected);
    assert s'.threads == (if s.threads[a.t].Settling? then s.threads[a.t := MarkingFailed(j)] else s.threads - {a.t});
    ToldMoves(c, s, s', a.t, j, ids, ids + {j.id}, rejected, rejected + [j]);
  }

  lemma StepTold(c: Config, s: State, a: Action, ids: set<TxId>, rejected: seq<Job>)
    requires c.Reliable() && c.Valid() && Fit(c, s) && Inv(c, s) && Told(c, s, ids, rejected) && Enabled(c, s, a) && Works(a)
    ensures Decision(c, s, a).None? ==> Told(c, Apply(c, s, a), ids, rejected)
    ensures Decision(c, s, a).Some? ==>
              var j := Decision(c, s, a).value;
              j.id !in ids && Told(c, Apply(c, s, a), ids + {j.id}, if a.Commit? then rejected else rejected + [j])
  {
    hide Fit, Inv, Told, Apply, Enabled, Decision;
    DecisionStep(c, s, a);
    match a
    case Submit(_, _, _, _) => SubmitTold(c, s, a, ids, rejected);
    case Deliver(_, _) => DeliverTold(c, s, a, ids, rejected);
    case Invalidate(_) => AcceptedTold(c, s, a, ids, rejected);
    case Ack(_) => AcceptedTold(c, s, a, ids, rejected);
    case MarkFailed(_, _) => RefusedTold(c, s, a, ids, rejected);
    case Nack(_) => RefusedTold(c, s, a, ids, rejected);
    case MarkUnpublished(_, _) => RefusedTold(c, s, a, ids, rejected);
    case Commit(_) => CommitTold(c, s, a, ids, rejected);
    case Restart => RestartTold(c, s, ids, rejected);
    case Statement(_) =>
      if Decision(c, s, a).Some? { RejectTold(c, s, a, ids, rejected); } else { UndecidedTold(c, s, a, ids, rejected); }
    case ReadStatus(_, _) => UndecidedTold(c, s, a, ids, rejected);
    case _ => CreatingTold(c, s, a, ids, rejected);
  }

  lemma RestartTold(c: Config, s: State, ids: set<TxId>, rejected: seq<Job>)
    requires Told(c, s, ids, rejected) && Enabled(c, s, Restart)
    ensures Told(c, Apply(c, s, Restart), ids, rejected)
  {
    var s' := Apply(c, s, Restart);
    assert forall k <- rejected :: RejectedTold(s, k) ==> RejectedTold(s', k);
  }

  // ---------------------------------------------------------------- whole runs

  lemma {:induction false} RunTold(c: Config, acts: seq<Action>)
    requires c.Reliable() && c.Valid() && Run(c, acts).Some? && AllWork(acts)
    ensures var jobs := Decided(c, acts);
            DistinctIds(jobs) && Told(c, Run(c, acts).value, JobIds(jobs), Chosen(c.open, jobs, false))
  {
    hide Fit, Inv, Told, Apply, Enabled, Decision, Chosen, RunSync, Accepts, Post;
    if acts == [] {
      SyncNothing(c.open);
      InitTold(c);
    } else {
      var init, a := acts[..|acts| - 1], acts[|acts| - 1];
      assert a in acts;
      forall b | b in init ensures b in acts {}
      RunTold(c, init);
      RunInv(c, init);
      RunFit(c, init);
      TrafficIsSync(c, init);
      var s, jobs := Run(c, init).value, Decided(c, init);
      DecisionStep(c, s, a);
      StepTold(c, s, a, JobIds(jobs), Chosen(c.open, jobs, false));
      var decision := Decision(c, s, a);
      if decision.Some? {
        assert Decided(c, acts) == jobs + [decision.value];
        JobIdsAppend(jobs, decision.value);
        RunSyncAppend(c.open, jobs, decision.value);
        DistinctAppend(jobs, decision.value);
        assert a.Commit? ==> Chosen(c.open, jobs + [decision.value], false) == Chosen(c.open, jobs, false);
      } else {
        assert Decided(c, acts) == jobs;
      }
    }
  }

  lemma InitTold(c: Config)
    requires c.Valid()
    ensures Told(c, Init(c), JobIds([]), [])
  {
    assert JobIds([]) == {};
  }

  lemma DistinctAppend(jobs: seq<Job>, j: Job)
    requires DistinctIds(jobs) && j.id !in JobIds(jobs)
    ensures DistinctIds(jobs + [j])
  {
    forall i | 0 <= i < |jobs| ensures jobs[i].id != j.id { assert jobs[i] in jobs; }
  }

  /** A message and a decided job with its identifier are the same job. */
  lemma SameJob(c: Config, s: State, jobs: seq<Job>, m: Job)
    requires Inv(c, s) && m in s.broker.published && m.id in JobIds(jobs)
    requires forall j <- jobs :: j.id in s.rows ==> s.rows[j.id].req == j.req
    ensures m in jobs
  {
    hide Rows, Journal, Threads, Deliveries, Database, Transactions, Accounted, Partition;
    var j :| j in jobs && j.id == m.id;
    assert j == m;
  }

  /** The rows of a quiescent state tell the decisions, and none is pending. */
  lemma QuiescentRows(c: Config, s: State, ids: set<TxId>, rejected: seq<Job>, id: TxId)
    requires c.Valid() && Inv(c, s) && Told(c, s, ids, rejected) && Quiescent(s) && id in s.rows && id !in c.seed
    ensures s.rows[id].status == Failed <==> id in JobIds(rejected)
    ensures s.rows[id].status != Pending
  {
    if id in JobIds(rejected) {
      var j :| j in rejected && j.id == id;
      assert RejectedTold(s, j);
    }
    if s.rows[id].status == Pending {
      PendingHasMessage(c, s, id);
      var m :| m in s.broker.published && m.id == id;
      Undelivered(c, s, m);
    }
  }

  lemma PendingHasMessage(c: Config, s: State, id: TxId)
    requires Inv(c, s) && s.threads == map[] && s.orphans == {} && id in s.rows && id !in c.seed && s.rows[id].status == Pending
    ensures exists m :: m in s.broker.published && m.id == id
  {
    hide Partition, Messages, Rows, Journal, Threads, Deliveries, Database, Transactions;
    assert id in Owners(s) && CreatorIds(s.threads) == {};
  }

  /** Every message has had its verdict. */
  lemma Undelivered(c: Config, s: State, m: Job)
    requires Inv(c, s) && Quiescent(s) && m in s.broker.published
    ensures m in s.broker.acked + s.broker.dlq
    ensures m.id in s.rows && s.rows[m.id].req == m.req && m.id !in c.seed
    ensures m in s.broker.acked <==> s.rows[m.id].status == Completed
  {
    hide Rows, Journal, Threads, Database, Transactions, Accounted;
    assert forall t <- s.broker.unacked :: t in s.threads;
    assert s.broker.unacked.Values == {};
  }

  /** The asynchronous path refines the synchronous one. Once concurrent API calls and workers have drained the queue, in
      whatever interleaving, there is an order of the jobs, each decided once, such that the balances are those of
      createSync in that order; the completed rows and acknowledged messages are those of the jobs it accepts, the
      failed rows and dead-lettered messages those of the jobs it rejects, and nothing is left pending. */
  lemma AsyncRefinesSync(c: Config, acts: seq<Action>)
    requires c.Reliable() && c.Valid() && Run(c, acts).Some? && AllWork(acts) && Quiescent(Run(c, acts).value)
    ensures var s, jobs := Run(c, acts).value, Decided(c, acts);
            DistinctIds(jobs) && s.db.bal == RunSync(c.open, jobs)
    ensures var s, jobs := Run(c, acts).value, Decided(c, acts);
            forall id <- s.rows :: id !in c.seed ==>
              && (s.rows[id].status == Completed <==> id in JobIds(Chosen(c.open, jobs, true)))
              && (s.rows[id].status == Failed <==> id in JobIds(Chosen(c.open, jobs, false)))
              && s.rows[id].status != Pending
    ensures var s, jobs := Run(c, acts).value, Decided(c, acts);
            forall m <- s.broker.published ::
              && (m in s.broker.acked <==> m in Chosen(c.open, jobs, true))
              && (m in s.broker.dlq <==> m in Chosen(c.open, jobs, false))
              && m in s.broker.acked + s.broker.dlq
  {
    hide Run, Inv, Told, Chosen, RunSync, Quiescent, Decided;
    var s, jobs := Run(c, acts).value, Decided(c, acts);
    RunInv(c, acts);
    RunTold(c, acts);
    TrafficIsSync(c, acts);
    CompletedIsJournal(c, s);
    forall id | id in s.rows && id !in c.seed
      ensures s.rows[id].status == Failed <==> id in JobIds(Chosen(c.open, jobs, false))
      ensures s.rows[id].status != Pending
    {
      QuiescentRows(c, s, JobIds(jobs), Chosen(c.open, jobs, false), id);
    }
    forall m | m in s.broker.published
      ensures m in s.broker.acked <==> m in Chosen(c.open, jobs, true)
      ensures m in s.broker.dlq <==> m in Chosen(c.open, jobs, false)
      ensures m in s.broker.acked + s.broker.dlq
    {
      QuiescentMessage(c, s, JobIds(jobs), Chosen(c.open, jobs, false), m);
    }
  }

  lemma QuiescentMessage(c: Config, s: State, ids: set<TxId>, rejected: seq<Job>, m: Job)
    requires c.Valid() && Inv(c, s) && Told(c, s, ids, rejected) && Quiescent(s) && m in s.broker.published
    ensures m in s.broker.acked <==> m in s.db.journal
    ensures m in s.broker.dlq <==> m in rejected
    ensures m in s.broker.acked + s.broker.dlq
  {
    hide Told, Quiescent, Partition, Messages, Rows, Threads, Deliveries, Database, Transactions, Accounted;
    Undelivered(c, s, m);
    QuiescentRows(c, s, ids, rejected, m.id);
    CompletedIsJournal(c, s);
    ToldJobs(c, s, ids, rejected);
    AckedNotDead(c, s, m);
    InJobIds(rejected, m);
    InJobIds(s.db.journal, m);
    if m.id in JobIds(rejected) { SameJob(c, s, rejected, m); }
    if m.id in JobIds(s.db.journal) { SameJob(c, s, s.db.journal, m); }
  }

  lemma ToldJobs(c: Config, s: State, ids: set<TxId>, rejected: seq<Job>)
    requires Told(c, s, ids, rejected)
    ensures forall j <- rejected :: j.id in s.rows ==> s.rows[j.id].req == j.req
  {
    assert forall j <- rejected :: RejectedTold(s, j);
  }

  lemma AckedNotDead(c: Config, s: State, m: Job)
    requires Inv(c, s)
    ensures !(m in s.broker.acked && m in s.broker.dlq)
  {
  }

  // ---------------------------------------------------------------- the queue can be drained

  /** One delivery that nothing disturbs, whatever its idempotency read shows: only "completed" skips it. A read that
      fails, or shows an earlier status, goes on to settle: paid, completed and acknowledged if the source can
      pay, failed and dead-lettered if not. */
  lemma OneDelivery(c: Config, acts: seq<Action>, s: State, j: Job, seen: Option<Status>) returns (longer: seq<Action>, s': State)
    requires Run(c, acts) == Some(s) && Quiet(s) && s.broker.unacked == map[] && j in s.broker.ready
    requires j.id in s.rows && j.req.dst in s.db.bal
    requires (c.freshRead ==> seen == StatusOf(s, j.id)) && (seen == Some(Completed) ==> j.id in JobIds(s.db.journal))
    ensures Run(c, longer) == Some(s') && acts <= longer && (AllWork(acts) ==> AllWork(longer))
    ensures Quiet(s') && s'.broker.unacked == map[] && s'.broker.ready == s.broker.ready - {j}
    ensures s'.broker.published == s.broker.published
    ensures seen == Some(Completed) ==>
              && s'.db.bal == s.db.bal && s'.db.journal == s.db.journal && s'.rows == s.rows
              && s'.broker.acked == s.broker.acked + {j} && s'.broker.dlq == s.broker.dlq
    ensures seen != Some(Completed) && Covered(s.db.bal, j.req) ==>
              && s'.db.bal == Post(s.db.bal, j.req) && s'.db.journal == s.db.journal + [j]
              && s'.rows == s.rows[j.id := Row(s.rows[j.id].req, Completed)]
              && s'.broker.acked == s.broker.acked + {j} && s'.broker.dlq == s.broker.dlq
    ensures seen != Some(Completed) && !Covered(s.db.bal, j.req) ==>
              && s'.db.bal == s.db.bal && s'.db.journal == s.db.journal
              && s'.rows == s.rows[j.id := Row(s.rows[j.id].req, Failed)]
              && s'.broker.acked == s.broker.acked && s'.broker.dlq == s.broker.dlq + {j}
  {
    hide Run, AllWork, Works, Post, JobIds;
    longer := Extend(c, acts, s, Deliver(0, j));
    var s1 := Apply(c, s, Deliver(0, j));
    WorksAlways(0, j, seen);
    longer := Extend(c, longer, s1, ReadStatus(0, seen));
    s' := Apply(c, s1, ReadStatus(0, seen));
    if seen == Some(Completed) {
      longer, s' := Acknowledge(c, longer, s', 0);
    } else if Covered(s.db.bal, j.req) {
      longer, s' := PayAndAcknowledge(c, longer, s', 0);
    } else {
      longer, s' := RefuseAndReject(c, longer, s', 0);
    }
  }

  lemma WorksAlways(t: ThreadId, j: Job, seen: Option<Status>)
    ensures Works(Deliver(t, j)) && Works(ReadStatus(t, seen)) && Works(Statement(t)) && Works(Invalidate(t)) && Works(Ack(t))
    ensures Works(MarkFailed(t, true)) && Works(Nack(t))
  {
  }

  /** Goroutine `t` alone is at work, on the only unacknowledged delivery. */
  predicate Alone(s: State, t: ThreadId, th: Thread) {
    s.threads == map[t := th] && s.broker.unacked == map[t := th.job]
  }

  lemma Acknowledge(c: Config, acts: seq<Action>, s: State, t: ThreadId) returns (longer: seq<Action>, s': State)
    requires Run(c, acts) == Some(s) && t in s.threads && s.threads[t].Acking? && Alone(s, t, s.threads[t])
    requires s.db.txs == map[] && s.db.locks == map[] && s.db.rule == CENTS
    ensures Run(c, longer) == Some(s') && acts <= longer && (AllWork(acts) ==> AllWork(longer))
    ensures s' == s.(threads := map[], broker := s.broker.(unacked := map[], acked := s.broker.acked + {s.threads[t].job}))
  {
    hide Run, AllWork;
    longer := Extend(c, acts, s, Ack(t));
    s' := Apply(c, s, Ack(t));
    assert s.threads - {t} == map[] && s.broker.unacked - {t} == map[];
  }

  lemma PayAndAcknowledge(c: Config, acts: seq<Action>, s: State, t: ThreadId) returns (longer: seq<Action>, s': State)
    requires Run(c, acts) == Some(s) && Clear(s, t) && s.threads[t].Settling? && Alone(s, t, s.threads[t])
    requires s.db.txs.Keys == {t} && s.threads[t].job.id in s.rows
    ensures Run(c, longer) == Some(s') && acts <= longer && (AllWork(acts) ==> AllWork(longer))
    ensures var j := s.threads[t].job;
            && Quiet(s') && s'.db.bal == Post(s.db.bal, j.req) && s'.db.journal == s.db.journal + [j]
            && s'.rows == s.rows[j.id := Row(s.rows[j.id].req, Completed)]
            && s'.broker == s.broker.(unacked := map[], acked := s.broker.acked + {j})
  {
    hide Run, AllWork;
    longer := GoesThrough(c, acts, s, t);
    var s1 := AfterCommit(Atomically(s, t), t);
    longer := Extend(c, longer, s1, Invalidate(t));
    var s2 := Goto(s1, t, DelStatus(s.threads[t].job));
    longer := Extend(c, longer, s2, Invalidate(t));
    var s3 := Goto(s2, t, Acking(s.threads[t].job));
    assert s.db.txs - {t} == map[];
    longer, s' := Acknowledge(c, longer, s3, t);
  }

  lemma RefuseAndReject(c: Config, acts: seq<Action>, s: State, t: ThreadId) returns (longer: seq<Action>, s': State)
    requires Run(c, acts) == Some(s) && t in s.threads && s.threads[t].Settling? && Alone(s, t, s.threads[t])
    requires s.db.locks == map[] && s.db.rule == CENTS && s.threads[t].job.id in s.rows
    requires s.db.txs == map[t := Locking.Tx(s.threads[t].job, false, Locking.Select, map[])]
    requires !Covered(s.db.bal, s.threads[t].job.req)
    ensures Run(c, longer) == Some(s') && acts <= longer && (AllWork(acts) ==> AllWork(longer))
    ensures var j := s.threads[t].job;
            && Quiet(s') && s'.db.bal == s.db.bal && s'.db.journal == s.db.journal
            && s'.rows == s.rows[j.id := Row(s.rows[j.id].req, Failed)]
            && s'.broker == s.broker.(unacked := map[], dlq := s.broker.dlq + {j})
  {
    hide Run, AllWork;
    var j := s.threads[t].job;
    CentsPost(s.db.bal, j);
    longer := Extend(c, acts, s, Statement(t));
    var s1 := s.(db := Locking.Rollback(s.db, t), threads := map[t := MarkingFailed(j)]);
    assert s.threads[t := MarkingFailed(j)] == s1.threads && s.db.txs - {t} == map[];
    longer, s' := Reject(c, longer, s1, t);
  }

  lemma Reject(c: Config, acts: seq<Action>, s: State, t: ThreadId) returns (longer: seq<Action>, s': State)
    requires Run(c, acts) == Some(s) && t in s.threads && s.threads[t].MarkingFailed? && Alone(s, t, s.threads[t])
    requires s.db.txs == map[] && s.db.locks == map[] && s.db.rule == CENTS && s.threads[t].job.id in s.rows
    ensures Run(c, longer) == Some(s') && acts <= longer && (AllWork(acts) ==> AllWork(longer))
    ensures var j := s.threads[t].job;
            s' == s.(threads := map[], rows := s.rows[j.id := Row(s.rows[j.id].req, Failed)],
                     broker := s.broker.(unacked := map[], dlq := s.broker.dlq + {j}))
  {
    hide Run, AllWork;
    longer := Extend(c, acts, s, MarkFailed(t, true));
    var s1 := Apply(c, s, MarkFailed(t, true));
    longer := Extend(c, longer, s1, Nack(t));
    s' := Apply(c, s1, Nack(t));
    assert s1.threads - {t} == map[] && s.broker.unacked - {t} == map[];
  }

  /** So AsyncRefinesSync is about every queue: from any state in which nobody is at work, the messages left can be worked
      off without anything failing. */
  lemma {:induction false} CanDrain(c: Config, acts: seq<Action>) returns (longer: seq<Action>)
    requires c.Reliable() && c.Valid() && Run(c, acts).Some? && AllWork(acts) && Run(c, acts).value.threads == map[]
    ensures Run(c, longer).Some? && acts <= longer && AllWork(longer) && Quiescent(Run(c, longer).value)
    decreases |Run(c, acts).value.broker.ready|
  {
    hide Run, Inv, AllWork, Quiet;
    longer := acts;
    var s := Run(c, acts).value;
    RunInv(c, acts);
    Finality.NobodyLeft(c, s);
    if s.broker.ready != {} {
      var j :| j in s.broker.ready;
      WaitingMessage(c, s, j);
      var s1: State;
      longer, s1 := OneDelivery(c, acts, s, j, StatusOf(s, j.id));
      assert s1.threads == map[] by { QuietMeans(s1); }
      longer := CanDrain(c, longer);
    }
  }

  lemma QuietMeans(s: State)
    requires Quiet(s)
    ensures s.threads == map[]
  {
  }

  lemma WaitingMessage(c: Config, s: State, j: Job)
    requires Inv(c, s) && j in s.broker.ready
    ensures j.id in s.rows && j.req.dst in s.db.bal
    ensures s.rows[j.id].status == Completed ==> j.id in JobIds(s.db.journal)
  {
    hide Journal, Threads, Deliveries, Transactions, Accounted;
    OpenAccounts(c, s.db);
    assert j in s.broker.published;
  }
}
