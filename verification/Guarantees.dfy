/** What the protocol guarantees in every reachable state and over whole runs: first in any environment, then under A1-A5. */
module Guarantees {
  import opened Domain
  import opened Ledger
  import opened Protocol
  import opened Invariant
  import opened Unconditional
  import IdGenerator
  import Locking

  /** The runtime rows marked completed. */
  function CompletedRows(c: Config, s: State): set<TxId> {
    set id | id in s.rows && id !in c.seed && s.rows[id].status == Completed
  }

  /** How often a transfer committed its debit and credit. */
  function Commits(journal: seq<Job>, id: TxId): nat {
    if journal == [] then 0
    else Commits(journal[..|journal| - 1], id) + (if journal[|journal| - 1].id == id then 1 else 0)
  }

  lemma {:induction false} CommitsOnce(journal: seq<Job>, id: TxId)
    requires DistinctIds(journal)
    ensures Commits(journal, id) == if id in JobIds(journal) then 1 else 0
  {
    if journal != [] {
      var init, last := journal[..|journal| - 1], journal[|journal| - 1];
      CommitsOnce(init, id);
      JobIdsAppend(init, last);
      assert init + [last] == journal;
      forall k | 0 <= k < |init| ensures init[k].id != last.id {
        assert journal[k] == init[k];
      }
    }
  }

  lemma CompletedIsJournal(c: Config, s: State)
    requires Inv(c, s)
    ensures CompletedRows(c, s) == JobIds(s.db.journal)
  {
    hide Partition, Messages, Threads, Deliveries, Database, Transactions, Accounted;
    var done := JobIds(s.db.journal);
    assert forall j <- s.db.journal :: j.id in s.rows && j.id !in c.seed && j.id in done;
    assert forall id <- s.rows :: id !in c.seed ==> (s.rows[id].status == Completed <==> id in done);
  }

  // ---------------------------------------------------------------- in any environment

  lemma JournalSound(c: Config, s: State)
    requires Fit(c, s)
    ensures Sound(c.open, s.db.journal) && forall j <- s.db.journal :: Admits(j.req)
  {
    hide RowsFit, MessagesFit, ThreadsFit, Deliveries, Database, Transactions, Accounted;
    forall j | j in s.db.journal ensures Fits(c, j.req) {}
  }

  /** Whatever fails, the committed balances are those of running the committed jobs as atomic checked transfers in
      commit order. */
  lemma SerialAlways(c: Config, acts: seq<Action>)
    requires c.Valid() && Run(c, acts).Some?
    ensures var s := Run(c, acts).value; Replay(c.open, s.db.journal) == Some(s.db.bal) && Sound(c.open, s.db.journal)
  {
    RunFit(c, acts);
    JournalSound(c, Run(c, acts).value);
    hide RowsFit, JournalFits, MessagesFit, ThreadsFit, Deliveries, Transactions, Accounted;
  }

  /** No money is made or lost, and nobody is overdrawn, even where a transfer is paid twice. */
  lemma ConservedAndSolvent(c: Config, acts: seq<Action>)
    requires c.Valid() && Run(c, acts).Some?
    ensures var s := Run(c, acts).value;
            s.db.bal.Keys == c.open.Keys && Total(s.db.bal) == Total(c.open) && Solvent(s.db.bal)
  {
    hide Run, Total, Replay;
    var s := Run(c, acts).value;
    SerialAlways(c, acts);
    ReplayNet(c.open, s.db.journal);
    ReplayTotal(c.open, s.db.journal);
    ReplaySolvent(c.open, s.db.journal);
  }

  /** The money that transfers can move: an admitted request never names account 0. */
  ghost function Movable(b: Balances): int {
    Total(b - {0})
  }

  /** It is the same in every reachable state, and no committed transfer was larger. */
  lemma MovableIsConstant(c: Config, acts: seq<Action>)
    requires c.Valid() && Run(c, acts).Some?
    ensures var s := Run(c, acts).value;
            Movable(s.db.bal) == Movable(c.open) && forall j <- s.db.journal :: j.req.amount <= Movable(c.open)
  {
    hide Run, Fit, Movable, Replay;
    var s := Run(c, acts).value;
    RunFit(c, acts);
    JournalSound(c, s);
    SerialAlways(c, acts);
    MovableReplay(c.open, s.db.journal);
  }

  lemma {:induction false} MovableReplay(b: Balances, jobs: seq<Job>)
    requires Solvent(b) && Sound(b, jobs) && Replay(b, jobs).Some? && forall j <- jobs :: Admits(j.req)
    ensures Movable(Replay(b, jobs).value) == Movable(b) && forall j <- jobs :: j.req.amount <= Movable(b)
  {
    if jobs != [] {
      var init, last := jobs[..|jobs| - 1], jobs[|jobs| - 1];
      assert last in jobs && jobs == init + [last];
      forall j | j in init ensures j in jobs {}
      MovableReplay(b, init);
      ReplaySolvent(b, init);
      ReplayNet(b, init);
      var m := Replay(b, init).value;
      hide Movable, Replay, Sound;
      AtMostMovable(m, last.req.src);
      MovablePost(m, last.req);
    }
  }

  lemma MovablePost(b: Balances, req: Request)
    requires req.src in b && req.dst in b && Admits(req)
    ensures Movable(Post(b, req)) == Movable(b)
  {
    hide Total;
    PostTotal(b - {0}, req);
    assert Post(b, req) - {0} == Post(b - {0}, req);
  }

  lemma {:induction false} TotalNotNegative(b: Balances)
    requires Solvent(b)
    ensures Total(b) >= 0
    decreases |b|
  {
    if b.Keys != {} { TotalNotNegative(b - {Pick(b.Keys)}); }
  }

  /** A solvent account holds at most the movable money. */
  lemma AtMostMovable(b: Balances, a: AccountId)
    requires Solvent(b) && a in b && a != 0
    ensures b[a] <= Movable(b)
  {
    TotalWithout(b - {0}, a);
    TotalNotNegative(b - {0} - {a});
  }

  /** Every message, wherever it is, has its row, whose accounts exist and whose amount is positive. */
  lemma MessageHasRow(c: Config, acts: seq<Action>, m: Job)
    requires c.Valid() && Run(c, acts).Some?
    requires var b := Run(c, acts).value.broker; m in b.ready + b.unacked.Values + b.dlq
    ensures var s := Run(c, acts).value;
            && m.id in s.rows && s.rows[m.id].req == m.req
            && m.req.src in s.db.bal && m.req.dst in s.db.bal && m.req.amount > 0
  {
    RunFit(c, acts);
    hide ThreadsFit, Deliveries, Transactions, Accounted, JournalFits, Locking.Consistent;
    assert m in Run(c, acts).value.broker.published;
  }

  /** So each of the three UPDATEs of settle finds its row, although settle never looks for the destination. */
  lemma SettleUpdatesHit(c: Config, acts: seq<Action>, t: ThreadId)
    requires c.Valid() && Run(c, acts).Some?
    requires t in Run(c, acts).value.threads && Run(c, acts).value.threads[t].Settling?
    ensures var s := Run(c, acts).value;
            var j := s.threads[t].job;
            t in s.db.txs && s.db.txs[t].job == j && j.req.src in s.db.bal && j.req.dst in s.db.bal && j.id in s.rows
  {
    hide Run, Fit, Database, Partition, Deliveries;
    var s := Run(c, acts).value;
    RunFit(c, acts);
    Knows(c, s, t);
    Parts(c, s);
  }

  /** Delivery accounting: each published message is in exactly one place, and none is acknowledged unless its transfer
      has been committed. */
  lemma Delivery(c: Config, acts: seq<Action>)
    requires c.Valid() && Run(c, acts).Some?
    ensures var b := Run(c, acts).value.broker;
            && b.published == b.ready + b.unacked.Values + b.acked + b.dlq
            && |b.published| == |b.ready| + |b.unacked| + |b.acked| + |b.dlq|
    ensures var s := Run(c, acts).value; forall m <- s.broker.acked :: m.id in JobIds(s.db.journal)
  {
    RunFit(c, acts);
    hide ThreadsFit, Deliveries, Transactions, Accounted, JournalFits, RowsFit, Database;
    var b := Run(c, acts).value.broker;
    InjectiveSize(b.unacked);
    assert |b.ready + b.unacked.Values| == |b.ready| + |b.unacked|;
    assert |b.ready + b.unacked.Values + b.acked| == |b.ready| + |b.unacked| + |b.acked|;
  }

  lemma {:induction false} InjectiveSize(m: map<ThreadId, Job>)
    requires forall t, u :: t in m && u in m && t != u ==> m[t] != m[u]
    ensures |m.Values| == |m|
    decreases |m|
  {
    if m.Keys != {} {
      var t := Pick(m.Keys);
      var rest := m - {t};
      InjectiveSize(rest);
      assert m.Values == rest.Values + {m[t]} by {
        forall x | x in m.Values && x != m[t] ensures x in rest.Values {
          var u :| u in m && m[u] == x;
          assert rest[u] == x;
        }
      }
    }
  }

  lemma AckedIsNotPending(c: Config, s: State)
    requires Fit(c, s)
    ensures forall m <- s.broker.acked :: m.id in s.rows && s.rows[m.id].status != Pending
  {
    hide ThreadsFit, Deliveries, Transactions, RowsFit, Database, Accounted;
    forall m | m in s.broker.acked ensures m.id in s.rows && s.rows[m.id].status != Pending {
      var j :| j in s.db.journal && j.id == m.id;
    }
  }

  /** A pending runtime row has a creator inside createAsync, a message that is not acknowledged, or is a tracked orphan. */
  lemma PendingIsOwned(c: Config, s: State, id: TxId)
    requires Fit(c, s) && id in s.rows && id !in c.seed && s.rows[id].status == Pending
    ensures || (exists t :: t in s.threads && s.threads[t].Creating() && s.threads[t].job.id == id)
            || (exists m :: m in s.broker.ready + s.broker.unacked.Values + s.broker.dlq && m.id == id)
            || id in s.orphans
  {
    hide ThreadsFit, Deliveries, Transactions, RowsFit, Database, HasRow;
    if id in MessageIds(s.broker) {
      var m :| m in s.broker.published && m.id == id;
      AckedIsNotPending(c, s);
      assert m in s.broker.ready + s.broker.unacked.Values + s.broker.dlq;
    }
  }

  // ---------------------------------------------------------------- under A1-A5

  /** Serial refinement: the committed balances of any mixed run, with crashes, aborts and redelivery, are
      those of running the committed jobs as atomic checked transfers in commit order, each once. */
  lemma SerialInCommitOrder(c: Config, acts: seq<Action>)
    requires c.Reliable() && c.Valid() && Run(c, acts).Some?
    ensures var s := Run(c, acts).value;
            Replay(c.open, s.db.journal) == Some(s.db.bal) && DistinctIds(s.db.journal)
  {
    RunInv(c, acts);
    hide Partition, Messages, Rows, Threads, Deliveries, Transactions, Accounted;
  }

  /** Exactly once: every identifier commits at most once, and a runtime row is completed iff its transfer committed. */
  lemma ExactlyOnce(c: Config, acts: seq<Action>, id: TxId)
    requires c.Reliable() && c.Valid() && Run(c, acts).Some?
    ensures var s := Run(c, acts).value;
            && Commits(s.db.journal, id) <= 1
            && (Commits(s.db.journal, id) == 1 <==> id in s.rows && id !in c.seed && s.rows[id].status == Completed)
  {
    var s := Run(c, acts).value;
    RunInv(c, acts);
    CompletedIsJournal(c, s);
    hide Partition, Messages, Rows, Threads, Deliveries, Transactions, Accounted, Database;
    CommitsOnce(s.db.journal, id);
  }

  /** Reconciliation: a committed balance is the opening balance, less the completed outgoing rows, plus the incoming. */
  lemma Reconciles(c: Config, acts: seq<Action>, a: AccountId)
    requires c.Reliable() && c.Valid() && Run(c, acts).Some? && a in c.open
    ensures var s := Run(c, acts).value;
            && CompletedRows(c, s) <= s.rows.Keys && a in s.db.bal
            && s.db.bal[a] == c.open[a] + RowsNet(s.rows, CompletedRows(c, s), a)
  {
    var s := Run(c, acts).value;
    RunInv(c, acts);
    CompletedIsJournal(c, s);
    RunFit(c, acts);
    JournalSound(c, s);
    hide Fit, Partition, Messages, Rows, Threads, Deliveries, Transactions, Accounted, CompletedRows;
    ReplayNet(c.open, s.db.journal);
    JournalIsRows(s.db.journal, s.rows, a);
  }

  /** An acknowledged message's row is completed, a dead-lettered one's is not. */
  lemma VerdictsAreRight(c: Config, acts: seq<Action>)
    requires c.Reliable() && c.Valid() && Run(c, acts).Some?
    ensures var s := Run(c, acts).value;
            && (forall m <- s.broker.acked :: m.id in s.rows && s.rows[m.id].status == Completed)
            && (forall m <- s.broker.dlq :: m.id in s.rows && s.rows[m.id].status != Completed)
  {
    RunInv(c, acts);
    hide Threads, Deliveries, Transactions, Accounted, Journal, Rows, Database;
  }

  // ---------------------------------------------------------------- step and run guarantees

  /** A commit completes the row of its own job, which was not completed, and touches no other. */
  lemma CommitStep(c: Config, s: State, t: ThreadId, id: TxId)
    requires c.Reliable() && c.Valid() && Inv(c, s) && Enabled(c, s, Commit(t)) && id in s.rows
    ensures var j, rows' := s.threads[t].job, Apply(c, s, Commit(t)).rows;
            && id in rows'
            && (id != j.id ==> rows'[id] == s.rows[id])
            && (id == j.id ==> rows'[id] == Row(s.rows[id].req, Completed) && s.rows[id].status != Completed
                               && s.threads[t] == Settling(Job(id, s.rows[id].req)))
  {
    hide Partition, Messages, Rows, Journal, Threads, Deliveries, Database, Transactions, Accounted,
         Locking.Execute, Locking.CommitTx, Locking.Rollback, Locking.Begin, Locking.Enabled, Acknowledged, Rejected, Returned, Enqueued;
    AtCommit(c, s, t);
  }

  /** Any other step leaves a row as it is, or marks one that is not completed as failed. */
  lemma OtherStep(c: Config, s: State, a: Action, id: TxId)
    requires c.Reliable() && c.Valid() && Inv(c, s) && Enabled(c, s, a) && !a.Commit? && id in s.rows
    ensures var rows' := Apply(c, s, a).rows;
            && id in rows'
            && (rows'[id] == s.rows[id] || (rows'[id] == Row(s.rows[id].req, Failed) && s.rows[id].status != Completed))
  {
    hide Partition, Messages, Rows, Journal, Threads, Deliveries, Database, Transactions, Accounted, JobIds,
         Locking.Execute, Locking.CommitTx, Locking.Rollback, Locking.Begin, Locking.Enabled, Acknowledged, Rejected, Returned, Enqueued;
    if a.SaveRow? || a.SaveFails? || a.MarkUnpublished? || a.MarkFailed? {
      Facts(c, s, a.t);
    } else {
      RowsStay(c, s, a);
    }
  }

  lemma RowsStay(c: Config, s: State, a: Action)
    requires c.honestCommit && Enabled(c, s, a)
    requires !a.Commit? && !a.SaveRow? && !a.SaveFails? && !a.MarkUnpublished? && !a.MarkFailed?
    ensures Apply(c, s, a).rows == s.rows
  {
    hide JobIds, StatusOf, Admits, Recorded,
         Locking.Execute, Locking.CommitTx, Locking.Rollback, Locking.Begin, Locking.Enabled, Acknowledged, Rejected, Returned, Enqueued;
  }

  /** What one step may do to a row: statuses only rise in the order pending, failed, completed; the request is fixed;
      and a row becomes completed only when its own transfer commits. A failed one does so only
      through a message that is ready again or unacknowledged, so was never nacked. */
  lemma StatusStep(c: Config, s: State, a: Action, id: TxId)
    requires c.Reliable() && c.Valid() && Inv(c, s) && Enabled(c, s, a) && id in s.rows
    ensures var s' := Apply(c, s, a);
            && id in s'.rows && s'.rows[id].req == s.rows[id].req
            && Rank(s.rows[id].status) <= Rank(s'.rows[id].status)
            && (s.rows[id].status == Completed ==> s'.rows[id].status == Completed)
            && (s.rows[id].status == Failed ==> s'.rows[id].status != Pending)
            && (s'.rows[id].status == Completed && s.rows[id].status != Completed ==>
                  && a.Commit? && s.threads[a.t] == Settling(Job(id, s.rows[id].req))
                  && Holds(s.broker, a.t, s.threads[a.t].job)
                  && s.threads[a.t].job !in s.broker.acked && s.threads[a.t].job !in s.broker.dlq)
  {
    hide Apply, Partition, Messages, Rows, Journal, Threads, Deliveries, Database, Transactions, Accounted;
    if a.Commit? {
      CommitStep(c, s, a.t, id);
      Facts(c, s, a.t);
    } else {
      OtherStep(c, s, a, id);
    }
  }

  /** No message of the row was ever enqueued, and no goroutine will enqueue one or touch the row. */
  predicate Abandoned(s: State, id: TxId) {
    Unpublished(s.broker, id) && forall t <- s.threads :: s.threads[t].job.id == id ==> s.threads[t].SyncDel?
  }

  /** Nobody is left to change the row: its message is acknowledged or dead-lettered, or there is none. */
  predicate Settled(s: State, id: TxId) {
    id in s.rows && ((exists m <- s.broker.acked + s.broker.dlq :: m.id == id) || Abandoned(s, id))
  }

  lemma HeldIsPublished(b: Broker, t: ThreadId, j: Job)
    requires Holds(b, t, j)
    ensures !Unpublished(b, j.id)
  {
  }

  /** A failed row without a message is abandoned: its creator marked it and returned. */
  lemma FailedUnpublished(c: Config, s: State, id: TxId)
    requires Inv(c, s) && id in s.rows && s.rows[id].status == Failed && Unpublished(s.broker, id)
    ensures Settled(s, id)
  {
    hide Partition, Messages, Rows, Journal, Deliveries, Database, Transactions, Accounted, Unpublished;
    forall t | t in s.threads && s.threads[t].job.id == id ensures s.threads[t].SyncDel? {
      Facts(c, s, t);
      if s.threads[t].Consuming() { HeldIsPublished(s.broker, t, s.threads[t].job); }
    }
  }

  lemma NoThreadForSettled(c: Config, s: State, t: ThreadId, id: TxId)
    requires Inv(c, s) && Settled(s, id) && t in s.threads
    ensures s.threads[t].job.id == id ==> s.threads[t].SyncDel?
  {
    Facts(c, s, t);
    hide Partition, Messages, Rows, Journal, Threads, Deliveries, Database, Transactions, Accounted;
  }

  /** Nothing leaves the acknowledged or dead-lettered messages, and only a thread that is publishing adds a message. */
  lemma BrokerStep(c: Config, s: State, a: Action)
    requires c.honestPublish && Enabled(c, s, a)
    ensures var b, b' := s.broker, Apply(c, s, a).broker;
            && b.acked + b.dlq <= b'.acked + b'.dlq
            && (b'.published == b.published || (a.PublishOk? && b' == Enqueued(b, s.threads[a.t].job)))
  {
  }

  /** Only the row of the thread that moves can change. */
  lemma RowStep(c: Config, s: State, a: Action, id: TxId)
    requires Enabled(c, s, a) && id in s.rows
    requires !a.Restart? && a.t in s.threads && s.threads[a.t].job.id == id ==> s.threads[a.t].SyncDel?
    ensures id in Apply(c, s, a).rows && Apply(c, s, a).rows[id] == s.rows[id]
  {
    hide JobIds, StatusOf, Admits,
         Locking.Execute, Locking.CommitTx, Locking.Rollback, Locking.Begin, Locking.Enabled, Acknowledged, Rejected, Returned, Enqueued;
  }

  /** A thread that was there keeps its job; a new one has a new identifier or one that is published. */
  lemma JobStep(c: Config, s: State, a: Action, t: ThreadId)
    requires c.Reliable() && c.Valid() && Inv(c, s) && Enabled(c, s, a) && t in Apply(c, s, a).threads
    ensures var th := Apply(c, s, a).threads[t];
            || (t in s.threads && th.job == s.threads[t].job && (s.threads[t].SyncDel? ==> th.SyncDel?))
            || th.job.id !in s.rows || th.job in s.broker.published
  {
    hide Messages, Rows, Journal, Threads, Deliveries, Database, Transactions, Accounted,
         Locking.Execute, Locking.CommitTx, Locking.Rollback, Locking.Begin, Locking.Enabled, Acknowledged, Rejected, Returned, Enqueued;
    if a.Submit? { NewIdentifier(c, s, IdGenerator.Next(s.counter, a.now)); }
  }

  lemma AbandonedStep(c: Config, s: State, a: Action, id: TxId)
    requires c.Reliable() && c.Valid() && Inv(c, s) && Enabled(c, s, a) && Abandoned(s, id) && id in s.rows
    ensures Abandoned(Apply(c, s, a), id)
  {
    hide Inv, Apply;
    var s' := Apply(c, s, a);
    BrokerStep(c, s, a);
    forall t | t in s'.threads && s'.threads[t].job.id == id ensures s'.threads[t].SyncDel? {
      JobStep(c, s, a, t);
    }
    if a.PublishOk? { PublishingStep(c, s, a); }
  }

  lemma PublishingStep(c: Config, s: State, a: Action)
    requires Enabled(c, s, a) && a.PublishOk?
    ensures a.t in s.threads && s.threads[a.t].Publishing?
  {
  }

  lemma SettledStep(c: Config, s: State, a: Action, id: TxId)
    requires c.Reliable() && c.Valid() && Inv(c, s) && Enabled(c, s, a) && Settled(s, id)
    ensures Settled(Apply(c, s, a), id) && Apply(c, s, a).rows[id] == s.rows[id]
  {
    hide Inv, Apply, Abandoned;
    if !a.Restart? && a.t in s.threads { NoThreadForSettled(c, s, a.t, id); }
    BrokerStep(c, s, a);
    RowStep(c, s, a, id);
    if Abandoned(s, id) { AbandonedStep(c, s, a, id); }
  }

  /** No silent orphan: in any environment a pending runtime row has a creator inside createAsync, a message that is not
      acknowledged, or is a tracked orphan. Under A1-A5, if there is no creator and no live message, nobody will
      change it any more. */
  lemma NoSilentOrphan(c: Config, acts: seq<Action>, id: TxId)
    requires c.Valid() && Run(c, acts).Some?
    requires var s := Run(c, acts).value; id in s.rows && id !in c.seed && s.rows[id].status == Pending
    ensures var s := Run(c, acts).value;
            || (exists t :: t in s.threads && s.threads[t].Creating() && s.threads[t].job.id == id)
            || (exists m :: m in s.broker.ready + s.broker.unacked.Values + s.broker.dlq && m.id == id)
            || id in s.orphans
    ensures var s := Run(c, acts).value;
            c.Reliable() ==>
              || (exists t :: t in s.threads && s.threads[t].Creating() && s.threads[t].job.id == id)
              || (exists m :: m in s.broker.ready + s.broker.unacked.Values && m.id == id)
              || Settled(s, id)
  {
    hide Run, Fit, Inv;
    RunFit(c, acts);
    PendingIsOwned(c, Run(c, acts).value, id);
    if c.Reliable() {
      RunInv(c, acts);
      PendingIsLive(c, Run(c, acts).value, id);
    }
  }

  lemma PendingIsLive(c: Config, s: State, id: TxId)
    requires Inv(c, s) && id in s.rows && id !in c.seed && s.rows[id].status == Pending
    ensures || (exists t :: t in s.threads && s.threads[t].Creating() && s.threads[t].job.id == id)
            || (exists m :: m in s.broker.ready + s.broker.unacked.Values && m.id == id)
            || Settled(s, id)
  {
    hide Threads, Deliveries, Transactions, Journal, Rows, Database;
    if id in MessageIds(s.broker) {
      var m :| m in s.broker.published && m.id == id;
      assert m in s.broker.ready + s.broker.unacked.Values || m in s.broker.acked + s.broker.dlq;
    } else if id !in CreatorIds(s.threads) {
      PendingUnpublished(c, s, id);
    }
  }

  /** A pending row without a message and without a creator is abandoned. */
  lemma PendingUnpublished(c: Config, s: State, id: TxId)
    requires Inv(c, s) && id in s.rows && s.rows[id].status == Pending && id !in MessageIds(s.broker) && id !in CreatorIds(s.threads)
    ensures Abandoned(s, id)
  {
    hide Partition, Messages, Rows, Journal, Deliveries, Database, Transactions, Accounted, Unpublished;
    forall t | t in s.threads && s.threads[t].job.id == id ensures s.threads[t].SyncDel? {
      Facts(c, s, t);
    }
    NoMessage(s.broker, id);
  }

  lemma NoMessage(b: Broker, id: TxId)
    requires id !in MessageIds(b)
    ensures Unpublished(b, id)
  {
  }

  /** Over whole runs: a row keeps its request and its status never falls; completed is absorbing. */
  lemma {:induction false} StatusOnlyRises(c: Config, acts: seq<Action>, more: seq<Action>, id: TxId)
    requires c.Reliable() && c.Valid() && Run(c, acts).Some? && Run(c, acts + more).Some? && id in Run(c, acts).value.rows
    ensures var r, r' := Run(c, acts).value.rows, Run(c, acts + more).value.rows;
            && id in r' && r'[id].req == r[id].req && Rank(r[id].status) <= Rank(r'[id].status)
            && (r[id].status == Completed ==> r'[id].status == Completed)
            && (r[id].status == Failed ==> r'[id].status != Pending)
    decreases |more|
  {
    hide Inv, Apply, Enabled;
    if more == [] {
      assert acts + more == acts;
    } else {
      var init := more[..|more| - 1];
      assert (acts + more)[..|acts + more| - 1] == acts + init;
      StatusOnlyRises(c, acts, init, id);
      RunInv(c, acts + init);
      StatusStep(c, Run(c, acts + init).value, more[|more| - 1], id);
    }
  }

  /** Over whole runs: a settled row never changes again. */
  lemma {:induction false} SettledForever(c: Config, acts: seq<Action>, more: seq<Action>, id: TxId)
    requires c.Reliable() && c.Valid() && Run(c, acts).Some? && Run(c, acts + more).Some?
    requires Settled(Run(c, acts).value, id)
    ensures var s, s' := Run(c, acts).value, Run(c, acts + more).value;
            Settled(s', id) && id in s'.rows && s'.rows[id] == s.rows[id]
    decreases |more|
  {
    hide Inv, Apply, Enabled;
    if more == [] {
      assert acts + more == acts;
    } else {
      var init := more[..|more| - 1];
      assert (acts + more)[..|acts + more| - 1] == acts + init;
      SettledForever(c, acts, init, id);
      RunInv(c, acts + init);
      SettledStep(c, Run(c, acts + init).value, more[|more| - 1], id);
    }
  }
}
