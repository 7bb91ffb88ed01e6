/** What holds in every reachable state of any environment: stale reads, deliveries processed twice, false errors and
    a clock that goes back are all allowed. None of A1-A5 is assumed. */
module Unconditional {
  import opened Domain
  import opened Ledger
  import opened Protocol
  import opened Invariant
  import Locking
  import IdText

  // ---------------------------------------------------------------- the invariant

  predicate HasRow(c: Config, rows: map<TxId, Row>, j: Job) {
    j.id in rows && j.id !in c.seed && rows[j.id].req == j.req
  }

  predicate Fits(c: Config, req: Request) {
    Admits(req) && req.src in c.open && req.dst in c.open
  }

  /** A runtime row is an admitted request between existing accounts; only a commit completes it. */
  predicate RowsFit(c: Config, rows: map<TxId, Row>, done: set<TxId>) {
    forall id <- rows :: id !in c.seed ==> Fits(c, rows[id].req) && (rows[id].status == Completed ==> id in done)
  }

  /** A committed transfer is admitted, between existing accounts, and its row is never pending again. */
  predicate JournalFits(c: Config, rows: map<TxId, Row>, journal: seq<Job>) {
    forall j <- journal :: Fits(c, j.req) && j.id in rows && rows[j.id].status != Pending
  }

  /** Messages are never duplicated or lost by the broker, have their row, and are acknowledged only after a commit. */
  predicate MessagesFit(c: Config, rows: map<TxId, Row>, b: Broker, done: set<TxId>) {
    && Partition(b)
    && (forall m <- b.published :: HasRow(c, rows, m))
    && (forall m <- b.acked :: m.id in done)
  }

  predicate ThreadFits(c: Config, rows: map<TxId, Row>, b: Broker, th: Thread, done: set<TxId>) {
    && Admits(th.job.req) && th.job.id !in c.seed
    && (th.Creating() || th.Consuming() ==> HasRow(c, rows, th.job))
    && (th.Consuming() ==> th.job in b.published)
    && (th.Publishing? ==> Unpublished(b, th.job.id))
    && (th.DelBalances? || th.DelStatus? || th.Acking? ==> th.job.id in done)
  }

  predicate ThreadsFit(c: Config, rows: map<TxId, Row>, b: Broker, threads: map<ThreadId, Thread>, done: set<TxId>) {
    && (forall t <- threads :: ThreadFits(c, rows, b, threads[t], done))
    && (forall t, u :: t in threads && u in threads && t != u && threads[t].Publishing? && threads[u].Publishing? ==>
          threads[t].job.id != threads[u].job.id)
  }

  ghost predicate Fit(c: Config, s: State) {
    var done := JobIds(s.db.journal);
    && RowsFit(c, s.rows, done)
    && JournalFits(c, s.rows, s.db.journal)
    && MessagesFit(c, s.rows, s.broker, done)
    && ThreadsFit(c, s.rows, s.broker, s.threads, done)
    && Deliveries(s.broker, s.threads)
    && Database(c, s.db)
    && Transactions(s.db, s.threads)
    && Accounted(c, s.rows, Owners(s))
    && s.floor >= IdText.SEEDED - 1
  }

  // ---------------------------------------------------------------- how the parts follow a step

  /** Rows are never deleted, keep their request, and never become pending again; at most row `id` changes. */
  ghost predicate Evolves(rows: map<TxId, Row>, rows': map<TxId, Row>, id: TxId) {
    && SameBut(rows, rows', id)
    && (id in rows ==> id in rows' && rows'[id].req == rows[id].req && (rows[id].status != Pending ==> rows'[id].status != Pending))
  }

  /** A row that is inserted or updated. */
  predicate RowStepFits(c: Config, rows: map<TxId, Row>, rows': map<TxId, Row>, id: TxId, done': set<TxId>) {
    id in rows' && id !in c.seed && (id !in rows || rows'[id] != rows[id]) ==>
      (id !in rows ==> Fits(c, rows'[id].req)) && (rows'[id].status == Completed ==> id in done')
  }

  lemma RowsMove(c: Config, rows: map<TxId, Row>, rows': map<TxId, Row>, id: TxId, done: set<TxId>, done': set<TxId>)
    requires RowsFit(c, rows, done) && Evolves(rows, rows', id) && done <= done'
    requires RowStepFits(c, rows, rows', id, done')
    ensures RowsFit(c, rows', done')
  {
  }

  lemma JournalMove(c: Config, rows: map<TxId, Row>, rows': map<TxId, Row>, id: TxId, journal: seq<Job>, journal': seq<Job>, j: Job)
    requires JournalFits(c, rows, journal) && Evolves(rows, rows', id)
    requires journal' == journal || (journal' == journal + [j] && Fits(c, j.req) && j.id in rows' && rows'[j.id].status != Pending)
    ensures JournalFits(c, rows', journal') && JobIds(journal) <= JobIds(journal')
    ensures journal' == journal + [j] ==> j.id in JobIds(journal')
  {
    forall k | k in journal' ensures Fits(c, k.req) && k.id in rows' && rows'[k.id].status != Pending {
      if k in journal { assert k.id in rows && rows[k.id].status != Pending; }
    }
    JobIdsAppend(journal, j);
  }

  /** The broker after a step: its messages are those of before, or one more. */
  lemma MessagesMove(c: Config, rows: map<TxId, Row>, rows': map<TxId, Row>, id: TxId, b: Broker, b': Broker, j: Job,
                     done: set<TxId>, done': set<TxId>)
    requires MessagesFit(c, rows, b, done) && Evolves(rows, rows', id) && done <= done' && Partition(b')
    requires b'.published == b.published || (b'.published == b.published + {j} && HasRow(c, rows', j))
    requires forall m <- b'.acked :: m in b.acked || m.id in done'
    ensures MessagesFit(c, rows', b', done')
  {
    forall m | m in b'.published ensures HasRow(c, rows', m) {
      if m in b.published { assert HasRow(c, rows, m); }
    }
  }

  /** The thread that moves is `t`; its job's row is the one that may change. */
  lemma ThreadsMoveOn(c: Config, rows: map<TxId, Row>, rows': map<TxId, Row>, b: Broker, b': Broker, j: Job,
                      threads: map<ThreadId, Thread>, threads': map<ThreadId, Thread>, t: ThreadId, done: set<TxId>, done': set<TxId>)
    requires ThreadsFit(c, rows, b, threads, done) && SameBut(threads, threads', t) && Evolves(rows, rows', j.id) && done <= done'
    requires b'.published == b.published
             || (b'.published == b.published + {j} && t in threads && threads[t].Publishing? && threads[t].job == j)
    requires t in threads' ==> ThreadFits(c, rows', b', threads'[t], done')
    requires t in threads' && threads'[t].Publishing? ==> threads'[t].job == j && j.id !in rows
    ensures ThreadsFit(c, rows', b', threads', done')
  {
    forall u | u in threads' ensures ThreadFits(c, rows', b', threads'[u], done') {
      if u != t { assert ThreadFits(c, rows, b, threads[u], done) && threads[u] == threads'[u]; }
    }
    forall u | u in threads' && u != t && threads'[u].Publishing? && t in threads' && threads'[t].Publishing?
      ensures threads'[u].job.id != j.id
    {
      assert ThreadFits(c, rows, b, threads[u], done) && threads[u] == threads'[u];
    }
  }

  /** A step of goroutine `t` on job `j`. */
  lemma FitMoves(c: Config, s: State, s': State, t: ThreadId, j: Job)
    requires Fit(c, s) && Evolves(s.rows, s'.rows, j.id) && (t in s.threads ==> s.threads[t].job == j)
    requires SameBut(s.threads, s'.threads, t) && SameBut(s.db.txs, s'.db.txs, t) && SameBut(s.broker.unacked, s'.broker.unacked, t)
    requires Partition(s'.broker) && Database(c, s'.db) && s.orphans <= s'.orphans && s.floor <= s'.floor
    requires s'.broker.published == s.broker.published
             || (s'.broker.published == s.broker.published + {j} && HasRow(c, s'.rows, j) && t in s.threads && s.threads[t].Publishing?)
    requires s'.db.journal == s.db.journal
             || (s'.db.journal == s.db.journal + [j] && Fits(c, j.req) && j.id in s'.rows && s'.rows[j.id].status != Pending)
    requires forall m <- s'.broker.acked :: m in s.broker.acked || m.id in JobIds(s'.db.journal)
    requires RowStepFits(c, s.rows, s'.rows, j.id, JobIds(s'.db.journal))
    requires t in s'.threads ==> ThreadFits(c, s'.rows, s'.broker, s'.threads[t], JobIds(s'.db.journal))
    requires t in s'.threads && s'.threads[t].Publishing? ==> s'.threads[t].job == j && j.id !in s.rows
    requires Linked(s', t)
    requires j.id in s'.rows && j.id !in c.seed && s'.rows[j.id].status == Pending ==> Owned(s', t, j.id) || NotOwner(s, s', t, j.id)
    ensures Fit(c, s')
  {
    hide RowsFit, JournalFits, MessagesFit, ThreadsFit, ThreadFits, Deliveries, Database, Transactions, Accounted, Partition,
         Evolves, RowStepFits, Linked, Owned, NotOwner, MessageIds, CreatorIds;
    var done, done' := JobIds(s.db.journal), JobIds(s'.db.journal);
    JournalMove(c, s.rows, s'.rows, j.id, s.db.journal, s'.db.journal, j);
    RowsMove(c, s.rows, s'.rows, j.id, done, done');
    MessagesMove(c, s.rows, s'.rows, j.id, s.broker, s'.broker, j, done, done');
    ThreadsMoveOn(c, s.rows, s'.rows, s.broker, s'.broker, j, s.threads, s'.threads, t, done, done');
    EvolvesSame(s.rows, s'.rows, j.id);
    LinksMove(c, s, s', t, j.id);
  }

  lemma EvolvesSame(rows: map<TxId, Row>, rows': map<TxId, Row>, id: TxId)
    requires Evolves(rows, rows', id)
    ensures SameBut(rows, rows', id)
  {
  }

  /** What a goroutine knows. */
  lemma Knows(c: Config, s: State, t: ThreadId)
    requires Fit(c, s) && t in s.threads
    ensures ThreadFits(c, s.rows, s.broker, s.threads[t], JobIds(s.db.journal)) && Linked(s, t)
    ensures Partition(s.broker) && Database(c, s.db) && Deliveries(s.broker, s.threads)
    ensures var id := s.threads[t].job.id;
            id in s.rows ==> Fits(c, s.rows[id].req) && (s.rows[id].status == Completed ==> id in JobIds(s.db.journal))
  {
    hide Partition, Database, JournalFits, Deliveries, Transactions, Accounted, Linked;
    LinkedNow(s, t);
  }

  // ---------------------------------------------------------------- every step keeps it

  lemma SubmitFit(c: Config, s: State, a: Action)
    requires c.Valid() && Fit(c, s) && Enabled(c, s, a) && a.Submit?
    ensures Fit(c, Apply(c, s, a))
  {
    hide RowsFit, JournalFits, MessagesFit, ThreadsFit, Deliveries, Database, Transactions, Accounted, Partition, MessageIds, CreatorIds,
         JobIds;
    var s' := Apply(c, s, a);
    var j := s'.threads[a.t].job;
    assert j.id >= IdText.SEEDED;
    NoThread(s, a.t);
    Parts(c, s);
    BeginDatabase(c, s.db, a.t, j, true);
    FitMoves(c, s, s', a.t, j);
  }

  lemma Parts(c: Config, s: State)
    requires Fit(c, s)
    ensures Partition(s.broker) && RowsFit(c, s.rows, JobIds(s.db.journal)) && Database(c, s.db)
    ensures s.db.bal.Keys == c.open.Keys
  {
    hide Partition, RowsFit, JournalFits, ThreadsFit, Deliveries, Transactions, Accounted, Locking.Consistent;
  }

  lemma SaveFit(c: Config, s: State, a: Action)
    requires c.Valid() && Fit(c, s) && Enabled(c, s, a) && (a.SaveRow? || a.SaveFails?)
    ensures Fit(c, Apply(c, s, a))
  {
    hide RowsFit, JournalFits, MessagesFit, ThreadsFit, Deliveries, Database, Transactions, Accounted, Partition, MessageIds, CreatorIds,
         JobIds;
    Parts(c, s);
    Knows(c, s, a.t);
    if a.SaveRow? { NoMessageYet(c, s, s.threads[a.t].job.id); }
    FitMoves(c, s, Apply(c, s, a), a.t, s.threads[a.t].job);
  }

  lemma MarkFailedFit(c: Config, s: State, a: Action)
    requires c.Valid() && Fit(c, s) && Enabled(c, s, a) && a.MarkFailed?
    ensures Fit(c, Apply(c, s, a))
  {
    hide RowsFit, JournalFits, MessagesFit, ThreadsFit, Deliveries, Database, Transactions, Accounted, Partition, MessageIds, CreatorIds,
         JobIds;
    Parts(c, s);
    Knows(c, s, a.t);
    FitMoves(c, s, Apply(c, s, a), a.t, s.threads[a.t].job);
  }

  lemma MarkUnpublishedFit(c: Config, s: State, a: Action)
    requires c.Valid() && Fit(c, s) && Enabled(c, s, a) && a.MarkUnpublished?
    ensures Fit(c, Apply(c, s, a))
  {
    hide RowsFit, JournalFits, MessagesFit, ThreadsFit, Deliveries, Database, Transactions, Accounted, Partition, MessageIds, CreatorIds,
         JobIds;
    Parts(c, s);
    Knows(c, s, a.t);
    FitMoves(c, s, Apply(c, s, a), a.t, s.threads[a.t].job);
  }

  lemma NoMessageYet(c: Config, s: State, id: TxId)
    requires Fit(c, s) && id !in s.rows
    ensures Unpublished(s.broker, id)
  {
    hide Partition, RowsFit, JournalFits, ThreadsFit, Deliveries, Database, Transactions, Accounted;
  }

  lemma PublishFit(c: Config, s: State, a: Action)
    requires c.Valid() && Fit(c, s) && Enabled(c, s, a)
    requires a.PublishOk? || a.PublishLost? || a.PublishFails?
    ensures Fit(c, Apply(c, s, a))
  {
    hide RowsFit, JournalFits, MessagesFit, ThreadsFit, Deliveries, Database, Transactions, Accounted, Partition, CreatorIds, JobIds;
    Parts(c, s);
    Knows(c, s, a.t);
    EnqueueFit(s.broker, s.threads[a.t].job);
    FitMoves(c, s, Apply(c, s, a), a.t, s.threads[a.t].job);
  }

  lemma EnqueueFit(b: Broker, j: Job)
    requires Partition(b) && Unpublished(b, j.id)
    ensures Partition(Enqueued(b, j)) && j in Enqueued(b, j).published
  {
  }

  lemma DeliverFit(c: Config, s: State, a: Action)
    requires c.Valid() && Fit(c, s) && Enabled(c, s, a) && a.Deliver?
    ensures Fit(c, Apply(c, s, a))
  {
    hide RowsFit, JournalFits, MessagesFit, ThreadsFit, Deliveries, Database, Transactions, Accounted, Partition, MessageIds, CreatorIds;
    Parts(c, s);
    NoThread(s, a.t);
    ReadyFits(c, s, a.m);
    DeliverBroker(s.broker, a.t, a.m);
    FitMoves(c, s, Apply(c, s, a), a.t, a.m);
  }

  lemma ReadyFits(c: Config, s: State, m: Job)
    requires Fit(c, s) && m in s.broker.ready
    ensures m in s.broker.published && HasRow(c, s.rows, m) && Admits(m.req)
  {
    hide JournalFits, ThreadsFit, Deliveries, Database, Transactions, Accounted;
  }

  lemma ReadFit(c: Config, s: State, a: Action)
    requires c.Valid() && Fit(c, s) && Enabled(c, s, a) && a.ReadStatus?
    ensures Fit(c, Apply(c, s, a))
  {
    hide RowsFit, JournalFits, MessagesFit, ThreadsFit, Deliveries, Database, Transactions, Accounted, Partition, MessageIds, CreatorIds,
         JobIds, StatusOf;
    Parts(c, s);
    Knows(c, s, a.t);
    if a.seen != Some(Completed) { BeginDatabase(c, s.db, a.t, s.threads[a.t].job, false); }
    FitMoves(c, s, Apply(c, s, a), a.t, s.threads[a.t].job);
  }

  lemma InvalidateFit(c: Config, s: State, a: Action)
    requires c.Valid() && Fit(c, s) && Enabled(c, s, a) && a.Invalidate?
    ensures Fit(c, Apply(c, s, a))
  {
    hide RowsFit, JournalFits, MessagesFit, ThreadsFit, Deliveries, Database, Transactions, Accounted, Partition, MessageIds, CreatorIds,
         JobIds;
    Parts(c, s);
    Knows(c, s, a.t);
    FitMoves(c, s, Apply(c, s, a), a.t, s.threads[a.t].job);
  }

  /** A database transaction that ends without a commit. */
  lemma FailureFit(c: Config, s: State, s': State, t: ThreadId, d: Locking.Db)
    requires Fit(c, s) && t in s.threads && s.threads[t].InDb()
    requires Database(c, d) && d.journal == s.db.journal && SameBut(s.db.txs, d.txs, t) && t !in d.txs
    requires s' == AfterDbFailure(s.(db := d), t)
    ensures Fit(c, s')
  {
    hide RowsFit, JournalFits, MessagesFit, ThreadsFit, Deliveries, Database, Transactions, Accounted, Partition, MessageIds, CreatorIds,
         JobIds;
    Parts(c, s);
    Knows(c, s, t);
    FitMoves(c, s, s', t, s.threads[t].job);
  }

  lemma StatementFit(c: Config, s: State, a: Action)
    requires c.Valid() && Fit(c, s) && Enabled(c, s, a) && a.Statement?
    ensures Fit(c, Apply(c, s, a))
  {
    hide RowsFit, JournalFits, MessagesFit, ThreadsFit, Deliveries, Database, Transactions, Accounted, Partition, MessageIds, CreatorIds,
         JobIds, Locking.Execute;
    var s', d := Apply(c, s, a), Locking.Execute(s.db, a.t);
    Parts(c, s);
    Knows(c, s, a.t);
    StatementDatabase(c, s.db, a.t);
    if a.t in d.txs {
      FitMoves(c, s, s', a.t, s.threads[a.t].job);
    } else {
      FailureFit(c, s, s', a.t, d);
    }
  }

  /** A COMMIT that is applied, whatever is then reported. */
  lemma CommitFit(c: Config, s: State, s': State, t: ThreadId)
    requires c.Valid() && Fit(c, s) && t in s.threads && s.threads[t].InDb() && Locking.Enabled(s.db, Locking.Finish(t))
    requires s' == AfterCommit(Committed(s, t), t) || s' == AfterDbFailure(Committed(s, t), t)
    ensures Fit(c, s')
  {
    hide RowsFit, JournalFits, MessagesFit, ThreadsFit, Deliveries, Database, Transactions, Accounted, Partition, MessageIds, CreatorIds,
         JobIds, Fits, Locking.Enabled, Locking.CommitTx;
    var j := s.threads[t].job;
    Parts(c, s);
    Knows(c, s, t);
    CommitFits(c, s, t);
    CommitChanges(s.db, t);
    JobIdsAppend(s.db.journal, j);
    FitMoves(c, s, s', t, j);
  }

  lemma CommitChanges(d: Locking.Db, t: ThreadId)
    requires t in d.txs
    ensures var d' := Locking.CommitTx(d, t); d'.journal == d.journal + [d.txs[t].job] && d'.txs == d.txs - {t}
  {
  }

  /** At COMMIT both accounts exist, settle included, which never looks for the destination. */
  lemma CommitFits(c: Config, s: State, t: ThreadId)
    requires Fit(c, s) && t in s.threads && s.threads[t].InDb() && Locking.Enabled(s.db, Locking.Finish(t))
    ensures var j := s.threads[t].job;
            && t in s.db.txs && s.db.txs[t].job == j && Fits(c, j.req)
            && Database(c, Locking.CommitTx(s.db, t)) && (s.threads[t].Settling? ==> j.id in s.rows)
  {
    hide RowsFit, JournalFits, MessagesFit, ThreadsFit, Deliveries, Transactions, Accounted, Partition, Locking.Consistent;
    Knows(c, s, t);
    CommitFacts(c, s.db, t);
  }

  lemma EndFit(c: Config, s: State, a: Action)
    requires c.Valid() && Fit(c, s) && Enabled(c, s, a) && (a.DbError? || a.Commit? || a.CommitFails?)
    ensures Fit(c, Apply(c, s, a))
  {
    hide Fit, Committed, Database, AfterCommit, AfterDbFailure;
    if a.Commit? || (a.CommitFails? && a.applied) {
      CommitFit(c, s, Apply(c, s, a), a.t);
    } else {
      DatabaseOf(c, s);
      RollbackDatabase(c, s.db, a.t);
      FailureFit(c, s, Apply(c, s, a), a.t, Locking.Rollback(s.db, a.t));
    }
  }

  lemma DatabaseOf(c: Config, s: State)
    requires Fit(c, s)
    ensures Database(c, s.db)
  {
    Parts(c, s);
  }

  lemma AckFit(c: Config, s: State, a: Action)
    requires c.Valid() && Fit(c, s) && Enabled(c, s, a) && a.Ack?
    ensures Fit(c, Apply(c, s, a))
  {
    hide RowsFit, JournalFits, MessagesFit, ThreadsFit, Deliveries, Database, Transactions, Accounted, Partition, MessageIds, CreatorIds,
         JobIds;
    var s' := Apply(c, s, a);
    Parts(c, s);
    Knows(c, s, a.t);
    ReleaseBroker(s.broker, s'.broker, a.t);
    FitMoves(c, s, s', a.t, s.threads[a.t].job);
  }

  lemma NackFit(c: Config, s: State, a: Action)
    requires c.Valid() && Fit(c, s) && Enabled(c, s, a) && a.Nack?
    ensures Fit(c, Apply(c, s, a))
  {
    hide RowsFit, JournalFits, MessagesFit, ThreadsFit, Deliveries, Database, Transactions, Accounted, Partition, MessageIds, CreatorIds,
         JobIds;
    var s' := Apply(c, s, a);
    Parts(c, s);
    Knows(c, s, a.t);
    ReleaseBroker(s.broker, s'.broker, a.t);
    FitMoves(c, s, s', a.t, s.threads[a.t].job);
  }

  lemma CrashFit(c: Config, s: State, a: Action)
    requires c.Valid() && Fit(c, s) && Enabled(c, s, a) && a.Crash?
    ensures Fit(c, Apply(c, s, a))
  {
    hide RowsFit, JournalFits, MessagesFit, ThreadsFit, Deliveries, Database, Transactions, Accounted, Partition, MessageIds, CreatorIds,
         JobIds;
    var s' := Apply(c, s, a);
    Parts(c, s);
    Knows(c, s, a.t);
    RollbackDatabase(c, s.db, a.t);
    ReleaseBroker(s.broker, s'.broker, a.t);
    FitMoves(c, s, s', a.t, s.threads[a.t].job);
  }

  /** A delivery returned because its connection was lost. */
  lemma RequeueFit(c: Config, s: State, a: Action)
    requires c.Valid() && Fit(c, s) && Enabled(c, s, a) && a.Requeue?
    ensures Fit(c, Apply(c, s, a))
  {
    hide RowsFit, JournalFits, MessagesFit, ThreadsFit, Deliveries, Database, Transactions, Accounted, Partition, MessageIds, CreatorIds,
         JobIds;
    Consumer(s, a.t);
    var s' := Apply(c, s, a);
    Parts(c, s);
    Knows(c, s, a.t);
    ReleaseBroker(s.broker, s'.broker, a.t);
    FitMoves(c, s, s', a.t, s.threads[a.t].job);
  }

  lemma StepFit(c: Config, s: State, a: Action)
    requires c.Valid() && Fit(c, s) && Enabled(c, s, a)
    ensures Fit(c, Apply(c, s, a))
  {
    hide Fit, Apply, Enabled;
    match a
    case Submit(_, _, _, _) => SubmitFit(c, s, a);
    case SaveRow(_) => SaveFit(c, s, a);
    case SaveFails(_, _) => SaveFit(c, s, a);
    case MarkUnpublished(_, _) => MarkUnpublishedFit(c, s, a);
    case MarkFailed(_, _) => MarkFailedFit(c, s, a);
    case PublishOk(_) => PublishFit(c, s, a);
    case PublishLost(_) => PublishFit(c, s, a);
    case PublishFails(_, _) => PublishFit(c, s, a);
    case Deliver(_, _) => DeliverFit(c, s, a);
    case ReadStatus(_, _) => ReadFit(c, s, a);
    case Invalidate(_) => InvalidateFit(c, s, a);
    case Statement(_) => StatementFit(c, s, a);
    case DbError(_) => EndFit(c, s, a);
    case Commit(_) => EndFit(c, s, a);
    case CommitFails(_, _) => EndFit(c, s, a);
    case Restart => RestartFit(c, s);
    case Ack(_) => AckFit(c, s, a);
    case Nack(_) => NackFit(c, s, a);
    case Crash(_) => CrashFit(c, s, a);
    case Requeue(_) => RequeueFit(c, s, a);
  }

  lemma RestartFit(c: Config, s: State)
    requires c.Valid() && Fit(c, s) && Enabled(c, s, Restart)
    ensures Fit(c, Apply(c, s, Restart))
  {
    hide RowsFit, JournalFits, MessagesFit, Database, Transactions, Accounted, Partition;
  }

  lemma InitFit(c: Config)
    requires c.Valid()
    ensures Fit(c, Init(c))
  {
  }

  /** The invariant holds in every reachable state of any environment. */
  lemma {:induction false} RunFit(c: Config, acts: seq<Action>)
    requires c.Valid() && Run(c, acts).Some?
    ensures Fit(c, Run(c, acts).value)
  {
    hide Fit, Apply, Enabled;
    if acts == [] {
      InitFit(c);
    } else {
      RunFit(c, acts[..|acts| - 1]);
      StepFit(c, Run(c, acts[..|acts| - 1]).value, acts[|acts| - 1]);
    }
  }
}
