/** The invariant of the protocol, and that every step keeps it under A1-A5. */
module Invariant {
  import opened Domain
  import opened Ledger
  import opened Protocol
  import Locking
  import IdText

  // ---------------------------------------------------------------- the parts

  /** Each message enqueued is in exactly one of: ready, unacknowledged by one goroutine, acknowledged, dead-lettered. */
  predicate Partition(b: Broker) {
    && b.ready !! b.acked && b.ready !! b.dlq && b.acked !! b.dlq
    && b.unacked.Values !! b.ready && b.unacked.Values !! b.acked && b.unacked.Values !! b.dlq
    && (forall t, u :: t in b.unacked && u in b.unacked && t != u ==> b.unacked[t] != b.unacked[u])
    && b.published == b.ready + b.unacked.Values + b.acked + b.dlq
  }

  predicate Holds(b: Broker, t: ThreadId, m: Job) {
    m in b.published && (m in b.ready || (t in b.unacked && b.unacked[t] == m))
  }

  /** Every message has its row; an acknowledged one is completed, a dead-lettered one is not. */
  predicate Messages(c: Config, rows: map<TxId, Row>, b: Broker) {
    && (forall m <- b.published :: m.id in rows && m.id !in c.seed && rows[m.id].req == m.req)
    && (forall m <- b.acked :: m.id in rows ==> rows[m.id].status == Completed)
    && (forall m <- b.dlq :: m.id in rows ==> rows[m.id].status != Completed)
  }

  /** Seeded rows are untouched; a runtime row is an admitted request between existing accounts,
      completed exactly when its transfer is in the journal. */
  predicate Rows(c: Config, rows: map<TxId, Row>, top: int, done: set<TxId>) {
    && (forall id <- c.seed :: id in rows && rows[id] == c.seed[id])
    && (forall id <- rows :: id <= top)
    && (forall id <- rows :: id !in c.seed ==>
          && Admits(rows[id].req) && rows[id].req.src in c.open && rows[id].req.dst in c.open
          && (rows[id].status == Completed <==> id in done))
  }

  predicate Journal(c: Config, rows: map<TxId, Row>, journal: seq<Job>) {
    && DistinctIds(journal)
    && (forall j <- journal :: j.id in rows && j.id !in c.seed && rows[j.id].req == j.req)
  }

  predicate RowIs(rows: map<TxId, Row>, j: Job, status: Status) {
    j.id in rows && rows[j.id] == Row(j.req, status)
  }

  predicate Unfinished(rows: map<TxId, Row>, j: Job) {
    j.id in rows && rows[j.id].status != Completed
  }

  predicate Unpublished(b: Broker, id: TxId) {
    forall m <- b.published :: m.id != id
  }

  predicate ThreadOk(rows: map<TxId, Row>, b: Broker, t: ThreadId, th: Thread) {
    var j := th.job;
    && (th.Consuming() ==> Holds(b, t, j))
    && (!th.Consuming() ==> Unpublished(b, j.id))
    && match th
       case Syncing(_) => j.id !in rows
       case SyncDel(_) => RowIs(rows, j, Completed)
       case Saving(_) => j.id !in rows
       case Publishing(_) => RowIs(rows, j, Pending)
       case MarkingUnpublished(_) => RowIs(rows, j, Pending)
       case Checking(_) => true
       case Settling(_) => Unfinished(rows, j)
       case MarkingFailed(_) => Unfinished(rows, j)
       case Nacking(_) => Unfinished(rows, j)
       case DelBalances(_) => RowIs(rows, j, Completed)
       case DelStatus(_) => RowIs(rows, j, Completed)
       case Acking(_) => RowIs(rows, j, Completed)
  }

  predicate Threads(c: Config, rows: map<TxId, Row>, b: Broker, top: int, threads: map<ThreadId, Thread>) {
    && (forall t <- threads :: ThreadOk(rows, b, t, threads[t]))
    && (forall t <- threads :: Admits(threads[t].job.req) && threads[t].job.id <= top && threads[t].job.id !in c.seed)
    && (forall t, u :: t in threads && u in threads && t != u ==> threads[t].job.id != threads[u].job.id)
  }

  /** Whoever holds an unacknowledged delivery is processing it. */
  predicate Deliveries(b: Broker, threads: map<ThreadId, Thread>) {
    forall t <- b.unacked :: t in threads && threads[t].Consuming() && threads[t].job == b.unacked[t]
  }

  /** The committed balances are a serial run of checked transfers; open transactions are those of the threads. */
  ghost predicate Database(c: Config, d: Locking.Db) {
    Locking.Consistent(d) && d.rule == CENTS && Replay(c.open, d.journal) == Some(d.bal) && d.bal.Keys == c.open.Keys
  }

  predicate Transactions(d: Locking.Db, threads: map<ThreadId, Thread>) {
    && (forall t <- threads :: threads[t].InDb() ==>
          t in d.txs && d.txs[t].job == threads[t].job && d.txs[t].checksDest == threads[t].Syncing?)
    && (forall t <- d.txs :: t in threads && threads[t].InDb())
  }

  function CreatorIds(threads: map<ThreadId, Thread>): set<TxId> {
    set t | t in threads && threads[t].Creating() :: threads[t].job.id
  }

  function MessageIds(b: Broker): set<TxId> {
    set m | m in b.published :: m.id
  }

  /** A pending runtime row has a creator at work, a message, or is a tracked orphan. */
  predicate Accounted(c: Config, rows: map<TxId, Row>, owners: set<TxId>) {
    forall id <- rows :: id !in c.seed && rows[id].status == Pending ==> id in owners
  }

  function Owners(s: State): set<TxId> {
    CreatorIds(s.threads) + MessageIds(s.broker) + s.orphans
  }

  ghost predicate Inv(c: Config, s: State) {
    && Partition(s.broker)
    && Messages(c, s.rows, s.broker)
    && Rows(c, s.rows, Top(s), JobIds(s.db.journal))
    && Journal(c, s.rows, s.db.journal)
    && Threads(c, s.rows, s.broker, Top(s), s.threads)
    && Deliveries(s.broker, s.threads)
    && Database(c, s.db)
    && Transactions(s.db, s.threads)
    && Accounted(c, s.rows, Owners(s))
    && s.floor >= IdText.SEEDED - 1
  }

  // ---------------------------------------------------------------- how the parts follow small changes

  /** Two maps agree except perhaps at one key. */
  ghost predicate SameBut<V>(m: map<int, V>, m': map<int, V>, k: int) {
    && (forall x <- m :: x != k ==> x in m' && m'[x] == m[x])
    && (forall x <- m' :: x != k ==> x in m)
  }

  /** Thread `t` moves on with its job, changing at most that job's row. */
  lemma ThreadsMove(c: Config, rows: map<TxId, Row>, rows': map<TxId, Row>, b: Broker, top: int,
                    threads: map<ThreadId, Thread>, t: ThreadId, th: Thread)
    requires Threads(c, rows, b, top, threads) && t in threads && th.job == threads[t].job
    requires SameBut(rows, rows', th.job.id) && ThreadOk(rows', b, t, th)
    ensures Threads(c, rows', b, top, threads[t := th])
  {
    var threads' := threads[t := th];
    forall u | u in threads' ensures ThreadOk(rows', b, u, threads'[u]) {
      if u != t {
        assert ThreadOk(rows, b, u, threads[u]) && threads[u].job.id != th.job.id;
      }
    }
  }

  lemma ThreadsLeave(c: Config, rows: map<TxId, Row>, rows': map<TxId, Row>, b: Broker, top: int,
                     threads: map<ThreadId, Thread>, t: ThreadId)
    requires Threads(c, rows, b, top, threads) && t in threads
    requires SameBut(rows, rows', threads[t].job.id)
    ensures Threads(c, rows', b, top, threads - {t})
    ensures forall u <- threads - {t} :: threads[u].job.id != threads[t].job.id
  {
    forall u | u in threads - {t} ensures ThreadOk(rows', b, u, threads[u]) {
      assert ThreadOk(rows, b, u, threads[u]) && threads[u].job.id != threads[t].job.id;
    }
  }

  lemma ThreadsJoin(c: Config, rows: map<TxId, Row>, b: Broker, top: int, top': int,
                    threads: map<ThreadId, Thread>, t: ThreadId, th: Thread)
    requires Threads(c, rows, b, top, threads) && t !in threads && top <= top'
    requires ThreadOk(rows, b, t, th) && Admits(th.job.req) && th.job.id <= top' && th.job.id !in c.seed
    requires forall u <- threads :: threads[u].job.id != th.job.id
    ensures Threads(c, rows, b, top', threads[t := th])
  {
  }

  lemma ThreadsBroker(c: Config, rows: map<TxId, Row>, b: Broker, b': Broker, top: int, threads: map<ThreadId, Thread>)
    requires Threads(c, rows, b, top, threads)
    requires forall t <- threads :: threads[t].Consuming() ==> Holds(b', t, threads[t].job)
    requires forall t <- threads :: !threads[t].Consuming() ==> Unpublished(b', threads[t].job.id)
    ensures Threads(c, rows, b', top, threads)
  {
    forall t | t in threads ensures ThreadOk(rows, b', t, threads[t]) {
      assert ThreadOk(rows, b, t, threads[t]);
    }
  }

  lemma MessagesRow(c: Config, rows: map<TxId, Row>, rows': map<TxId, Row>, b: Broker, id: TxId)
    requires Messages(c, rows, b) && SameBut(rows, rows', id)
    requires id in rows ==> id in rows' && rows'[id].req == rows[id].req
    requires forall m <- b.acked + b.dlq :: m.id != id
    ensures Messages(c, rows', b)
  {
  }

  /** A message being processed is the only one with its identifier, and is neither acknowledged nor dead-lettered. */
  lemma InProcess(c: Config, rows: map<TxId, Row>, b: Broker, t: ThreadId, j: Job)
    requires Partition(b) && Messages(c, rows, b) && Holds(b, t, j)
    ensures j.id in rows && rows[j.id].req == j.req
    ensures forall m <- b.published :: m.id == j.id ==> m == j
    ensures forall m <- b.acked + b.dlq :: m.id != j.id
  {
    if t in b.unacked && b.unacked[t] == j { assert j in b.unacked.Values; }
  }

  lemma NotDelivered(b: Broker, id: TxId)
    requires Partition(b) && Unpublished(b, id)
    ensures forall m <- b.acked + b.dlq :: m.id != id
  {
  }

  lemma TransactionsMove(d: Locking.Db, d': Locking.Db, threads: map<ThreadId, Thread>, threads': map<ThreadId, Thread>, t: ThreadId)
    requires Transactions(d, threads) && SameBut(d.txs, d'.txs, t) && SameBut(threads, threads', t)
    requires t in d'.txs ==> t in threads' && threads'[t].InDb()
    requires t in threads' && threads'[t].InDb() ==>
               t in d'.txs && d'.txs[t].job == threads'[t].job && d'.txs[t].checksDest == threads'[t].Syncing?
    ensures Transactions(d', threads')
  {
    forall u | u in threads' && threads'[u].InDb()
      ensures u in d'.txs && d'.txs[u].job == threads'[u].job && d'.txs[u].checksDest == threads'[u].Syncing?
    {
      if u != t { assert threads[u] == threads'[u] && d.txs[u] == d'.txs[u]; }
    }
    forall u | u in d'.txs ensures u in threads' && threads'[u].InDb() {
      if u != t { assert u in d.txs && threads[u] == threads'[u]; }
    }
  }

  /** Only the thread that moves can stop being the creator of its row. */
  lemma CreatorsMove(threads: map<ThreadId, Thread>, threads': map<ThreadId, Thread>, t: ThreadId)
    requires SameBut(threads, threads', t)
    ensures forall id <- CreatorIds(threads) ::
              id in CreatorIds(threads') || (t in threads && threads[t].Creating() && threads[t].job.id == id)
  {
    forall id | id in CreatorIds(threads) && !(t in threads && threads[t].Creating() && threads[t].job.id == id)
      ensures id in CreatorIds(threads')
    {
      var u :| u in threads && threads[u].Creating() && threads[u].job.id == id;
      assert u in threads' && threads'[u] == threads[u];
    }
  }

  /** The links of one thread: to its open transaction and to its delivery. */
  predicate Linked(s: State, t: ThreadId) {
    && (t in s.db.txs ==> t in s.threads && s.threads[t].InDb())
    && (t in s.threads && s.threads[t].InDb() ==>
          t in s.db.txs && s.db.txs[t].job == s.threads[t].job && s.db.txs[t].checksDest == s.threads[t].Syncing?)
    && (t in s.broker.unacked ==>
          t in s.threads && s.threads[t].Consuming() && s.threads[t].job == s.broker.unacked[t])
  }

  /** Some part of the system still answers for a row. */
  predicate Owned(s: State, t: ThreadId, id: TxId) {
    || (t in s.threads && s.threads[t].Creating() && s.threads[t].job.id == id)
    || id in MessageIds(s.broker)
    || id in s.orphans
  }

  /** The row is as it was, and `t` was not the one who answered for it. */
  predicate NotOwner(s: State, s': State, t: ThreadId, id: TxId) {
    id in s.rows && id in s'.rows && s'.rows[id] == s.rows[id] && !(t in s.threads && s.threads[t].Creating())
  }

  /** A step of thread `t` on row `id`: what links threads, transactions, deliveries and rows is kept. */
  lemma LinksMove(c: Config, s: State, s': State, t: ThreadId, id: TxId)
    requires Deliveries(s.broker, s.threads) && Transactions(s.db, s.threads) && Accounted(c, s.rows, Owners(s))
    requires SameBut(s.threads, s'.threads, t) && SameBut(s.db.txs, s'.db.txs, t)
    requires SameBut(s.broker.unacked, s'.broker.unacked, t) && SameBut(s.rows, s'.rows, id)
    requires s.broker.published <= s'.broker.published && s.orphans <= s'.orphans
    requires t in s.threads && s.threads[t].Creating() ==> s.threads[t].job.id == id
    requires Linked(s', t)
    requires id in s'.rows && id !in c.seed && s'.rows[id].status == Pending ==> Owned(s', t, id) || NotOwner(s, s', t, id)
    ensures Deliveries(s'.broker, s'.threads) && Transactions(s'.db, s'.threads) && Accounted(c, s'.rows, Owners(s'))
  {
    TransactionsMove(s.db, s'.db, s.threads, s'.threads, t);
    CreatorsMove(s.threads, s'.threads, t);
    DeliveriesMove(s.broker, s'.broker, s.threads, s'.threads, t);
    hide Transactions, Deliveries;
    forall x | x in s'.rows && x !in c.seed && s'.rows[x].status == Pending ensures x in Owners(s') {
      if x != id { assert x in s.rows && s.rows[x] == s'.rows[x] && x in Owners(s); }
    }
  }

  lemma DeliveriesMove(b: Broker, b': Broker, threads: map<ThreadId, Thread>, threads': map<ThreadId, Thread>, t: ThreadId)
    requires Deliveries(b, threads) && SameBut(b.unacked, b'.unacked, t) && SameBut(threads, threads', t)
    requires t in b'.unacked ==> t in threads' && threads'[t].Consuming() && threads'[t].job == b'.unacked[t]
    ensures Deliveries(b', threads')
  {
    forall u | u in b'.unacked
      ensures u in threads' && threads'[u].Consuming() && threads'[u].job == b'.unacked[u]
    {
      if u != t { assert u in b.unacked && u in threads; }
    }
  }

  /** What a thread may rely on. */
  lemma Facts(c: Config, s: State, t: ThreadId)
    requires Inv(c, s) && t in s.threads
    ensures ThreadOk(s.rows, s.broker, t, s.threads[t]) && Linked(s, t)
    ensures Admits(s.threads[t].job.req) && s.threads[t].job.id <= Top(s) && s.threads[t].job.id !in c.seed
    ensures s.threads[t].Consuming() ==>
              && s.threads[t].job.id in MessageIds(s.broker)
              && s.threads[t].job.id in s.rows && s.rows[s.threads[t].job.id].req == s.threads[t].job.req
    ensures forall m <- s.broker.acked + s.broker.dlq :: m.id != s.threads[t].job.id
    ensures s.threads[t].job.id in s.rows ==>
              s.rows[s.threads[t].job.id].req.src in c.open && s.rows[s.threads[t].job.id].req.dst in c.open
  {
    var th := s.threads[t];
    LinkedNow(s, t);
    hide Deliveries, Transactions, Accounted, Database, Journal;
    assert ThreadOk(s.rows, s.broker, t, th);
    if th.Consuming() {
      InProcess(c, s.rows, s.broker, t, th.job);
    } else {
      NotDelivered(s.broker, th.job.id);
    }
  }

  lemma LinkedNow(s: State, t: ThreadId)
    requires Deliveries(s.broker, s.threads) && Transactions(s.db, s.threads) && t in s.threads
    ensures Linked(s, t)
  {
  }

  /** Rows after an UPDATE that leaves the row unfinished, or after an INSERT of a pending row. */
  lemma RowsPut(c: Config, rows: map<TxId, Row>, top: int, journal: seq<Job>, j: Job, status: Status)
    requires Rows(c, rows, top, JobIds(journal)) && Journal(c, rows, journal)
    requires j.id !in c.seed && j.id <= top && status != Completed
    requires Admits(j.req) && j.req.src in c.open && j.req.dst in c.open
    requires j.id in rows ==> rows[j.id].req == j.req && rows[j.id].status != Completed
    ensures Rows(c, rows[j.id := Row(j.req, status)], top, JobIds(journal))
    ensures Journal(c, rows[j.id := Row(j.req, status)], journal)
  {
    assert forall k <- journal :: k.id in rows;
  }

  /** A commit completes a row whose transfer was not in the journal, and puts it there. */
  lemma RowsComplete(c: Config, rows: map<TxId, Row>, top: int, journal: seq<Job>, j: Job)
    requires Rows(c, rows, top, JobIds(journal)) && Journal(c, rows, journal)
    requires j.id !in c.seed && j.id <= top
    requires Admits(j.req) && j.req.src in c.open && j.req.dst in c.open
    requires j.id in rows ==> rows[j.id].req == j.req && rows[j.id].status != Completed
    ensures Rows(c, rows[j.id := Row(j.req, Completed)], top, JobIds(journal + [j]))
    ensures Journal(c, rows[j.id := Row(j.req, Completed)], journal + [j])
    ensures j.id !in JobIds(journal)
  {
    JobIdsAppend(journal, j);
    assert forall k <- journal :: k.id in rows && k.id !in c.seed;
    forall k | 0 <= k < |journal| ensures journal[k].id != j.id {
      assert journal[k].id in JobIds(journal);
    }
  }

  // ---------------------------------------------------------------- every step keeps the invariant

  lemma SubmitKeeps(c: Config, s: State, t: ThreadId, req: Request, now: int, async: bool)
    requires c.Reliable() && c.Valid() && Inv(c, s) && Enabled(c, s, Submit(t, req, now, async))
    ensures Inv(c, Apply(c, s, Submit(t, req, now, async)))
  {
    hide Partition, Messages, Rows, Journal, Threads, Deliveries, Database, Transactions, Accounted, MessageIds, CreatorIds;
    var s' := Apply(c, s, Submit(t, req, now, async));
    var th := s'.threads[t];
    NewIdentifier(c, s, th.job.id);
    NoThread(s, t);
    ThreadsJoin(c, s.rows, s.broker, Top(s), Top(s'), s.threads, t, th);
    RowsTop(c, s.rows, Top(s), Top(s'), JobIds(s.db.journal));
    BeginDatabase(c, s.db, t, th.job, true);
    LinksMove(c, s, s', t, th.job.id);
  }

  /** A number above everything issued so far is in no row, message or thread. */
  lemma NewIdentifier(c: Config, s: State, id: TxId)
    requires c.Valid() && Inv(c, s) && id > Top(s)
    ensures id !in s.rows && id !in c.seed && Unpublished(s.broker, id)
    ensures forall u <- s.threads :: s.threads[u].job.id != id
  {
    hide Partition, Journal, Deliveries, Database, Transactions, Accounted;
  }

  lemma NoThread(s: State, t: ThreadId)
    requires Deliveries(s.broker, s.threads) && Transactions(s.db, s.threads) && t !in s.threads
    ensures t !in s.broker.unacked && t !in s.db.txs
  {
  }

  lemma RowsTop(c: Config, rows: map<TxId, Row>, top: int, top': int, done: set<TxId>)
    requires Rows(c, rows, top, done) && top <= top'
    ensures Rows(c, rows, top', done)
  {
  }

  lemma BeginDatabase(c: Config, d: Locking.Db, t: ThreadId, j: Job, checksDest: bool)
    requires Database(c, d) && t !in d.txs
    ensures Database(c, Locking.Begin(d, t, j, checksDest))
  {
    Locking.BeginConsistent(d, t, j, checksDest);
  }

  lemma SaveRowKeeps(c: Config, s: State, t: ThreadId)
    requires c.Reliable() && c.Valid() && Inv(c, s) && Enabled(c, s, SaveRow(t))
    ensures Inv(c, Apply(c, s, SaveRow(t)))
  {
    hide Partition, Messages, Rows, Journal, Threads, Deliveries, Database, Transactions, Accounted, MessageIds, CreatorIds;
    var s' := Apply(c, s, SaveRow(t));
    var j := s.threads[t].job;
    Facts(c, s, t);
    OpenAccounts(c, s.db);
    RowsPut(c, s.rows, Top(s), s.db.journal, j, Pending);
    MessagesRow(c, s.rows, s'.rows, s.broker, j.id);
    ThreadsMove(c, s.rows, s'.rows, s.broker, Top(s), s.threads, t, s'.threads[t]);
    LinksMove(c, s, s', t, j.id);
  }

  lemma OpenAccounts(c: Config, d: Locking.Db)
    requires Database(c, d)
    ensures d.bal.Keys == c.open.Keys
  {
  }

  lemma SaveFailsKeeps(c: Config, s: State, t: ThreadId, inserted: bool)
    requires c.Reliable() && c.Valid() && Inv(c, s) && Enabled(c, s, SaveFails(t, inserted))
    ensures Inv(c, Apply(c, s, SaveFails(t, inserted)))
  {
    hide Partition, Messages, Rows, Journal, Threads, Deliveries, Database, Transactions, Accounted, MessageIds, CreatorIds;
    var s' := Apply(c, s, SaveFails(t, inserted));
    var j := s.threads[t].job;
    Facts(c, s, t);
    OpenAccounts(c, s.db);
    if inserted { RowsPut(c, s.rows, Top(s), s.db.journal, j, Pending); }
    MessagesRow(c, s.rows, s'.rows, s.broker, j.id);
    ThreadsLeave(c, s.rows, s'.rows, s.broker, Top(s), s.threads, t);
    LinksMove(c, s, s', t, j.id);
  }

  lemma PublishOkKeeps(c: Config, s: State, t: ThreadId)
    requires c.Reliable() && c.Valid() && Inv(c, s) && Enabled(c, s, PublishOk(t))
    ensures Inv(c, Apply(c, s, PublishOk(t)))
  {
    hide Partition, Messages, Rows, Journal, Threads, Deliveries, Database, Transactions, Accounted, MessageIds, CreatorIds;
    var s' := Apply(c, s, PublishOk(t));
    var j := s.threads[t].job;
    Facts(c, s, t);
    Enqueue(c, s.rows, s.broker, j);
    ThreadsLeave(c, s.rows, s.rows, s.broker, Top(s), s.threads, t);
    ThreadsEnqueue(c, s.rows, s.broker, j, Top(s), s'.threads);
    LinksMove(c, s, s', t, j.id);
  }

  /** A published message is new: no message is ever merged with another. */
  lemma Enqueue(c: Config, rows: map<TxId, Row>, b: Broker, j: Job)
    requires Partition(b) && Messages(c, rows, b)
    requires Unpublished(b, j.id) && RowIs(rows, j, Pending) && j.id !in c.seed
    ensures j !in b.published
    ensures Partition(Enqueued(b, j)) && Messages(c, rows, Enqueued(b, j)) && j.id in MessageIds(Enqueued(b, j))
  {
    assert j in Enqueued(b, j).published;
  }

  lemma ThreadsEnqueue(c: Config, rows: map<TxId, Row>, b: Broker, j: Job, top: int, threads: map<ThreadId, Thread>)
    requires Threads(c, rows, b, top, threads) && forall u <- threads :: threads[u].job.id != j.id
    ensures Threads(c, rows, Enqueued(b, j), top, threads)
  {
    forall u | u in threads
      ensures threads[u].Consuming() ==> Holds(Enqueued(b, j), u, threads[u].job)
      ensures !threads[u].Consuming() ==> Unpublished(Enqueued(b, j), threads[u].job.id)
    {
      assert ThreadOk(rows, b, u, threads[u]);
    }
    ThreadsBroker(c, rows, b, Enqueued(b, j), top, threads);
  }

  lemma PublishLostKeeps(c: Config, s: State, t: ThreadId)
    requires c.Reliable() && c.Valid() && Inv(c, s) && Enabled(c, s, PublishLost(t))
    ensures Inv(c, Apply(c, s, PublishLost(t)))
  {
    hide Partition, Messages, Rows, Journal, Threads, Deliveries, Database, Transactions, Accounted, MessageIds, CreatorIds;
    var s' := Apply(c, s, PublishLost(t));
    Facts(c, s, t);
    ThreadsLeave(c, s.rows, s.rows, s.broker, Top(s), s.threads, t);
    LinksMove(c, s, s', t, s.threads[t].job.id);
  }

  lemma PublishFailsKeeps(c: Config, s: State, t: ThreadId, enqueued: bool)
    requires c.Reliable() && c.Valid() && Inv(c, s) && Enabled(c, s, PublishFails(t, enqueued))
    ensures Inv(c, Apply(c, s, PublishFails(t, enqueued)))
  {
    hide Partition, Messages, Rows, Journal, Threads, Deliveries, Database, Transactions, Accounted, MessageIds, CreatorIds;
    var s' := Apply(c, s, PublishFails(t, enqueued));
    Facts(c, s, t);
    ThreadsMove(c, s.rows, s.rows, s.broker, Top(s), s.threads, t, s'.threads[t]);
    LinksMove(c, s, s', t, s.threads[t].job.id);
  }

  lemma MarkUnpublishedKeeps(c: Config, s: State, t: ThreadId, updated: bool)
    requires c.Reliable() && c.Valid() && Inv(c, s) && Enabled(c, s, MarkUnpublished(t, updated))
    ensures Inv(c, Apply(c, s, MarkUnpublished(t, updated)))
  {
    hide Partition, Messages, Rows, Journal, Threads, Deliveries, Database, Transactions, Accounted, MessageIds, CreatorIds;
    var s' := Apply(c, s, MarkUnpublished(t, updated));
    var j := s.threads[t].job;
    Facts(c, s, t);
    if updated { RowsPut(c, s.rows, Top(s), s.db.journal, j, Failed); }
    MessagesRow(c, s.rows, s'.rows, s.broker, j.id);
    ThreadsLeave(c, s.rows, s'.rows, s.broker, Top(s), s.threads, t);
    LinksMove(c, s, s', t, j.id);
  }

  lemma DeliverKeeps(c: Config, s: State, t: ThreadId, m: Job)
    requires c.Reliable() && c.Valid() && Inv(c, s) && Enabled(c, s, Deliver(t, m))
    ensures Inv(c, Apply(c, s, Deliver(t, m)))
  {
    hide Partition, Messages, Rows, Journal, Threads, Deliveries, Database, Transactions, Accounted, MessageIds, CreatorIds;
    var s' := Apply(c, s, Deliver(t, m));
    NoThread(s, t);
    ReadyMessage(c, s, m);
    DeliverBroker(s.broker, t, m);
    DeliverMessages(c, s.rows, s.broker, t, m);
    ThreadsDeliver(c, s.rows, s.broker, t, m, Top(s), s.threads);
    ThreadsJoin(c, s.rows, s'.broker, Top(s), Top(s), s.threads, t, Checking(m));
    LinksMove(c, s, s', t, m.id);
  }

  lemma ReadyMessage(c: Config, s: State, m: Job)
    requires Inv(c, s) && m in s.broker.ready
    ensures m in s.broker.published && m.id in MessageIds(s.broker)
    ensures Admits(m.req) && m.id <= Top(s) && m.id !in c.seed
    ensures forall u <- s.threads :: !s.threads[u].Consuming() ==> s.threads[u].job.id != m.id
  {
    hide Journal, Deliveries, Database, Transactions, Accounted;
    forall u | u in s.threads && !s.threads[u].Consuming() ensures s.threads[u].job.id != m.id {
      assert ThreadOk(s.rows, s.broker, u, s.threads[u]);
    }
  }

  function Delivered(b: Broker, t: ThreadId, m: Job): Broker {
    b.(ready := b.ready - {m}, unacked := b.unacked[t := m])
  }

  lemma DeliverBroker(b: Broker, t: ThreadId, m: Job)
    requires Partition(b) && m in b.ready && t !in b.unacked
    ensures Partition(Delivered(b, t, m))
    ensures MessageIds(Delivered(b, t, m)) == MessageIds(b)
  {
    assert b.unacked[t := m].Values == b.unacked.Values + {m} by {
      forall x | x in b.unacked.Values + {m} ensures x in b.unacked[t := m].Values {
        if x == m { assert b.unacked[t := m][t] == m; }
        else { var u :| u in b.unacked && b.unacked[u] == x; assert b.unacked[t := m][u] == x; }
      }
    }
  }

  lemma DeliverMessages(c: Config, rows: map<TxId, Row>, b: Broker, t: ThreadId, m: Job)
    requires Messages(c, rows, b)
    ensures Messages(c, rows, Delivered(b, t, m))
  {
  }

  lemma ThreadsDeliver(c: Config, rows: map<TxId, Row>, b: Broker, t: ThreadId, m: Job, top: int, threads: map<ThreadId, Thread>)
    requires Threads(c, rows, b, top, threads) && t !in threads && forall u <- threads :: threads[u].job.id != m.id
    ensures Threads(c, rows, Delivered(b, t, m), top, threads)
  {
    forall u | u in threads
      ensures threads[u].Consuming() ==> Holds(Delivered(b, t, m), u, threads[u].job)
      ensures !threads[u].Consuming() ==> Unpublished(Delivered(b, t, m), threads[u].job.id)
    {
      assert ThreadOk(rows, b, u, threads[u]);
    }
    ThreadsBroker(c, rows, b, Delivered(b, t, m), top, threads);
  }

  lemma ReadStatusKeeps(c: Config, s: State, t: ThreadId, seen: Option<Status>)
    requires c.Reliable() && c.Valid() && Inv(c, s) && Enabled(c, s, ReadStatus(t, seen))
    ensures Inv(c, Apply(c, s, ReadStatus(t, seen)))
  {
    hide Partition, Messages, Rows, Journal, Threads, Deliveries, Database, Transactions, Accounted, MessageIds, CreatorIds;
    var s' := Apply(c, s, ReadStatus(t, seen));
    var j := s.threads[t].job;
    Facts(c, s, t);
    if seen != Some(Completed) { BeginDatabase(c, s.db, t, j, false); }
    ThreadsMove(c, s.rows, s.rows, s.broker, Top(s), s.threads, t, s'.threads[t]);
    LinksMove(c, s, s', t, j.id);
  }

  /** A failed database transaction only moves its thread on. */
  lemma FailureKeeps(c: Config, s: State, s': State, t: ThreadId, d: Locking.Db)
    requires c.Reliable() && c.Valid() && Inv(c, s) && t in s.threads && s.threads[t].InDb()
    requires Database(c, d) && d.journal == s.db.journal && SameBut(s.db.txs, d.txs, t) && t !in d.txs
    requires s' == AfterDbFailure(s.(db := d), t)
    ensures Inv(c, s')
  {
    hide Partition, Messages, Rows, Journal, Threads, Deliveries, Database, Transactions, Accounted, MessageIds, CreatorIds;
    Facts(c, s, t);
    if s.threads[t].Settling? {
      ThreadsMove(c, s.rows, s.rows, s.broker, Top(s), s.threads, t, s'.threads[t]);
    } else {
      ThreadsLeave(c, s.rows, s.rows, s.broker, Top(s), s.threads, t);
    }
    LinksMove(c, s, s', t, s.threads[t].job.id);
  }

  lemma StatementKeeps(c: Config, s: State, t: ThreadId)
    requires c.Reliable() && c.Valid() && Inv(c, s) && Enabled(c, s, Statement(t))
    ensures Inv(c, Apply(c, s, Statement(t)))
  {
    hide Partition, Messages, Rows, Journal, Threads, Deliveries, Database, Transactions, Accounted, MessageIds, CreatorIds;
    var s' := Apply(c, s, Statement(t));
    var d := Locking.Execute(s.db, t);
    Facts(c, s, t);
    StatementDatabase(c, s.db, t);
    if t in d.txs {
      LinksMove(c, s, s', t, s.threads[t].job.id);
    } else {
      FailureKeeps(c, s, s', t, d);
    }
  }

  lemma StatementDatabase(c: Config, d: Locking.Db, t: ThreadId)
    requires Database(c, d) && Locking.Enabled(d, Locking.Statement(t))
    ensures var d' := Locking.Execute(d, t);
            && Database(c, d') && d'.journal == d.journal && SameBut(d.txs, d'.txs, t)
            && (t in d'.txs ==> d'.txs[t].job == d.txs[t].job && d'.txs[t].checksDest == d.txs[t].checksDest)
  {
    Locking.ExecuteConsistent(d, t);
    Locking.StatementCommitsNothing(d, t);
    if t in Locking.Execute(d, t).txs { Locking.OwnChange(d, t); }
    hide Locking.Consistent;
  }

  lemma DbErrorKeeps(c: Config, s: State, t: ThreadId)
    requires c.Reliable() && c.Valid() && Inv(c, s) && Enabled(c, s, DbError(t))
    ensures Inv(c, Apply(c, s, DbError(t)))
  {
    hide Partition, Messages, Rows, Journal, Threads, Deliveries, Database, Transactions, Accounted, MessageIds, CreatorIds;
    RollbackDatabase(c, s.db, t);
    FailureKeeps(c, s, Apply(c, s, DbError(t)), t, Locking.Rollback(s.db, t));
  }

  lemma RollbackDatabase(c: Config, d: Locking.Db, t: ThreadId)
    requires Database(c, d)
    ensures Database(c, Locking.Rollback(d, t))
  {
    Locking.RollbackConsistent(d, t);
    hide Locking.Consistent;
  }

  lemma CommitFailsKeeps(c: Config, s: State, t: ThreadId, applied: bool)
    requires c.Reliable() && c.Valid() && Inv(c, s) && Enabled(c, s, CommitFails(t, applied))
    ensures Inv(c, Apply(c, s, CommitFails(t, applied)))
  {
    hide Partition, Messages, Rows, Journal, Threads, Deliveries, Database, Transactions, Accounted, MessageIds, CreatorIds;
    RollbackDatabase(c, s.db, t);
    FailureKeeps(c, s, Apply(c, s, CommitFails(t, applied)), t, Locking.Rollback(s.db, t));
  }

  /** What a thread at COMMIT knows: both accounts exist, and its row, if it has one, is not completed yet. */
  lemma AtCommit(c: Config, s: State, t: ThreadId)
    requires c.Reliable() && c.Valid() && Inv(c, s) && Enabled(c, s, Commit(t))
    ensures t in s.threads && t in s.db.txs
    ensures var j := s.threads[t].job;
            && s.db.txs[t].job == j && j.req.src in c.open && j.req.dst in c.open
            && (s.threads[t].Settling? <==> j.id in s.rows)
            && (j.id in s.rows ==> s.rows[j.id].req == j.req && s.rows[j.id].status != Completed)
            && Recorded(s.rows, s.threads[t]) == s.rows[j.id := Row(j.req, Completed)]
  {
    hide Partition, Messages, Rows, Journal, Threads, Deliveries, Database, Transactions, Accounted, MessageIds, CreatorIds;
    Facts(c, s, t);
    OpenAccounts(c, s.db);
    CommitFacts(c, s.db, t);
  }

  lemma CommitFacts(c: Config, d: Locking.Db, t: ThreadId)
    requires Database(c, d) && Locking.Enabled(d, Locking.Finish(t))
    ensures Database(c, Locking.CommitTx(d, t))
    ensures Locking.CommitTx(d, t).bal == Post(d.bal, d.txs[t].job.req) && Covered(d.bal, d.txs[t].job.req)
    ensures d.txs[t].checksDest ==> d.txs[t].job.req.dst in d.bal
  {
    Locking.CommitIsPost(d, t);
    Locking.CommitConsistent(d, t);
    CentsPost(d.bal, d.txs[t].job);
    hide Locking.Consistent, PostBy, Payable;
    ReplayAppend(c.open, d.journal, d.txs[t].job);
  }

  lemma CommitKeeps(c: Config, s: State, t: ThreadId)
    requires c.Reliable() && c.Valid() && Inv(c, s) && Enabled(c, s, Commit(t))
    ensures Inv(c, Apply(c, s, Commit(t)))
  {
    hide Partition, Messages, Rows, Journal, Threads, Deliveries, Database, Transactions, Accounted, MessageIds, CreatorIds;
    var s' := Apply(c, s, Commit(t));
    var j := s.threads[t].job;
    AtCommit(c, s, t);
    Facts(c, s, t);
    CommitFacts(c, s.db, t);
    RowsComplete(c, s.rows, Top(s), s.db.journal, j);
    MessagesRow(c, s.rows, s'.rows, s.broker, j.id);
    ThreadsMove(c, s.rows, s'.rows, s.broker, Top(s), s.threads, t, s'.threads[t]);
    LinksMove(c, s, s', t, j.id);
  }

  lemma InvalidateKeeps(c: Config, s: State, t: ThreadId)
    requires c.Reliable() && c.Valid() && Inv(c, s) && Enabled(c, s, Invalidate(t))
    ensures Inv(c, Apply(c, s, Invalidate(t)))
  {
    hide Partition, Messages, Rows, Journal, Threads, Deliveries, Database, Transactions, Accounted, MessageIds, CreatorIds;
    var s' := Apply(c, s, Invalidate(t));
    Facts(c, s, t);
    if s.threads[t].SyncDel? {
      ThreadsLeave(c, s.rows, s.rows, s.broker, Top(s), s.threads, t);
    } else {
      ThreadsMove(c, s.rows, s.rows, s.broker, Top(s), s.threads, t, s'.threads[t]);
    }
    LinksMove(c, s, s', t, s.threads[t].job.id);
  }

  lemma MarkFailedKeeps(c: Config, s: State, t: ThreadId, updated: bool)
    requires c.Reliable() && c.Valid() && Inv(c, s) && Enabled(c, s, MarkFailed(t, updated))
    ensures Inv(c, Apply(c, s, MarkFailed(t, updated)))
  {
    hide Partition, Messages, Rows, Journal, Threads, Deliveries, Database, Transactions, Accounted, MessageIds, CreatorIds;
    var s' := Apply(c, s, MarkFailed(t, updated));
    var j := s.threads[t].job;
    Facts(c, s, t);
    if updated { RowsPut(c, s.rows, Top(s), s.db.journal, j, Failed); }
    MessagesRow(c, s.rows, s'.rows, s.broker, j.id);
    ThreadsMove(c, s.rows, s'.rows, s.broker, Top(s), s.threads, t, s'.threads[t]);
    LinksMove(c, s, s', t, j.id);
  }

  /** Acknowledging, rejecting or returning a delivery moves one message from unacknowledged to another part. */
  lemma UnackedWithout(b: Broker, t: ThreadId)
    requires Partition(b) && t in b.unacked
    ensures (b.unacked - {t}).Values == b.unacked.Values - {b.unacked[t]}
    ensures b.unacked[t] in b.unacked.Values
  {
    forall x | x in b.unacked.Values && x != b.unacked[t] ensures x in (b.unacked - {t}).Values {
      var u :| u in b.unacked && b.unacked[u] == x;
      assert (b.unacked - {t})[u] == x;
    }
  }

  predicate Releases(b: Broker, b': Broker, t: ThreadId) {
    b' == Acknowledged(b, t) || b' == Rejected(b, t) || b' == Returned(b, t)
  }

  lemma ReleaseBroker(b: Broker, b': Broker, t: ThreadId)
    requires Partition(b) && Releases(b, b', t)
    ensures Partition(b') && b'.published == b.published && b'.unacked == b.unacked - {t}
  {
    if t in b.unacked { UnackedWithout(b, t); }
  }

  lemma ReleaseMessages(c: Config, rows: map<TxId, Row>, b: Broker, b': Broker, t: ThreadId)
    requires Messages(c, rows, b) && Releases(b, b', t)
    requires b' == Acknowledged(b, t) && t in b.unacked ==> RowIs(rows, b.unacked[t], Completed)
    requires b' == Rejected(b, t) && t in b.unacked ==> Unfinished(rows, b.unacked[t])
    ensures Messages(c, rows, b')
  {
  }

  /** The delivery of thread `t` is released: nobody else notices, and if it was returned nor does `t`. */
  lemma ThreadsRelease(c: Config, rows: map<TxId, Row>, b: Broker, b': Broker, t: ThreadId, top: int, threads: map<ThreadId, Thread>)
    requires Releases(b, b', t) && b'.published == b.published
    requires Threads(c, rows, b, top, threads) && (t !in threads || b' == Returned(b, t))
    ensures Threads(c, rows, b', top, threads)
  {
    forall u | u in threads
      ensures threads[u].Consuming() ==> Holds(b', u, threads[u].job)
      ensures !threads[u].Consuming() ==> Unpublished(b', threads[u].job.id)
    {
      assert ThreadOk(rows, b, u, threads[u]);
    }
    ThreadsBroker(c, rows, b, b', top, threads);
  }

  lemma AckKeeps(c: Config, s: State, t: ThreadId)
    requires c.Reliable() && c.Valid() && Inv(c, s) && Enabled(c, s, Ack(t))
    ensures Inv(c, Apply(c, s, Ack(t)))
  {
    hide Partition, Messages, Rows, Journal, Threads, Deliveries, Database, Transactions, Accounted, MessageIds, CreatorIds;
    var s' := Apply(c, s, Ack(t));
    Facts(c, s, t);
    ReleaseBroker(s.broker, s'.broker, t);
    ReleaseMessages(c, s.rows, s.broker, s'.broker, t);
    ThreadsLeave(c, s.rows, s.rows, s.broker, Top(s), s.threads, t);
    ThreadsRelease(c, s.rows, s.broker, s'.broker, t, Top(s), s'.threads);
    LinksMove(c, s, s', t, s.threads[t].job.id);
  }

  lemma NackKeeps(c: Config, s: State, t: ThreadId)
    requires c.Reliable() && c.Valid() && Inv(c, s) && Enabled(c, s, Nack(t))
    ensures Inv(c, Apply(c, s, Nack(t)))
  {
    hide Partition, Messages, Rows, Journal, Threads, Deliveries, Database, Transactions, Accounted, MessageIds, CreatorIds;
    var s' := Apply(c, s, Nack(t));
    Facts(c, s, t);
    MessagesStay(s.broker, s'.broker);
    ReleaseBroker(s.broker, s'.broker, t);
    ReleaseMessages(c, s.rows, s.broker, s'.broker, t);
    ThreadsLeave(c, s.rows, s.rows, s.broker, Top(s), s.threads, t);
    ThreadsRelease(c, s.rows, s.broker, s'.broker, t, Top(s), s'.threads);
    LinksMove(c, s, s', t, s.threads[t].job.id);
  }

  lemma MessagesStay(b: Broker, b': Broker)
    requires b'.published == b.published
    ensures MessageIds(b') == MessageIds(b)
  {
  }

  lemma CrashKeeps(c: Config, s: State, t: ThreadId)
    requires c.Reliable() && c.Valid() && Inv(c, s) && Enabled(c, s, Crash(t))
    ensures Inv(c, Apply(c, s, Crash(t)))
  {
    hide Partition, Messages, Rows, Journal, Threads, Deliveries, Database, Transactions, Accounted, MessageIds, CreatorIds;
    var s' := Apply(c, s, Crash(t));
    Facts(c, s, t);
    MessagesStay(s.broker, s'.broker);
    RollbackDatabase(c, s.db, t);
    ReleaseBroker(s.broker, s'.broker, t);
    ReleaseMessages(c, s.rows, s.broker, s'.broker, t);
    ThreadsLeave(c, s.rows, s.rows, s.broker, Top(s), s.threads, t);
    ThreadsRelease(c, s.rows, s.broker, s'.broker, t, Top(s), s'.threads);
    LinksMove(c, s, s', t, s.threads[t].job.id);
  }

  lemma RequeueKeeps(c: Config, s: State, t: ThreadId)
    requires c.Reliable() && c.Valid() && Inv(c, s) && Enabled(c, s, Requeue(t))
    ensures Inv(c, Apply(c, s, Requeue(t)))
  {
    hide Partition, Messages, Rows, Journal, Threads, Deliveries, Database, Transactions, Accounted, MessageIds, CreatorIds;
    var s' := Apply(c, s, Requeue(t));
    Consumer(s, t);
    Facts(c, s, t);
    MessagesStay(s.broker, s'.broker);
    ReleaseBroker(s.broker, s'.broker, t);
    ReleaseMessages(c, s.rows, s.broker, s'.broker, t);
    ThreadsRelease(c, s.rows, s.broker, s'.broker, t, Top(s), s.threads);
    LinksMove(c, s, s', t, s.threads[t].job.id);
  }

  lemma Consumer(s: State, t: ThreadId)
    requires Deliveries(s.broker, s.threads) && t in s.broker.unacked
    ensures t in s.threads
  {
  }

  lemma StepKeeps(c: Config, s: State, a: Action)
    requires c.Reliable() && c.Valid() && Inv(c, s) && Enabled(c, s, a)
    ensures Inv(c, Apply(c, s, a))
  {
    hide Partition, Messages, Rows, Journal, Threads, Deliveries, Database, Transactions, Accounted, MessageIds, CreatorIds;
    match a
    case Submit(t, req, now, async) => SubmitKeeps(c, s, t, req, now, async);
    case SaveRow(t) => SaveRowKeeps(c, s, t);
    case SaveFails(t, inserted) => SaveFailsKeeps(c, s, t, inserted);
    case PublishOk(t) => PublishOkKeeps(c, s, t);
    case PublishLost(t) => PublishLostKeeps(c, s, t);
    case PublishFails(t, enqueued) => PublishFailsKeeps(c, s, t, enqueued);
    case MarkUnpublished(t, updated) => MarkUnpublishedKeeps(c, s, t, updated);
    case Deliver(t, m) => DeliverKeeps(c, s, t, m);
    case ReadStatus(t, seen) => ReadStatusKeeps(c, s, t, seen);
    case Statement(t) => StatementKeeps(c, s, t);
    case DbError(t) => DbErrorKeeps(c, s, t);
    case Commit(t) => CommitKeeps(c, s, t);
    case CommitFails(t, applied) => CommitFailsKeeps(c, s, t, applied);
    case Invalidate(t) => InvalidateKeeps(c, s, t);
    case MarkFailed(t, updated) => MarkFailedKeeps(c, s, t, updated);
    case Ack(t) => AckKeeps(c, s, t);
    case Nack(t) => NackKeeps(c, s, t);
    case Crash(t) => CrashKeeps(c, s, t);
    case Requeue(t) => RequeueKeeps(c, s, t);
    case Restart =>
  }

  lemma InitInv(c: Config)
    requires c.Valid()
    ensures Inv(c, Init(c))
  {
  }

  /** The invariant holds in every reachable state. */
  lemma {:induction false} RunInv(c: Config, acts: seq<Action>)
    requires c.Reliable() && c.Valid() && Run(c, acts).Some?
    ensures Inv(c, Run(c, acts).value)
  {
    hide Inv;
    if acts == [] {
      InitInv(c);
    } else {
      RunInv(c, acts[..|acts| - 1]);
      StepKeeps(c, Run(c, acts[..|acts| - 1]).value, acts[|acts| - 1]);
    }
  }
}
