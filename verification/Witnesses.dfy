/** Each assumption is needed: without it alone, some run commits one identifier twice. And a run in which all hold
    that completes a row after it failed. */
module Witnesses {
  import opened Domain
  import opened Ledger
  import opened Protocol
  import opened Uncontended
  import Finality
  import Guarantees
  import Locking
  import Unconditional
  import IdText

  // ---------------------------------------------------------------- the runs

  const OPEN := map[1 := 100, 2 := 0]
  const ID: int := IdText.SEEDED
  const JOB := Job(ID, Request(1, 2, 5))
  const AFTER1 := map[1 := 95, 2 := 5]
  const AFTER2 := map[1 := 90, 2 := 10]

  /** Every assumption but the `k`th. */
  function Without(k: nat): Config {
    Config(OPEN, map[], k != 1, k != 2, k != 3, k != 4, k != 5)
  }

  /** The state between steps, when the only row has the given status. */
  function OneRow(bal: Balances, journal: seq<Job>, status: Status, threads: map<ThreadId, Thread>, broker: Broker): State {
    State(Locking.Db(bal, map[], map[], journal), map[ID := Row(JOB.req, status)], threads, broker, ID, IdText.SEEDED - 1, {})
  }

  const READY := Broker({JOB}, map[], {}, {}, {JOB})
  const TAKEN := Broker({}, map[1 := JOB], {}, {}, {JOB})

  lemma SavedRun(k: nat) returns (acts: seq<Action>)
    ensures Run(Without(k), acts) == Some(OneRow(OPEN, [], Pending, map[0 := Publishing(JOB)], Broker({}, map[], {}, {}, {})))
    ensures AllWork(acts)
  {
    hide Run, AllWork;
    var c := Without(k);
    NoActions(c);
    var s0 := Init(c);
    var s1 := s0.(counter := ID, threads := map[0 := Saving(JOB)]);
    acts := Extend(c, [], s0, Submit(0, JOB.req, ID, true));
    acts := Extend(c, acts, s1, SaveRow(0));
    assert Apply(c, s1, SaveRow(0)) == OneRow(OPEN, [], Pending, map[0 := Publishing(JOB)], s1.broker);
  }

  lemma PublishedRun(k: nat) returns (acts: seq<Action>)
    ensures Run(Without(k), acts) == Some(OneRow(OPEN, [], Pending, map[], READY)) && AllWork(acts)
  {
    hide Run, AllWork;
    acts := SavedRun(k);
    var s := OneRow(OPEN, [], Pending, map[0 := Publishing(JOB)], Broker({}, map[], {}, {}, {}));
    acts := Extend(Without(k), acts, s, PublishOk(0));
    assert s.threads - {0} == map[];
    assert Enqueued(s.broker, JOB) == READY;
  }

  /** A delivery of the ready message to goroutine 1, whose read shows the row unfinished. */
  lemma DeliveredRun(k: nat, acts: seq<Action>, s: State, seen: Option<Status>) returns (longer: seq<Action>)
    requires Run(Without(k), acts) == Some(s) && s.broker == READY && 1 !in s.threads
    requires forall u <- s.threads :: !s.threads[u].Consuming()
    requires seen != Some(Completed) && (k != 1 ==> seen == StatusOf(s, ID))
    ensures Run(Without(k), longer) ==
            Some(s.(broker := TAKEN, threads := s.threads[1 := Settling(JOB)], db := Locking.Begin(s.db, 1, JOB, false)))
    ensures longer == acts + [Deliver(1, JOB), ReadStatus(1, seen)]
  {
    hide AllWork, Works;
    var s1 := s.(broker := TAKEN, threads := s.threads[1 := Checking(JOB)]);
    longer := Extend(Without(k), acts, s, Deliver(1, JOB));
    assert Run(Without(k), longer).value == s1;
    longer := Extend(Without(k), longer, s1, ReadStatus(1, seen));
    assert s1.threads[1 := Settling(JOB)] == s.threads[1 := Settling(JOB)];
  }

  /** Deliver and settle once, whatever the other goroutines are about to do. */
  lemma DeliveredAndSettled(k: nat, acts: seq<Action>, bal: Balances, journal: seq<Job>, was: Status,
                            threads: map<ThreadId, Thread>, seen: Option<Status>)
      returns (longer: seq<Action>)
    requires 1 in bal && 2 in bal && bal[1] >= 5 && 1 !in threads && forall u <- threads :: !threads[u].Consuming()
    requires Run(Without(k), acts) == Some(OneRow(bal, journal, was, threads, READY))
    requires seen != Some(Completed) && (k != 1 ==> seen == Some(was))
    ensures Run(Without(k), longer) ==
            Some(OneRow(Post(bal, JOB.req), journal + [JOB], Completed, threads[1 := DelBalances(JOB)], TAKEN))
  {
    hide Run, Apply, Enabled, AllWork, Works;
    var s := OneRow(bal, journal, was, threads, READY);
    longer := DeliveredRun(k, acts, s, seen);
    var s1 := s.(broker := TAKEN, threads := threads[1 := Settling(JOB)], db := Locking.Begin(s.db, 1, JOB, false));
    longer := GoesThrough(Without(k), longer, s1, 1);
    assert AfterCommit(Atomically(s1, 1), 1) ==
           OneRow(Post(bal, JOB.req), journal + [JOB], Completed, threads[1 := DelBalances(JOB)], TAKEN);
  }

  /** Deliver, settle once, and crash before the acknowledgement. */
  lemma SettledAndCrashed(k: nat, acts: seq<Action>, bal: Balances, journal: seq<Job>, was: Status, seen: Option<Status>)
      returns (longer: seq<Action>)
    requires 1 in bal && 2 in bal && bal[1] >= 5
    requires Run(Without(k), acts) == Some(OneRow(bal, journal, was, map[], READY))
    requires seen != Some(Completed) && (k != 1 ==> seen == Some(was))
    ensures Run(Without(k), longer) == Some(OneRow(Post(bal, JOB.req), journal + [JOB], Completed, map[], READY))
  {
    hide Run, AllWork, Works;
    longer := DeliveredAndSettled(k, acts, bal, journal, was, map[], seen);
    var s2 := OneRow(Post(bal, JOB.req), journal + [JOB], Completed, map[1 := DelBalances(JOB)], TAKEN);
    assert map[][1 := DelBalances(JOB)] == s2.threads;
    longer := Extend(Without(k), longer, s2, Crash(1));
    CrashedState(Without(k), s2, OneRow(Post(bal, JOB.req), journal + [JOB], Completed, map[], READY));
  }

  lemma CrashedState(c: Config, s: State, s': State)
    requires 1 in s.threads && s.threads - {1} == map[] && !s.threads[1].Creating() && s.broker == TAKEN
    requires s.db.locks == map[] && s.db.txs == map[] && s' == s.(threads := map[], broker := READY)
    ensures Apply(c, s, Crash(1)) == s'
  {
    assert Locking.Rollback(s.db, 1) == s.db;
    assert Returned(TAKEN, 1) == READY;
  }

  /** Without A1: the read fails (or is stale) after a crash between commit and ack, and the transfer runs again. */
  lemma StaleReadPaysTwice() returns (acts: seq<Action>)
    ensures Run(Without(1), acts).Some?
    ensures var s := Run(Without(1), acts).value; Guarantees.Commits(s.db.journal, ID) == 2 && s.db.bal == AFTER2
  {
    hide Run, AllWork, Works;
    acts := PublishedRun(1);
    acts := SettledAndCrashed(1, acts, OPEN, [], Pending, Some(Pending));
    assert Post(OPEN, JOB.req) == AFTER1 && [] + [JOB] == [JOB];
    acts := SettledAndCrashed(1, acts, AFTER1, [JOB], Completed, None);
    assert Post(AFTER1, JOB.req) == AFTER2;
    TwoCommits(JOB, JOB);
  }

  /** Without A2: the delivery is returned while its goroutine lives, and both deliveries settle. */
  lemma ConcurrentDeliveriesPayTwice() returns (acts: seq<Action>)
    ensures Run(Without(2), acts).Some?
    ensures var s := Run(Without(2), acts).value; Guarantees.Commits(s.db.journal, ID) == 2 && s.db.bal == AFTER2
  {
    hide Run, Apply, Enabled, AllWork, Works;
    acts := BothSettling();
    var s := TwoSettling();
    acts := GoesThrough(Without(2), acts, s, 1);
    var s1 := AfterCommit(Atomically(s, 1), 1);
    assert s1.db.bal == AFTER1 && s1.db.journal == [JOB];
    acts := GoesThrough(Without(2), acts, s1, 2);
    assert Post(AFTER1, JOB.req) == AFTER2;
    TwoCommits(JOB, JOB);
  }

  function TwoSettling(): State {
    OneRow(OPEN, [], Pending, map[1 := Settling(JOB), 2 := Settling(JOB)], Broker({}, map[2 := JOB], {}, {}, {JOB}))
      .(db := Locking.Begin(Locking.Begin(Locking.Fresh(OPEN), 1, JOB, false), 2, JOB, false))
  }

  lemma BothSettling() returns (acts: seq<Action>)
    ensures Run(Without(2), acts) == Some(TwoSettling())
  {
    hide Run, AllWork, Works;
    var c := Without(2);
    acts := PublishedRun(2);
    acts := DeliveredRun(2, acts, OneRow(OPEN, [], Pending, map[], READY), Some(Pending));
    var d := Locking.Begin(Locking.Fresh(OPEN), 1, JOB, false);
    var s1 := OneRow(OPEN, [], Pending, map[1 := Settling(JOB)], TAKEN).(db := d);
    acts := Extend(c, acts, s1, Requeue(1));
    assert Returned(TAKEN, 1) == READY;
    var s2 := s1.(broker := READY);
    acts := Extend(c, acts, s2, Deliver(2, JOB));
    var s3 := s2.(threads := map[1 := Settling(JOB), 2 := Checking(JOB)], broker := Broker({}, map[2 := JOB], {}, {}, {JOB}));
    assert Apply(c, s2, Deliver(2, JOB)) == s3;
    acts := Extend(c, acts, s3, ReadStatus(2, Some(Pending)));
    assert Apply(c, s3, ReadStatus(2, Some(Pending))) == TwoSettling();
  }

  lemma EnqueuedAnyway() returns (acts: seq<Action>)
    ensures Run(Without(3), acts) == Some(OneRow(OPEN, [], Pending, map[0 := MarkingUnpublished(JOB)], READY))
  {
    hide Run, AllWork, Works;
    acts := SavedRun(3);
    var s0 := OneRow(OPEN, [], Pending, map[0 := Publishing(JOB)], Broker({}, map[], {}, {}, {}));
    acts := Extend(Without(3), acts, s0, PublishFails(0, true));
    assert Enqueued(s0.broker, JOB) == READY;
    assert s0.threads[0 := MarkingUnpublished(JOB)] == map[0 := MarkingUnpublished(JOB)];
  }

  /** Without A3: the message was enqueued after all; the creator overwrites "completed" with "failed". */
  lemma FalsePublishErrorPaysTwice() returns (acts: seq<Action>)
    ensures Run(Without(3), acts).Some?
    ensures var s := Run(Without(3), acts).value; Guarantees.Commits(s.db.journal, ID) == 2 && s.db.bal == AFTER2
  {
    hide Run, Apply, Enabled, AllWork, Works;
    acts := EnqueuedAnyway();
    var creator := map[0 := MarkingUnpublished(JOB)];
    acts := DeliveredAndSettled(3, acts, OPEN, [], Pending, creator, Some(Pending));
    assert Post(OPEN, JOB.req) == AFTER1 && [] + [JOB] == [JOB];
    assert creator[1 := DelBalances(JOB)] == map[0 := MarkingUnpublished(JOB), 1 := DelBalances(JOB)];
    acts := OverwrittenRun(acts, OneRow(AFTER1, [JOB], Completed, creator[1 := DelBalances(JOB)], TAKEN));
    acts := SettledAndCrashed(3, acts, AFTER1, [JOB], Failed, Some(Failed));
    assert Post(AFTER1, JOB.req) == AFTER2;
    TwoCommits(JOB, JOB);
  }

  lemma OverwrittenRun(acts: seq<Action>, s: State) returns (longer: seq<Action>)
    requires s == OneRow(AFTER1, [JOB], Completed, map[0 := MarkingUnpublished(JOB), 1 := DelBalances(JOB)], TAKEN)
    requires Run(Without(3), acts) == Some(s)
    ensures Run(Without(3), longer) == Some(OneRow(AFTER1, [JOB], Failed, map[], READY))
  {
    hide Run, AllWork, Works;
    longer := Extend(Without(3), acts, s, MarkUnpublished(0, true));
    OverwrittenState(s);
    longer := Extend(Without(3), longer, OVERWRITTEN, Crash(1));
    CrashedState(Without(3), OVERWRITTEN, OneRow(AFTER1, [JOB], Failed, map[], READY));
  }

  const OVERWRITTEN := OneRow(AFTER1, [JOB], Failed, map[1 := DelBalances(JOB)], TAKEN)

  lemma OverwrittenState(s: State)
    requires s == OneRow(AFTER1, [JOB], Completed, map[0 := MarkingUnpublished(JOB), 1 := DelBalances(JOB)], TAKEN)
    ensures Apply(Without(3), s, MarkUnpublished(0, true)) == OVERWRITTEN
  {
    assert s.threads - {0} == OVERWRITTEN.threads;
  }

  lemma CommittedAnyway() returns (acts: seq<Action>)
    ensures Run(Without(4), acts) == Some(OneRow(AFTER1, [JOB], Completed, map[1 := MarkingFailed(JOB)], TAKEN))
  {
    hide Run, AllWork, Works;
    var c := Without(4);
    acts := PublishedRun(4);
    var s0 := OneRow(OPEN, [], Pending, map[], READY);
    acts := DeliveredRun(4, acts, s0, Some(Pending));
    var s1 := s0.(broker := TAKEN, threads := map[1 := Settling(JOB)], db := Locking.Begin(s0.db, 1, JOB, false));
    acts := AppliedAnyway(acts, s1);
    assert AfterDbFailure(Atomically(s1, 1), 1) == OneRow(AFTER1, [JOB], Completed, map[1 := MarkingFailed(JOB)], TAKEN);
  }

  lemma AppliedAnyway(acts: seq<Action>, s: State) returns (longer: seq<Action>)
    requires Run(Without(4), acts) == Some(s) && Clear(s, 1)
    ensures Run(Without(4), longer) == Some(AfterDbFailure(Atomically(s, 1), 1))
  {
    hide Run, AllWork, Works;
    longer := ReachesCommit(Without(4), acts, s, 1);
    CommitIsAtomic(s, 1);
    longer := Extend(Without(4), longer, BeforeCommit(s, 1), CommitFails(1, true));
  }

  /** Without A4: the commit went through but reported an error; the row is marked failed and a redelivery pays again. */
  lemma FalseCommitErrorPaysTwice() returns (acts: seq<Action>)
    ensures Run(Without(4), acts).Some?
    ensures var s := Run(Without(4), acts).value; Guarantees.Commits(s.db.journal, ID) == 2 && s.db.bal == AFTER2
  {
    hide Run, Apply, Enabled, AllWork, Works;
    acts := CommittedAnyway();
    acts := MarkedRun(acts, OneRow(AFTER1, [JOB], Completed, map[1 := MarkingFailed(JOB)], TAKEN));
    acts := SettledAndCrashed(4, acts, AFTER1, [JOB], Failed, Some(Failed));
    assert Post(AFTER1, JOB.req) == AFTER2;
    TwoCommits(JOB, JOB);
  }

  lemma MarkedRun(acts: seq<Action>, s: State) returns (longer: seq<Action>)
    requires s == OneRow(AFTER1, [JOB], Completed, map[1 := MarkingFailed(JOB)], TAKEN) && Run(Without(4), acts) == Some(s)
    ensures Run(Without(4), longer) == Some(OneRow(AFTER1, [JOB], Failed, map[], READY))
  {
    hide Run, AllWork, Works;
    longer := Extend(Without(4), acts, s, MarkFailed(1, true));
    var s1 := OneRow(AFTER1, [JOB], Failed, map[1 := Nacking(JOB)], TAKEN);
    assert Apply(Without(4), s, MarkFailed(1, true)) == s1;
    longer := Extend(Without(4), longer, s1, Crash(1));
    CrashedState(Without(4), s1, OneRow(AFTER1, [JOB], Failed, map[], READY));
  }

  const OTHER := Request(1, 2, 7)

  lemma RowsNetOfOne(rows: map<TxId, Row>, id: TxId, a: AccountId)
    requires id in rows
    ensures RowsNet(rows, {id}, a) == Effect(rows[id].req, a)
  {
    RowsNetWithout(rows, {id}, id, a);
    assert {id} - {id} == {};
  }

  /** Without A5: a clock set back across a restart issues an identifier again, and ON CONFLICT merges two different
      transfers in one row, which no longer accounts for the balances. */
  lemma ReusedIdentifierMergesRows() returns (acts: seq<Action>)
    ensures Run(Without(5), acts).Some?
    ensures var s := Run(Without(5), acts).value;
            && s.db.journal == [JOB, Job(ID, OTHER)] && Guarantees.Commits(s.db.journal, ID) == 2
            && s.rows == map[ID := Row(JOB.req, Completed)] && Guarantees.CompletedRows(Without(5), s) == {ID}
            && s.db.bal == map[1 := 88, 2 := 12] && OPEN[1] + RowsNet(s.rows, {ID}, 1) == 95
  {
    hide Run, RowsNet, Apply, AllWork;
    var c := Without(5);
    acts := FirstOfTwo();
    acts := Extend(c, acts, ONCE, Restart);
    Restarted(c, ONCE);
    acts := SecondOfTwo(acts);
    TwoCommits(JOB, Job(ID, OTHER));
    RowsNetOfOne(TWICE.rows, ID, 1);
  }

  const ONCE :=
    State(Locking.Db(AFTER1, map[], map[], [JOB]), map[ID := Row(JOB.req, Completed)], map[], Broker({}, map[], {}, {}, {}),
          ID, IdText.SEEDED - 1, {})
  const TWICE :=
    ONCE.(db := Locking.Db(map[1 := 88, 2 := 12], map[], map[], [JOB, Job(ID, OTHER)]), floor := ID)

  lemma FirstOfTwo() returns (acts: seq<Action>)
    ensures Run(Without(5), acts) == Some(ONCE)
  {
    hide Run, AllWork;
    NoActions(Without(5));
    acts := SyncTransfer(Without(5), [], Init(Without(5)), JOB.req, ID);
    assert AfterSync(Init(Without(5)), JOB.req, ID) == ONCE;
  }

  lemma SecondOfTwo(acts: seq<Action>) returns (longer: seq<Action>)
    requires Run(Without(5), acts) == Some(ONCE.(counter := 0, floor := ID))
    ensures Run(Without(5), longer) == Some(TWICE)
  {
    hide Run, AllWork;
    var s := ONCE.(counter := 0, floor := ID);
    longer := SyncTransfer(Without(5), acts, s, OTHER, ID);
    assert [JOB] + [Job(ID, OTHER)] == [JOB, Job(ID, OTHER)];
    assert AfterSync(s, OTHER, ID) == TWICE;
  }

  lemma Restarted(c: Config, s: State)
    requires s.threads == map[]
    ensures Apply(c, s, Restart) == s.(counter := 0, floor := Top(s))
  {
  }

  lemma TwoCommits(j: Job, k: Job)
    requires j.id == k.id == ID
    ensures Guarantees.Commits([j] + [k], ID) == 2
  {
    assert Guarantees.Commits([j], ID) == 1 by { assert [j][..0] == []; }
    assert ([j] + [k])[..1] == [j];
  }

  lemma NoActions(c: Config)
    ensures Run(c, []) == Some(Init(c)) && AllWork([])
  {
  }

  // ---------------------------------------------------------------- "failed" is not a terminal state

  /** With every assumption holding: a row marked failed by a worker that then loses its connection is completed later. */
  lemma FailedIsNotTerminal() returns (acts: seq<Action>, longer: seq<Action>)
    ensures Without(0).Reliable() && Without(0).Valid()
    ensures Run(Without(0), acts).Some? && acts <= longer && Run(Without(0), longer).Some?
    ensures var rows := Run(Without(0), acts).value.rows; ID in rows && rows[ID].status == Failed
    ensures var rows := Run(Without(0), longer).value.rows; ID in rows && rows[ID].status == Completed
  {
    hide Run, AllWork, Works;
    acts := PublishedRun(0);
    acts := MarkedAfterError(acts);
    EnoughToMove();
    assert !Guarantees.Settled(MARKED, ID) by { assert JOB in MARKED.broker.published; }
    longer := Finality.UnsettledCanComplete(Without(0), acts, ID);
  }

  lemma EnoughToMove()
    ensures JOB.req.amount <= Guarantees.Movable(OPEN)
  {
    Guarantees.AtMostMovable(OPEN, 1);
  }

  const FAILING := [Deliver(1, JOB), ReadStatus(1, Some(Pending)), DbError(1), MarkFailed(1, true)]
  const MARKED := OneRow(OPEN, [], Failed, map[1 := Nacking(JOB)], TAKEN)

  lemma MarkedAfterError(acts: seq<Action>) returns (longer: seq<Action>)
    requires Run(Without(0), acts) == Some(OneRow(OPEN, [], Pending, map[], READY))
    ensures Run(Without(0), longer) == Some(MARKED) && longer == acts + FAILING
  {
    hide Run, AllWork, Works;
    var c := Without(0);
    longer := DeliveredRun(0, acts, OneRow(OPEN, [], Pending, map[], READY), Some(Pending));
    var s1 := OneRow(OPEN, [], Pending, map[1 := Settling(JOB)], TAKEN).(db := Locking.Begin(Locking.Fresh(OPEN), 1, JOB, false));
    longer := Extend(c, longer, s1, DbError(1));
    var s2 := OneRow(OPEN, [], Pending, map[1 := MarkingFailed(JOB)], TAKEN);
    assert Apply(c, s1, DbError(1)) == s2;
    longer := Extend(c, longer, s2, MarkFailed(1, true));
    assert Apply(c, s2, MarkFailed(1, true)) == MARKED;
  }

  /** And a message lost after a publish that reported no error leaves its row, already answered with 202, pending for good. */
  lemma LostMessageStaysPending() returns (acts: seq<Action>)
    ensures Without(0).Reliable() && Run(Without(0), acts).Some?
    ensures var s := Run(Without(0), acts).value;
            && s.threads == map[] && s.orphans == {ID} && ID in s.rows && s.rows[ID].status == Pending
            && Finality.Final(Without(0), acts, ID)
  {
    hide Run, AllWork, Works;
    var c := Without(0);
    acts := SavedRun(0);
    var s := OneRow(OPEN, [], Pending, map[0 := Publishing(JOB)], Broker({}, map[], {}, {}, {}));
    acts := Extend(c, acts, s, PublishLost(0));
    var s1 := OneRow(OPEN, [], Pending, map[], s.broker).(orphans := {ID});
    assert Apply(c, s, PublishLost(0)) == s1;
    assert Guarantees.Abandoned(s1, ID);
    Finality.FinalIff(c, acts, ID);
  }

  // ---------------------------------------------------------------- what can go wrong at any time

  /** Nothing restricts the schedule: an admitted request can be submitted whenever the clock is past A5's bound, a ready
      message be taken by any goroutine unless its identifier is being processed, and a read show what A1 allows. */
  lemma AnyoneCanStart(c: Config, s: State, t: ThreadId, req: Request, now: int, async: bool, m: Job, seen: Option<Status>)
    ensures t !in s.threads && req.src != 0 && req.dst != 0 && req.amount > 0 && now >= IdText.SEEDED && now > s.floor ==>
              Enabled(c, s, Submit(t, req, now, async))
    ensures t !in s.threads && t !in s.broker.unacked && m in s.broker.ready
            && (forall u <- s.threads :: s.threads[u].Consuming() ==> s.threads[u].job.id != m.id) ==>
              Enabled(c, s, Deliver(t, m))
    ensures t !in s.threads && t !in s.broker.unacked && m in s.broker.ready && !c.oneAtATime ==> Enabled(c, s, Deliver(t, m))
    ensures t in s.threads && s.threads[t].Checking? && seen != Some(Completed)
            && (c.freshRead ==> seen == StatusOf(s, s.threads[t].job.id)) ==>
              Enabled(c, s, ReadStatus(t, seen))
  {
    hide Locking.Enabled, CanInsert;
  }

  /** No theorem rests on a failure being impossible. In every state, under all assumptions, each goroutine can crash, each
      delivery be returned, each statement and each commit fail; and each statement can run that waits for no lock. */
  lemma AnythingCanFail(c: Config, s: State, t: ThreadId)
    requires Unconditional.Fit(c, s)
    ensures t in s.threads ==> Enabled(c, s, Crash(t))
    ensures t in s.broker.unacked ==> Enabled(c, s, Requeue(t))
    ensures t in s.threads && (s.threads[t].Syncing? || s.threads[t].Settling?) ==>
              && t in s.db.txs && Enabled(c, s, DbError(t))
              && (s.db.txs[t].stage.Commit? ==> Enabled(c, s, CommitFails(t, false)) && Enabled(c, s, Commit(t)))
              && (s.db.txs[t].stage.Commit? && !c.honestCommit ==> Enabled(c, s, CommitFails(t, true)))
              && (!s.db.txs[t].stage.Commit? && !Locking.Blocked(s.db, t) ==> Enabled(c, s, Statement(t)))
    ensures s.threads == map[] ==> Enabled(c, s, Restart)
  {
    hide Unconditional.Fit, Locking.Blocked, CanInsert, StatusOf, JobIds, Top, Admits;
    if t in s.threads && s.threads[t].InDb() { OpenTransaction(c, s, t); }
  }

  /** And each save, publish and status update can fail, a save even after its insert, a publish even without an error. */
  lemma AnyCallCanFail(c: Config, s: State, t: ThreadId)
    requires t in s.threads
    ensures s.threads[t].Saving? ==>
              && Enabled(c, s, SaveFails(t, false))
              && var j := s.threads[t].job;
                 (j.req.src in s.db.bal && j.req.dst in s.db.bal && j.id !in s.rows ==>
                    Enabled(c, s, SaveFails(t, true)) && Enabled(c, s, SaveRow(t)))
    ensures s.threads[t].Publishing? ==>
              && Enabled(c, s, PublishFails(t, false)) && Enabled(c, s, PublishLost(t)) && Enabled(c, s, PublishOk(t))
              && (!c.honestPublish ==> Enabled(c, s, PublishFails(t, true)))
    ensures s.threads[t].MarkingUnpublished? ==> Enabled(c, s, MarkUnpublished(t, false)) && Enabled(c, s, MarkUnpublished(t, true))
    ensures s.threads[t].MarkingFailed? ==> Enabled(c, s, MarkFailed(t, false)) && Enabled(c, s, MarkFailed(t, true))
  {
    hide StatusOf, JobIds, Top, Admits, Locking.Enabled;
  }

  lemma OpenTransaction(c: Config, s: State, t: ThreadId)
    requires Unconditional.Fit(c, s) && t in s.threads && s.threads[t].InDb()
    ensures t in s.db.txs
  {
    hide Unconditional.Fit;
    Unconditional.Knows(c, s, t);
  }
}
