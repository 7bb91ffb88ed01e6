/** The transfer protocol as a step relation: API calls, queue workers, the database and the broker,
    one statement, publish, delivery, acknowledgement or failure at a time. */
module Protocol {
  import opened Domain
  import opened Ledger
  import Locking
  import IdGenerator
  import IdText

  /** The opening accounts and seeded rows, and which assumptions about the environment hold:
      A1 the worker's idempotency read succeeds and sees the primary's committed state;
      A2 two deliveries of one identifier are never processed at the same time;
      A3 a publish error means the message was not enqueued;
      A4 a commit error means the transaction was rolled back;
      A5 after a restart the clock reads later than every identifier issued before it. */
  datatype Config = Config(open: Balances, seed: map<TxId, Row>,
                           freshRead: bool, oneAtATime: bool, honestPublish: bool, honestCommit: bool, laterClock: bool)
  {
    predicate Reliable() {
      freshRead && oneAtATime && honestPublish && honestCommit && laterClock
    }
    predicate Valid() {
      && Solvent(open)
      && (forall id <- seed :: 0 <= id < IdText.SEEDED)
    }
  }

  /** What a goroutine does next. The first two constructors are `createSync`, the next three
      `createAsync`, the others `process`. */
  datatype Thread =
    | Syncing(job: Job)            // inside the database transaction of createSync
    | SyncDel(job: Job)            // committed; balance keys not yet deleted
    | Saving(job: Job)             // before repo.Save
    | Publishing(job: Job)         // saved; before queue.Publish
    | MarkingUnpublished(job: Job) // publish failed; before repo.UpdateStatus
    | Checking(job: Job)           // delivered; before the idempotency read
    | Settling(job: Job)           // inside the database transaction of settle
    | DelBalances(job: Job)        // settled; balance keys not yet deleted
    | DelStatus(job: Job)          // status key not yet deleted
    | Acking(job: Job)
    | MarkingFailed(job: Job)      // not settled; before repo.UpdateStatus
    | Nacking(job: Job)
  {
    predicate InDb() { Syncing? || Settling? }
    predicate Creating() { Publishing? || MarkingUnpublished? }
    predicate Consuming() {
      Checking? || Settling? || DelBalances? || DelStatus? || Acking? || MarkingFailed? || Nacking?
    }
  }

  /** The queue `transactions` and its dead-letter queue. A delivery is unacknowledged under the goroutine
      that holds it. History: everything ever enqueued. */
  datatype Broker = Broker(ready: set<Job>, unacked: map<ThreadId, Job>, acked: set<Job>, dlq: set<Job>,
                           published: set<Job>)

  /** History: `floor` is above every identifier issued before the last restart (at first, the seeded ones);
      `orphans` are the rows left pending by a crash before publish, by an error swallowed in createAsync, or by a
      message lost after a publish that reported none (the client uses no publisher confirms). */
  datatype State = State(db: Locking.Db, rows: map<TxId, Row>, threads: map<ThreadId, Thread>, broker: Broker,
                         counter: int, floor: int, orphans: set<TxId>)

  datatype Action =
    | Submit(t: ThreadId, req: Request, now: int, async: bool)
    | SaveRow(t: ThreadId)
    | SaveFails(t: ThreadId, inserted: bool)
    | PublishOk(t: ThreadId)
    | PublishLost(t: ThreadId)
    | PublishFails(t: ThreadId, enqueued: bool)
    | MarkUnpublished(t: ThreadId, updated: bool)
    | Deliver(t: ThreadId, m: Job)
    | ReadStatus(t: ThreadId, seen: Option<Status>)
    | Statement(t: ThreadId)
    | DbError(t: ThreadId)
    | Commit(t: ThreadId)
    | CommitFails(t: ThreadId, applied: bool)
    | Invalidate(t: ThreadId)
    | MarkFailed(t: ThreadId, updated: bool)
    | Ack(t: ThreadId)
    | Nack(t: ThreadId)
    | Crash(t: ThreadId)
    | Requeue(t: ThreadId)
    | Restart

  function Init(c: Config): State {
    State(Locking.Fresh(c.open), c.seed, map[], Broker({}, map[], {}, {}, {}), 0, IdText.SEEDED - 1, {})
  }

  function Top(s: State): int {
    if s.counter > s.floor then s.counter else s.floor
  }

  /** The foreign keys of `transactions` and its primary key: when the INSERT of repo.Save goes through. */
  predicate CanInsert(s: State, j: Job) {
    j.req.src in s.db.bal && j.req.dst in s.db.bal && j.id !in s.rows
  }

  function StatusOf(s: State, id: TxId): Option<Status> {
    if id in s.rows then Some(s.rows[id].status) else None
  }

  predicate Enabled(c: Config, s: State, a: Action) {
    match a
    case Submit(t, req, now, async) =>
      t !in s.threads && Admits(req) && now > (if c.laterClock then s.floor else IdText.SEEDED - 1)
    case SaveRow(t) => t in s.threads && s.threads[t].Saving? && CanInsert(s, s.threads[t].job)
    case SaveFails(t, inserted) =>
      t in s.threads && s.threads[t].Saving? && (inserted ==> CanInsert(s, s.threads[t].job))
    case PublishOk(t) => t in s.threads && s.threads[t].Publishing?
    case PublishLost(t) => t in s.threads && s.threads[t].Publishing?
    case PublishFails(t, enqueued) => t in s.threads && s.threads[t].Publishing? && (c.honestPublish ==> !enqueued)
    case MarkUnpublished(t, _) => t in s.threads && s.threads[t].MarkingUnpublished?
    case Deliver(t, m) =>
      && t !in s.threads && t !in s.broker.unacked && m in s.broker.ready
      && (c.oneAtATime ==> forall u <- s.threads :: s.threads[u].Consuming() ==> s.threads[u].job.id != m.id)
    case ReadStatus(t, seen) =>
      && t in s.threads && s.threads[t].Checking? && (c.freshRead ==> seen == StatusOf(s, s.threads[t].job.id))
      && (seen == Some(Completed) ==> s.threads[t].job.id in JobIds(s.db.journal)) // a replica lags, but invents no commit
    case Statement(t) => t in s.threads && s.threads[t].InDb() && Locking.Enabled(s.db, Locking.Statement(t))
    case DbError(t) => t in s.threads && s.threads[t].InDb() && t in s.db.txs
    case Commit(t) => t in s.threads && s.threads[t].InDb() && Locking.Enabled(s.db, Locking.Finish(t))
    case CommitFails(t, applied) =>
      && t in s.threads && s.threads[t].InDb() && Locking.Enabled(s.db, Locking.Finish(t))
      && (c.honestCommit ==> !applied)
    case Invalidate(t) =>
      t in s.threads && (s.threads[t].SyncDel? || s.threads[t].DelBalances? || s.threads[t].DelStatus?)
    case MarkFailed(t, _) => t in s.threads && s.threads[t].MarkingFailed?
    case Ack(t) => t in s.threads && s.threads[t].Acking?
    case Nack(t) => t in s.threads && s.threads[t].Nacking?
    case Crash(t) => t in s.threads
    case Requeue(t) => t in s.broker.unacked
    case Restart => s.threads == map[]
  }

  function Goto(s: State, t: ThreadId, th: Thread): State {
    s.(threads := s.threads[t := th])
  }

  function Leave(s: State, t: ThreadId): State {
    s.(threads := s.threads - {t})
  }

  /** createSync returns its error; process goes on to mark the row failed. */
  function AfterDbFailure(s: State, t: ThreadId): State
    requires t in s.threads
  {
    if s.threads[t].Settling? then Goto(s, t, MarkingFailed(s.threads[t].job)) else Leave(s, t)
  }

  function AfterCommit(s: State, t: ThreadId): State
    requires t in s.threads
  {
    var j := s.threads[t].job;
    Goto(s, t, if s.threads[t].Settling? then DelBalances(j) else SyncDel(j))
  }

  /** The last statement of each database transaction: settle updates, createSync inserts ON CONFLICT DO UPDATE the status. */
  function Recorded(rows: map<TxId, Row>, th: Thread): map<TxId, Row> {
    if th.Settling? || th.job.id in rows then WithStatus(rows, th.job.id, Completed)
    else rows[th.job.id := Row(th.job.req, Completed)]
  }

  function Committed(s: State, t: ThreadId): State
    requires t in s.threads && t in s.db.txs
  {
    s.(db := Locking.CommitTx(s.db, t), rows := Recorded(s.rows, s.threads[t]))
  }

  function Enqueued(b: Broker, m: Job): Broker {
    b.(ready := b.ready + {m}, published := b.published + {m})
  }

  /** An unacknowledged delivery whose consumer is gone becomes ready again. */
  function Returned(b: Broker, t: ThreadId): Broker {
    if t in b.unacked then b.(ready := b.ready + {b.unacked[t]}, unacked := b.unacked - {t}) else b
  }

  /** An acknowledgement on a delivery that was already returned does nothing. */
  function Acknowledged(b: Broker, t: ThreadId): Broker {
    if t in b.unacked then b.(acked := b.acked + {b.unacked[t]}, unacked := b.unacked - {t}) else b
  }

  function Rejected(b: Broker, t: ThreadId): Broker {
    if t in b.unacked then b.(dlq := b.dlq + {b.unacked[t]}, unacked := b.unacked - {t}) else b
  }

  function Apply(c: Config, s: State, a: Action): State
    requires Enabled(c, s, a)
  {
    match a
    case Submit(t, req, now, async) =>
      var id := IdGenerator.Next(s.counter, now);
      var j := Job(id, req);
      if async then Goto(s.(counter := id), t, Saving(j))
      else Goto(s.(counter := id, db := Locking.Begin(s.db, t, j, true)), t, Syncing(j))
    case SaveRow(t) =>
      var j := s.threads[t].job;
      Goto(s.(rows := s.rows[j.id := Row(j.req, Pending)]), t, Publishing(j))
    case SaveFails(t, inserted) =>
      var j := s.threads[t].job;
      if inserted then Leave(s.(rows := s.rows[j.id := Row(j.req, Pending)], orphans := s.orphans + {j.id}), t)
      else Leave(s, t)
    case PublishOk(t) => Leave(s.(broker := Enqueued(s.broker, s.threads[t].job)), t)
    case PublishLost(t) => Leave(s.(orphans := s.orphans + {s.threads[t].job.id}), t)
    case PublishFails(t, enqueued) =>
      var j := s.threads[t].job;
      Goto(if enqueued then s.(broker := Enqueued(s.broker, j)) else s, t, MarkingUnpublished(j))
    case MarkUnpublished(t, updated) =>
      var id := s.threads[t].job.id;
      Leave(if updated then s.(rows := WithStatus(s.rows, id, Failed)) else s.(orphans := s.orphans + {id}), t)
    case Deliver(t, m) =>
      var b := s.broker;
      Goto(s.(broker := b.(ready := b.ready - {m}, unacked := b.unacked[t := m])), t, Checking(m))
    case ReadStatus(t, seen) =>
      var j := s.threads[t].job;
      if seen == Some(Completed) then Goto(s, t, Acking(j))
      else Goto(s.(db := Locking.Begin(s.db, t, j, false)), t, Settling(j))
    case Statement(t) =>
      var d := Locking.Execute(s.db, t);
      if t in d.txs then s.(db := d) else AfterDbFailure(s.(db := d), t)
    case DbError(t) => AfterDbFailure(s.(db := Locking.Rollback(s.db, t)), t)
    case Commit(t) => AfterCommit(Committed(s, t), t)
    case CommitFails(t, applied) =>
      AfterDbFailure(if applied then Committed(s, t) else s.(db := Locking.Rollback(s.db, t)), t)
    case Invalidate(t) =>
      var th := s.threads[t];
      if th.SyncDel? then Leave(s, t) else Goto(s, t, if th.DelBalances? then DelStatus(th.job) else Acking(th.job))
    case MarkFailed(t, updated) =>
      var j := s.threads[t].job;
      Goto(if updated then s.(rows := WithStatus(s.rows, j.id, Failed)) else s, t, Nacking(j))
    case Ack(t) => Leave(s.(broker := Acknowledged(s.broker, t)), t)
    case Nack(t) => Leave(s.(broker := Rejected(s.broker, t)), t)
    case Crash(t) =>
      var th := s.threads[t];
      Leave(s.(db := Locking.Rollback(s.db, t), broker := Returned(s.broker, t),
               orphans := if th.Creating() then s.orphans + {th.job.id} else s.orphans), t)
    case Requeue(t) => s.(broker := Returned(s.broker, t))
    case Restart => s.(counter := 0, floor := Top(s))
  }

  /** Nothing fails in this step: no error, no crash, no lost connection. Refusing a transfer is not a failure. */
  predicate Works(a: Action) {
    && !a.SaveFails? && !a.PublishLost? && !a.PublishFails? && !a.DbError? && !a.CommitFails? && !a.Crash? && !a.Requeue?
    && (a.MarkFailed? ==> a.updated)
  }

  predicate AllWork(acts: seq<Action>) {
    forall a <- acts :: Works(a)
  }

  /** The state after a schedule; None when some action is not possible where it stands. */
  function Run(c: Config, acts: seq<Action>): Option<State> {
    if acts == [] then Some(Init(c)) else
      match Run(c, acts[..|acts| - 1])
      case None => None
      case Some(m) =>
        if Enabled(c, m, acts[|acts| - 1]) then Some(Apply(c, m, acts[|acts| - 1])) else None
  }
}
