/** The two Redis caches beside the protocol: `GetBalance` and `GetTransactionStatus` run
    concurrently with the writers, and time passes. */
module Caches {
  import opened Domain
  import opened Ledger
  import Locking
  import Protocol
  import Invariant
  import Guarantees
  import Unconditional
  import opened CacheAside

  /** TTLs and, for the theorems on age, a bound on the time from the instant a repository read sees
      (earlier than the read itself by the replica's lag) to the SET. Times are in milliseconds. */
  datatype Config = Config(base: Protocol.Config, balanceTTL: int, statusTTL: int, gap: int) {
    predicate Valid() {
      base.Valid() && balanceTTL > 0 && statusTTL > 0 && gap >= 0
    }
  }

  const PENDING_TTL: int := 2_000

  datatype State = State(p: Protocol.State, now: int, balances: Cache<int>, statuses: Cache<Status>)

  /** `delOk` says whether a DEL made by the step reaches Redis, `setOk` whether a SET does. */
  datatype Action =
    | Step(a: Protocol.Action, delOk: bool)
    | Tick(d: nat)
    | BalanceMiss(r: int, id: AccountId)
    | BalanceFetch(r: int, k: nat)
    | BalanceSet(r: int, setOk: bool)
    | BalanceEvict(id: AccountId)
    | StatusMiss(r: int, tx: TxId)
    | StatusFetch(r: int, k: nat)
    | StatusSet(r: int, setOk: bool)
    | StatusEvict(tx: TxId)

  function StatusData(rows: map<TxId, Row>): map<TxId, Status> {
    map id | id in rows :: rows[id].status
  }

  function Init(c: Config): State {
    State(Protocol.Init(c.base), 0, Start(c.base.open), Start(StatusData(c.base.seed)))
  }

  /** Pending statuses expire quickly; the others get the full TTL. */
  function StatusTTL(c: Config, s: Status): int {
    if s.Pending? then PENDING_TTL else c.statusTTL
  }

  /** A writer between its commit and its DEL of the balance keys. */
  predicate BeforeDel(th: Protocol.Thread) {
    th.SyncDel? || th.DelBalances?
  }

  function Accounts(th: Protocol.Thread): set<AccountId> {
    {th.job.req.src, th.job.req.dst}
  }

  /** The accounts with such a writer. */
  function PendingDels(p: Protocol.State): set<AccountId> {
    set t, a | t in p.threads && BeforeDel(p.threads[t]) && a in Accounts(p.threads[t]) :: a
  }

  predicate SetInTime<V>(c: Config, cache: Cache<V>, r: int, now: int) {
    && r in cache.readers && cache.readers[r].Fetched? && cache.readers[r].seen < |cache.hist|
    && now - cache.hist[cache.readers[r].seen].at <= c.gap
  }

  predicate Enabled(c: Config, s: State, a: Action) {
    match a
    case Step(b, _) => Protocol.Enabled(c.base, s.p, b)
    case Tick(_) => true
    case BalanceMiss(r, _) => r !in s.balances.readers
    case BalanceFetch(r, k) => CanFetch(s.balances, r, k)
    case BalanceSet(r, _) => SetInTime(c, s.balances, r, s.now)
    case BalanceEvict(_) => true
    case StatusMiss(r, _) => r !in s.statuses.readers
    case StatusFetch(r, k) => CanFetch(s.statuses, r, k)
    case StatusSet(r, _) => SetInTime(c, s.statuses, r, s.now)
    case StatusEvict(_) => true
  }

  /** A commit that is applied and reported as an error: nobody will delete the keys. */
  predicate CommitsUnawares(p: Protocol.State, a: Protocol.Action) {
    a.CommitFails? && a.applied && a.t in p.threads
  }

  /** The step decides the DEL of the balance keys: it deletes them (or tries to), or nobody will. */
  predicate EndsBalanceDel(p: Protocol.State, a: Protocol.Action) {
    ((a.Invalidate? || a.Crash?) && a.t in p.threads && BeforeDel(p.threads[a.t])) || CommitsUnawares(p, a)
  }

  /** What a protocol step does to the balance keys. */
  function AfterBalanceDel(p: Protocol.State, balances: Cache<int>, a: Protocol.Action, delOk: bool): Cache<int> {
    if EndsBalanceDel(p, a) then
      if a.Invalidate? && delOk then Delete(balances, Accounts(p.threads[a.t]))
      else LoseDelete(balances, Accounts(p.threads[a.t]))
    else balances
  }

  /** A worker between its commit and its DEL of the status key. */
  predicate BeforeStatusDel(th: Protocol.Thread) {
    th.DelBalances? || th.DelStatus?
  }

  /** The step ends such a worker's chance to delete: it deletes (or tries to), or crashes before it. */
  predicate EndsStatusDel(p: Protocol.State, a: Protocol.Action) {
    && (a.Invalidate? || a.Crash?) && a.t in p.threads
    && (p.threads[a.t].DelStatus? || (a.Crash? && p.threads[a.t].DelBalances?))
  }

  /** Only the success path of process deletes the status key. */
  function AfterStatusDel(p: Protocol.State, statuses: Cache<Status>, a: Protocol.Action, delOk: bool): Cache<Status> {
    if EndsStatusDel(p, a) then
      if a.Invalidate? && delOk then Delete(statuses, {p.threads[a.t].job.id})
      else LoseDelete(statuses, {p.threads[a.t].job.id})
    else statuses
  }

  predicate Remembers(s: State) {
    s.balances.hist != [] && s.statuses.hist != []
  }

  function Apply(c: Config, s: State, a: Action): State
    requires Enabled(c, s, a) && Remembers(s)
  {
    match a
    case Step(b, delOk) =>
      var p := Protocol.Apply(c.base, s.p, b);
      State(p, s.now,
            Observe(AfterBalanceDel(s.p, s.balances, b, delOk), s.now, p.db.bal),
            Observe(AfterStatusDel(s.p, s.statuses, b, delOk), s.now, StatusData(p.rows)))
    case Tick(d) =>
      State(s.p, s.now + d, Observe(s.balances, s.now + d, s.p.db.bal),
            Observe(s.statuses, s.now + d, StatusData(s.p.rows)))
    case BalanceMiss(r, id) => s.(balances := Miss(s.balances, r, id))
    case BalanceFetch(r, k) => s.(balances := Fetch(s.balances, r, k))
    case BalanceSet(r, ok) =>
      s.(balances := if ok then Store(s.balances, r, s.now, c.balanceTTL) else Leave(s.balances, r))
    case BalanceEvict(id) => s.(balances := Delete(s.balances, {id}))
    case StatusMiss(r, tx) => s.(statuses := Miss(s.statuses, r, tx))
    case StatusFetch(r, k) => s.(statuses := Fetch(s.statuses, r, k))
    case StatusSet(r, ok) =>
      s.(statuses := if ok then Store(s.statuses, r, s.now, StatusTTL(c, s.statuses.readers[r].value))
                     else Leave(s.statuses, r))
    case StatusEvict(tx) => s.(statuses := Delete(s.statuses, {tx}))
  }

  function Run(c: Config, acts: seq<Action>): (r: Option<State>)
    ensures r.Some? ==> Remembers(r.value)
  {
    if acts == [] then Some(Init(c)) else
      match Run(c, acts[..|acts| - 1])
      case None => None
      case Some(m) =>
        if Enabled(c, m, acts[|acts| - 1]) then Some(Apply(c, m, acts[|acts| - 1])) else None
  }

  // ---------------------------------------------------------------- ages, in any environment

  predicate TTLs(c: Config, s: State) {
    && (forall k <- s.balances.entries :: s.balances.entries[k].ttl == c.balanceTTL)
    && (forall id <- s.statuses.entries :: s.statuses.entries[id].ttl == StatusTTL(c, s.statuses.entries[id].value))
  }

  predicate Aged(c: Config, s: State) {
    Timely(s.balances, c.gap) && Timely(s.statuses, c.gap) && TTLs(c, s)
  }

  lemma StepAged(c: Config, s: State, a: Action)
    requires Remembers(s) && Aged(c, s) && Enabled(c, s, a) && a.Step?
    ensures Aged(c, Apply(c, s, a))
  {
    hide Protocol.Apply, Protocol.Enabled, Timely;
    var p', b := Protocol.Apply(c.base, s.p, a.a), a.a;
    if EndsBalanceDel(s.p, b) { OthersTimely(s.balances, 0, 0, Accounts(s.p.threads[b.t]), c.gap); }
    if EndsStatusDel(s.p, b) { OthersTimely(s.statuses, 0, 0, {s.p.threads[b.t].job.id}, c.gap); }
    ObserveTimely(AfterBalanceDel(s.p, s.balances, b, a.delOk), s.now, p'.db.bal, c.gap);
    ObserveTimely(AfterStatusDel(s.p, s.statuses, b, a.delOk), s.now, StatusData(p'.rows), c.gap);
  }

  lemma ReadAged(c: Config, s: State, a: Action)
    requires Remembers(s) && Aged(c, s) && Enabled(c, s, a) && !a.Step?
    ensures Aged(c, Apply(c, s, a))
  {
    hide Timely;
    match a
    case Tick(d) =>
      ObserveTimely(s.balances, s.now + d, s.p.db.bal, c.gap);
      ObserveTimely(s.statuses, s.now + d, StatusData(s.p.rows), c.gap);
    case BalanceMiss(r, id) => OthersTimely(s.balances, r, id, {}, c.gap);
    case BalanceFetch(r, k) => ReaderTimely(s.balances, r, k, 0, 0, c.gap);
    case BalanceSet(r, _) =>
      OthersTimely(s.balances, r, 0, {}, c.gap);
      ReaderTimely(s.balances, r, 0, s.now, c.balanceTTL, c.gap);
    case BalanceEvict(id) => OthersTimely(s.balances, 0, 0, {id}, c.gap);
    case StatusMiss(r, id) => OthersTimely(s.statuses, r, id, {}, c.gap);
    case StatusFetch(r, k) => ReaderTimely(s.statuses, r, k, 0, 0, c.gap);
    case StatusSet(r, _) =>
      OthersTimely(s.statuses, r, 0, {}, c.gap);
      ReaderTimely(s.statuses, r, 0, s.now, StatusTTL(c, s.statuses.readers[r].value), c.gap);
    case StatusEvict(id) => OthersTimely(s.statuses, 0, 0, {id}, c.gap);
    case _ =>
  }

  lemma {:induction false} RunAged(c: Config, acts: seq<Action>)
    requires Run(c, acts).Some?
    ensures Aged(c, Run(c, acts).value)
  {
    hide Aged, Apply, Enabled;
    if acts == [] {
      StartAged(c);
    } else {
      var init, a := acts[..|acts| - 1], acts[|acts| - 1];
      RunAged(c, init);
      if a.Step? { StepAged(c, Run(c, init).value, a); } else { ReadAged(c, Run(c, init).value, a); }
    }
  }

  lemma StartAged(c: Config)
    ensures Aged(c, Init(c))
  {
  }

  // ---------------------------------------------------------------- the balance cache, in any environment

  predicate BalancesOk(s: State) {
    Remembers(s) && Now(s.balances) == s.p.db.bal && Attributed(s.balances, PendingDels(s.p))
  }

  /** Which deletes are outstanding after a protocol step, and which balances it may have changed. */
  lemma OutstandingDels(c: Protocol.Config, p: Protocol.State, a: Protocol.Action)
    requires Unconditional.Fit(c, p) && Protocol.Enabled(c, p, a)
    ensures var p' := Protocol.Apply(c, p, a);
            PendingDels(p) <= PendingDels(p') + (if EndsBalanceDel(p, a) then Accounts(p.threads[a.t]) else {})
    ensures var p' := Protocol.Apply(c, p, a);
            && p'.db.bal.Keys == p.db.bal.Keys
            && forall k <- p.db.bal :: p'.db.bal[k] != p.db.bal[k] ==>
                 k in PendingDels(p') || (CommitsUnawares(p, a) && k in Accounts(p.threads[a.t]))
  {
    OutstandingThreads(c, p, a);
    hide Protocol.Apply, Unconditional.Fit, PendingDels;
    BalanceStep(c, p, a);
  }

  lemma OutstandingThreads(c: Protocol.Config, p: Protocol.State, a: Protocol.Action)
    requires Protocol.Enabled(c, p, a)
    ensures var p' := Protocol.Apply(c, p, a);
            PendingDels(p) <= PendingDels(p') + (if EndsBalanceDel(p, a) then Accounts(p.threads[a.t]) else {})
  {
    var p' := Protocol.Apply(c, p, a);
    ThreadsStep(c, p, a);
    hide Protocol.Apply, Protocol.Enabled;
    forall k | k in PendingDels(p) && !(EndsBalanceDel(p, a) && k in Accounts(p.threads[a.t])) ensures k in PendingDels(p') {
      var t :| t in p.threads && BeforeDel(p.threads[t]) && k in Accounts(p.threads[t]);
      assert t in p'.threads && p'.threads[t] == p.threads[t];
    }
  }

  /** A writer before its DEL stays there until it deletes or crashes. */
  lemma ThreadsStep(c: Protocol.Config, p: Protocol.State, a: Protocol.Action)
    requires Protocol.Enabled(c, p, a)
    ensures forall t <- p.threads :: BeforeDel(p.threads[t]) && !((a.Invalidate? || a.Crash?) && a.t == t) ==>
              t in Protocol.Apply(c, p, a).threads && Protocol.Apply(c, p, a).threads[t] == p.threads[t]
  {
    hide Locking.Execute, Locking.CommitTx, Locking.Rollback, Locking.Begin, Locking.Enabled, Protocol.Acknowledged,
         Protocol.Rejected, Protocol.Returned, Protocol.Enqueued, Protocol.Recorded, WithStatus, Protocol.CanInsert,
         Protocol.StatusOf, Admits, JobIds;
  }

  lemma DelsOf(p: Protocol.State, t: ThreadId)
    requires t in p.threads && BeforeDel(p.threads[t])
    ensures Accounts(p.threads[t]) <= PendingDels(p)
  {
    assert forall a <- Accounts(p.threads[t]) :: a in PendingDels(p);
  }

  /** Only an applied commit changes balances, only those of its two accounts, and leaves their DEL to be done unless it
      reported an error. */
  lemma BalanceStep(c: Protocol.Config, p: Protocol.State, a: Protocol.Action)
    requires Unconditional.Fit(c, p) && Protocol.Enabled(c, p, a)
    ensures var p' := Protocol.Apply(c, p, a);
            && p'.db.bal.Keys == p.db.bal.Keys
            && forall k <- p.db.bal :: p'.db.bal[k] != p.db.bal[k] ==>
                 k in PendingDels(p') || (CommitsUnawares(p, a) && k in Accounts(p.threads[a.t]))
  {
    hide Unconditional.Fit, PendingDels, Locking.Execute, Locking.CommitTx, Locking.Rollback, Locking.Begin, Protocol.Recorded,
         Protocol.Acknowledged, Protocol.Rejected, Protocol.Returned, Protocol.Enqueued;
    if a.Commit? || (a.CommitFails? && a.applied) {
      CommitChanges(c, p, a.t);
      if a.Commit? {
        DelsOf(Protocol.Apply(c, p, a), a.t);
        assert Accounts(Protocol.Apply(c, p, a).threads[a.t]) == Accounts(p.threads[a.t]);
      }
    } else {
      OthersChangeNothing(c, p, a);
    }
  }

  lemma CommitChanges(c: Protocol.Config, p: Protocol.State, t: ThreadId)
    requires Unconditional.Fit(c, p) && t in p.threads && p.threads[t].InDb() && Locking.Enabled(p.db, Locking.Finish(t))
    ensures var b := Locking.CommitTx(p.db, t).bal;
            b.Keys == p.db.bal.Keys && forall k <- p.db.bal :: b[k] != p.db.bal[k] ==> k in Accounts(p.threads[t])
  {
    hide Unconditional.Fit, Locking.Consistent, Locking.CommitTx;
    Unconditional.CommitFits(c, p, t);
    Unconditional.Parts(c, p);
    Invariant.CommitFacts(c, p.db, t);
  }

  lemma OthersChangeNothing(c: Protocol.Config, p: Protocol.State, a: Protocol.Action)
    requires Protocol.Enabled(c, p, a) && !a.Commit? && !(a.CommitFails? && a.applied)
    ensures Protocol.Apply(c, p, a).db.bal == p.db.bal
  {
    hide Locking.Execute, Protocol.Recorded, Protocol.Acknowledged, Protocol.Rejected, Protocol.Returned, Protocol.Enqueued;
    if a.Statement? { Locking.StatementCommitsNothing(p.db, a.t); }
  }

  lemma StepBalances(c: Config, s: State, a: Protocol.Action, delOk: bool)
    requires Unconditional.Fit(c.base, s.p) && Remembers(s) && Timely(s.balances, c.gap) && BalancesOk(s)
    requires Enabled(c, s, Step(a, delOk))
    ensures BalancesOk(Apply(c, s, Step(a, delOk)))
  {
    hide Unconditional.Fit, Protocol.Apply, Protocol.Enabled, PendingDels, Timely, Attributed;
    var p' := Protocol.Apply(c.base, s.p, a);
    OutstandingDels(c.base, s.p, a);
    var mid := AfterBalanceDel(s.p, s.balances, a, delOk);
    if EndsBalanceDel(s.p, a) {
      var keys := Accounts(s.p.threads[a.t]);
      OthersTimely(s.balances, 0, 0, keys, c.gap);
      OthersAttributed(s.balances, PendingDels(s.p), 0, 0, keys, PendingDels(p'));
      ObserveAttributed(mid, PendingDels(p'), s.now, p'.db.bal, PendingDels(p'), c.gap);
    } else {
      ObserveAttributed(mid, PendingDels(s.p), s.now, p'.db.bal, PendingDels(p'), c.gap);
    }
  }

  lemma ReadBalances(c: Config, s: State, a: Action)
    requires Remembers(s) && Timely(s.balances, c.gap) && BalancesOk(s) && Enabled(c, s, a) && !a.Step?
    ensures BalancesOk(Apply(c, s, a))
  {
    hide PendingDels, Timely, Attributed;
    var pending := PendingDels(s.p);
    match a
    case Tick(d) => ObserveAttributed(s.balances, pending, s.now + d, s.p.db.bal, pending, c.gap);
    case BalanceMiss(r, id) => OthersAttributed(s.balances, pending, r, id, {}, pending);
    case BalanceFetch(r, k) => ReaderAttributed(s.balances, pending, r, k, 0, 0);
    case BalanceSet(r, ok) =>
      OthersAttributed(s.balances, pending, r, 0, {}, pending);
      ReaderAttributed(s.balances, pending, r, 0, s.now, c.balanceTTL);
    case BalanceEvict(id) => OthersAttributed(s.balances, pending, 0, 0, {id}, pending);
    case _ =>
  }

  lemma {:induction false} RunBalances(c: Config, acts: seq<Action>)
    requires c.base.Valid() && Run(c, acts).Some?
    ensures var s := Run(c, acts).value; Unconditional.Fit(c.base, s.p) && BalancesOk(s)
  {
    hide Unconditional.Fit, BalancesOk, Apply, Enabled, Timely;
    if acts == [] {
      Unconditional.InitFit(c.base);
      StartBalances(c);
    } else {
      var init, a := acts[..|acts| - 1], acts[|acts| - 1];
      RunBalances(c, init);
      RunAged(c, init);
      var s := Run(c, init).value;
      if a.Step? {
        StepAnyway(c, s, a);
        StepBalances(c, s, a.a, a.delOk);
      } else {
        ReadProtocol(c, s, a);
        ReadBalances(c, s, a);
      }
    }
  }

  lemma StepAnyway(c: Config, s: State, a: Action)
    requires c.base.Valid() && Unconditional.Fit(c.base, s.p) && Remembers(s) && Enabled(c, s, a) && a.Step?
    ensures Unconditional.Fit(c.base, Apply(c, s, a).p)
  {
    hide Unconditional.Fit, Protocol.Apply, Protocol.Enabled;
    Unconditional.StepFit(c.base, s.p, a.a);
  }

  lemma StartBalances(c: Config)
    ensures BalancesOk(Init(c))
  {
  }

  // ---------------------------------------------------------------- the status cache, under A1-A5

  /** Every status held, cached or remembered is at most the row's own. */
  predicate Below(data: map<TxId, Status>, rows: map<TxId, Row>) {
    forall id <- data :: id in rows && Rank(data[id]) <= Rank(rows[id].status)
  }

  /** The rows with a worker that still has to delete their key, and the rows marked failed, for which nobody does. */
  function StatusCauses(p: Protocol.State): set<TxId> {
    (set t | t in p.threads && BeforeStatusDel(p.threads[t]) :: p.threads[t].job.id)
    + (set id | id in p.rows && p.rows[id].status == Failed)
  }

  predicate StatusesOk(s: State) {
    && Remembers(s)
    && Now(s.statuses) == StatusData(s.p.rows)
    && Attributed(s.statuses, StatusCauses(s.p))
    && (forall k :: 0 <= k < |s.statuses.hist| ==> Below(s.statuses.hist[k].data, s.p.rows))
  }

  lemma BelowRises(data: map<TxId, Status>, rows: map<TxId, Row>, rows': map<TxId, Row>)
    requires Below(data, rows)
    requires forall id <- rows :: id in rows' && Rank(rows[id].status) <= Rank(rows'[id].status)
    ensures Below(data, rows')
  {
  }

  lemma ObserveStatuses(statuses: Cache<Status>, at: int, rows: map<TxId, Row>, rows': map<TxId, Row>)
    requires forall k :: 0 <= k < |statuses.hist| ==> Below(statuses.hist[k].data, rows)
    requires forall id <- rows :: id in rows' && Rank(rows[id].status) <= Rank(rows'[id].status)
    ensures var o := Observe(statuses, at, StatusData(rows')); forall k :: 0 <= k < |o.hist| ==> Below(o.hist[k].data, rows')
  {
    var o := Observe(statuses, at, StatusData(rows'));
    forall k | 0 <= k < |o.hist| ensures Below(o.hist[k].data, rows') {
      if k < |statuses.hist| { BelowRises(statuses.hist[k].data, rows, rows'); }
    }
  }

  /** Which causes are left after a protocol step, and which statuses it may have changed. */
  lemma OutstandingStatusDels(c: Protocol.Config, p: Protocol.State, a: Protocol.Action)
    requires c.Reliable() && c.Valid() && Invariant.Inv(c, p) && Protocol.Enabled(c, p, a)
    ensures var p' := Protocol.Apply(c, p, a);
            StatusCauses(p) <= StatusCauses(p') + (if EndsStatusDel(p, a) then {p.threads[a.t].job.id} else {})
    ensures var p' := Protocol.Apply(c, p, a);
            forall id <- p.rows :: id in p'.rows && (p'.rows[id].status != p.rows[id].status ==> id in StatusCauses(p'))
  {
    hide Protocol.Apply, Protocol.Enabled, Invariant.Inv, StatusCauses;
    forall id | id in p.rows
      ensures id in Protocol.Apply(c, p, a).rows
      ensures Protocol.Apply(c, p, a).rows[id].status == p.rows[id].status || id in StatusCauses(Protocol.Apply(c, p, a))
    {
      RowCause(c, p, a, id);
    }
    forall id | id in StatusCauses(p) && !(EndsStatusDel(p, a) && id == p.threads[a.t].job.id)
      ensures id in StatusCauses(Protocol.Apply(c, p, a))
    {
      CauseStays(c, p, a, id);
    }
  }

  lemma CauseStays(c: Protocol.Config, p: Protocol.State, a: Protocol.Action, id: TxId)
    requires c.Reliable() && c.Valid() && Invariant.Inv(c, p) && Protocol.Enabled(c, p, a)
    requires id in StatusCauses(p) && !(EndsStatusDel(p, a) && id == p.threads[a.t].job.id)
    ensures id in StatusCauses(Protocol.Apply(c, p, a))
  {
    hide Protocol.Apply, Protocol.Enabled, Invariant.Inv;
    if t :| t in p.threads && BeforeStatusDel(p.threads[t]) && p.threads[t].job.id == id {
      StatusThreadsStep(c, p, a);
      assert Protocol.Apply(c, p, a).threads[t].job.id == id;
    } else {
      assert id in p.rows && p.rows[id].status == Failed;
      RowCause(c, p, a, id);
    }
  }

  lemma StatusThreadsStep(c: Protocol.Config, p: Protocol.State, a: Protocol.Action)
    requires Protocol.Enabled(c, p, a)
    ensures var threads' := Protocol.Apply(c, p, a).threads;
            forall t <- p.threads :: BeforeStatusDel(p.threads[t]) && !(EndsStatusDel(p, a) && a.t == t) ==>
              t in threads' && BeforeStatusDel(threads'[t]) && threads'[t].job == p.threads[t].job
  {
    hide Locking.Execute, Locking.CommitTx, Locking.Rollback, Locking.Begin, Locking.Enabled, Protocol.Acknowledged,
         Protocol.Rejected, Protocol.Returned, Protocol.Enqueued, Protocol.Recorded, WithStatus, Protocol.CanInsert,
         Protocol.StatusOf, Admits, JobIds;
  }

  /** A row changes its status by the commit of a worker that then deletes its key, or by being marked failed. */
  lemma RowCause(c: Protocol.Config, p: Protocol.State, a: Protocol.Action, id: TxId)
    requires c.Reliable() && c.Valid() && Invariant.Inv(c, p) && Protocol.Enabled(c, p, a) && id in p.rows
    ensures var p' := Protocol.Apply(c, p, a);
            id in p'.rows && (p'.rows[id].status == p.rows[id].status || id in StatusCauses(p'))
  {
    hide Protocol.Apply, Invariant.Inv;
    var p' := Protocol.Apply(c, p, a);
    if a.Commit? {
      Guarantees.CommitStep(c, p, a.t, id);
      CommittedThread(c, p, a.t);
      if id == p.threads[a.t].job.id { assert p'.threads[a.t].job.id == id && BeforeStatusDel(p'.threads[a.t]); }
    } else {
      Guarantees.OtherStep(c, p, a, id);
    }
  }

  lemma CommittedThread(c: Protocol.Config, p: Protocol.State, t: ThreadId)
    requires Protocol.Enabled(c, p, Protocol.Commit(t))
    ensures var p' := Protocol.Apply(c, p, Protocol.Commit(t));
            t in p'.threads && (p.threads[t].Settling? ==> p'.threads[t] == Protocol.DelBalances(p.threads[t].job))
  {
    hide Locking.CommitTx, Protocol.Recorded;
  }

  lemma StepStatuses(c: Config, s: State, a: Protocol.Action, delOk: bool)
    requires c.base.Valid() && c.base.Reliable() && Invariant.Inv(c.base, s.p) && Remembers(s) && Timely(s.statuses, c.gap)
    requires StatusesOk(s) && Enabled(c, s, Step(a, delOk))
    ensures StatusesOk(Apply(c, s, Step(a, delOk)))
  {
    hide Invariant.Inv, Protocol.Apply, Protocol.Enabled, Timely, Below, Attributed, StatusCauses;
    var p' := Protocol.Apply(c.base, s.p, a);
    var mid := AfterStatusDel(s.p, s.statuses, a, delOk);
    OutstandingStatusDels(c.base, s.p, a);
    forall id | id in s.p.rows ensures id in p'.rows && Rank(s.p.rows[id].status) <= Rank(p'.rows[id].status) {
      Guarantees.StatusStep(c.base, s.p, a, id);
    }
    StepAttributed(c, s.p, p', s.statuses, s.now, a, delOk);
    ObserveStatuses(mid, s.now, s.p.rows, p'.rows);
  }

  lemma StepAttributed(c: Config, p: Protocol.State, p': Protocol.State, statuses: Cache<Status>, now: int,
                       a: Protocol.Action, delOk: bool)
    requires Timely(statuses, c.gap) && Attributed(statuses, StatusCauses(p)) && Now(statuses) == StatusData(p.rows)
    requires StatusCauses(p) <= StatusCauses(p') + (if EndsStatusDel(p, a) then {p.threads[a.t].job.id} else {})
    requires forall id <- p.rows :: id in p'.rows && (p'.rows[id].status != p.rows[id].status ==> id in StatusCauses(p'))
    ensures Attributed(Observe(AfterStatusDel(p, statuses, a, delOk), now, StatusData(p'.rows)), StatusCauses(p'))
  {
    hide Timely, Attributed, StatusCauses;
    var mid := AfterStatusDel(p, statuses, a, delOk);
    if EndsStatusDel(p, a) {
      var keys := {p.threads[a.t].job.id};
      OthersTimely(statuses, 0, 0, keys, c.gap);
      OthersAttributed(statuses, StatusCauses(p), 0, 0, keys, StatusCauses(p'));
      ObserveAttributed(mid, StatusCauses(p'), now, StatusData(p'.rows), StatusCauses(p'), c.gap);
    } else {
      ObserveAttributed(mid, StatusCauses(p), now, StatusData(p'.rows), StatusCauses(p'), c.gap);
    }
  }

  lemma ReadStatuses(c: Config, s: State, a: Action)
    requires Remembers(s) && Timely(s.statuses, c.gap) && StatusesOk(s) && Enabled(c, s, a) && !a.Step?
    ensures StatusesOk(Apply(c, s, a))
  {
    hide Timely, Below, Attributed, StatusCauses;
    var causes := StatusCauses(s.p);
    match a
    case Tick(d) =>
      ObserveStatuses(s.statuses, s.now + d, s.p.rows, s.p.rows);
      ObserveAttributed(s.statuses, causes, s.now + d, StatusData(s.p.rows), causes, c.gap);
    case StatusMiss(r, id) => OthersAttributed(s.statuses, causes, r, id, {}, causes);
    case StatusFetch(r, k) => ReaderAttributed(s.statuses, causes, r, k, 0, 0);
    case StatusSet(r, ok) =>
      OthersAttributed(s.statuses, causes, r, 0, {}, causes);
      ReaderAttributed(s.statuses, causes, r, 0, s.now, StatusTTL(c, s.statuses.readers[r].value));
    case StatusEvict(id) => OthersAttributed(s.statuses, causes, 0, 0, {id}, causes);
    case _ =>
  }

  lemma {:induction false} RunStatuses(c: Config, acts: seq<Action>)
    requires c.base.Valid() && c.base.Reliable() && Run(c, acts).Some?
    ensures var s := Run(c, acts).value; Invariant.Inv(c.base, s.p) && StatusesOk(s)
  {
    hide Invariant.Inv, StatusesOk, Apply, Enabled, Timely;
    if acts == [] {
      Invariant.InitInv(c.base);
      StartStatuses(c);
    } else {
      var init, a := acts[..|acts| - 1], acts[|acts| - 1];
      RunStatuses(c, init);
      RunAged(c, init);
      var s := Run(c, init).value;
      if a.Step? {
        StepProtocol(c, s, a);
        StepStatuses(c, s, a.a, a.delOk);
      } else {
        ReadProtocol(c, s, a);
        ReadStatuses(c, s, a);
      }
    }
  }

  lemma StartStatuses(c: Config)
    requires c.base.Valid()
    ensures StatusesOk(Init(c))
  {
  }

  lemma StepProtocol(c: Config, s: State, a: Action)
    requires c.base.Valid() && c.base.Reliable() && Invariant.Inv(c.base, s.p) && Remembers(s) && Enabled(c, s, a) && a.Step?
    ensures Invariant.Inv(c.base, Apply(c, s, a).p)
  {
    hide Invariant.Inv, Protocol.Apply, Protocol.Enabled;
    Invariant.StepKeeps(c.base, s.p, a.a);
  }

  // ---------------------------------------------------------------- whole runs

  lemma ReadProtocol(c: Config, s: State, a: Action)
    requires Remembers(s) && Enabled(c, s, a) && !a.Step?
    ensures Apply(c, s, a).p == s.p
  {
  }

  /** Reading and ticking apart, the protocol part of a run with caches is a run of the protocol alone. */
  function ProtocolActions(acts: seq<Action>): seq<Protocol.Action> {
    if acts == [] then [] else
      var earlier := ProtocolActions(acts[..|acts| - 1]);
      if acts[|acts| - 1].Step? then earlier + [acts[|acts| - 1].a] else earlier
  }

  lemma {:induction false} CachesDoNotInterfere(c: Config, acts: seq<Action>)
    requires Run(c, acts).Some?
    ensures Protocol.Run(c.base, ProtocolActions(acts)) == Some(Run(c, acts).value.p)
  {
    hide Apply, Protocol.Apply, Protocol.Enabled;
    if acts != [] {
      var init, a := acts[..|acts| - 1], acts[|acts| - 1];
      CachesDoNotInterfere(c, init);
      StepOrRead(c, Run(c, init).value, a);
      if a.Step? {
        assert (ProtocolActions(init) + [a.a])[..|ProtocolActions(init)|] == ProtocolActions(init);
      }
    }
  }

  lemma StepOrRead(c: Config, s: State, a: Action)
    requires Remembers(s) && Enabled(c, s, a)
    ensures a.Step? ==> Protocol.Enabled(c.base, s.p, a.a) && Apply(c, s, a).p == Protocol.Apply(c.base, s.p, a.a)
    ensures !a.Step? ==> Apply(c, s, a).p == s.p
  {
    hide Protocol.Apply, Protocol.Enabled;
  }

  /** A state at the end of some prefix of the run, whose committed data is the `k`th snapshot of both histories. */
  ghost predicate RealSnapshot(c: Config, acts: seq<Action>, n: nat, k: nat)
    requires Run(c, acts).Some?
  {
    && n <= |acts| && Run(c, acts[..n]).Some?
    && var s, m := Run(c, acts).value, Run(c, acts[..n]).value;
       && k < |s.balances.hist| == |s.statuses.hist|
       && s.balances.hist[k] == Snap(m.now, m.p.db.bal)
       && s.statuses.hist[k] == Snap(m.now, StatusData(m.p.rows))
  }

  /** The remembered histories are the real one. */
  lemma {:induction false} HistoryIsReal(c: Config, acts: seq<Action>, k: nat) returns (n: nat)
    requires Run(c, acts).Some? && k < |Run(c, acts).value.balances.hist|
    ensures RealSnapshot(c, acts, n, k)
    decreases |acts|
  {
    hide Apply, Enabled, Protocol.Apply, Protocol.Enabled;
    SameLength(c, acts);
    var s := Run(c, acts).value;
    assert acts[..|acts|] == acts;
    n := |acts|;
    if acts != [] {
      var init := acts[..|acts| - 1];
      var m := Run(c, init).value;
      HistoryGrows(c, m, acts[|acts| - 1]);
      SameLength(c, init);
      if k < |m.balances.hist| {
        n := HistoryIsReal(c, init, k);
        assert init[..n] == acts[..n];
      }
    }
  }

  lemma {:induction false} SameLength(c: Config, acts: seq<Action>)
    requires Run(c, acts).Some?
    ensures var s := Run(c, acts).value; |s.balances.hist| == |s.statuses.hist|
  {
    hide Apply, Enabled;
    if acts != [] {
      SameLength(c, acts[..|acts| - 1]);
      HistoryGrows(c, Run(c, acts[..|acts| - 1]).value, acts[|acts| - 1]);
    }
  }

  lemma HistoryGrows(c: Config, s: State, a: Action)
    requires Remembers(s) && Enabled(c, s, a)
    ensures var s' := Apply(c, s, a);
            || (s'.balances.hist == s.balances.hist && s'.statuses.hist == s.statuses.hist)
            || (s'.balances.hist == s.balances.hist + [Snap(s'.now, s'.p.db.bal)]
                && s'.statuses.hist == s.statuses.hist + [Snap(s'.now, StatusData(s'.p.rows))])
  {
    hide Protocol.Apply, Protocol.Enabled;
  }

  /** A value GetBalance (or GetTransactionStatus) can answer with: a hit, or what a reader has just read. */
  ghost predicate Answers<V>(c: Config, cache: Cache<V>, now: int, key: int, value: V) {
    || (Hit(cache, key, now) && cache.entries[key].value == value)
    || (exists r :: SetInTime(c, cache, r, now) && cache.readers[r].key == key && cache.readers[r].value == value)
  }

  /** An answer was committed less than `ttl` plus the gap ago, when hits of it carry at most that TTL. */
  lemma AnswerIsRecent<V>(c: Config, cache: Cache<V>, now: int, key: int, value: V, ttl: int) returns (k: nat)
    requires Timely(cache, c.gap) && Answers(c, cache, now, key, value) && ttl > 0
    requires key in cache.entries && cache.entries[key].value == value ==> cache.entries[key].ttl <= ttl
    ensures Shows(cache.hist, k, key, value) && cache.hist[k].at > now - (ttl + c.gap)
  {
    if Hit(cache, key, now) && cache.entries[key].value == value {
      k := cache.entries[key].seen;
    } else {
      var r :| SetInTime(c, cache, r, now) && cache.readers[r].key == key && cache.readers[r].value == value;
      k := cache.readers[r].seen;
    }
  }

  /** Bounded staleness, in any environment: with lost deletes, crashes, replica lag on every read and false errors, each
      balance returned was the committed one at some instant of the run less than TTL plus the gap ago. */
  lemma BoundedStaleness(c: Config, acts: seq<Action>, id: AccountId, value: int)
    requires c.balanceTTL > 0 && Run(c, acts).Some?
    requires Answers(c, Run(c, acts).value.balances, Run(c, acts).value.now, id, value)
    ensures exists n :: 0 <= n <= |acts| && Run(c, acts[..n]).Some?
              && var m := Run(c, acts[..n]).value;
                 && m.now > Run(c, acts).value.now - (c.balanceTTL + c.gap)
                 && id in m.p.db.bal && m.p.db.bal[id] == value
  {
    hide Apply, Enabled, Timely;
    RunAged(c, acts);
    var s := Run(c, acts).value;
    var k := AnswerIsRecent(c, s.balances, s.now, id, value, c.balanceTTL);
    var n := HistoryIsReal(c, acts, k);
  }

  /** Attribution, in any environment: a cached balance that differs from the committed one has a writer between its commit
      and its DEL, was set by a reader that a commit had overtaken between its read and its set, or outlived a DEL that
      was lost: it did not reach Redis, or its writer crashed or was told that its commit had failed. */
  lemma DisagreementHasACause(c: Config, acts: seq<Action>, id: AccountId)
    requires c.base.Valid() && Run(c, acts).Some? && id in Run(c, acts).value.balances.entries
    requires var s := Run(c, acts).value; id !in s.p.db.bal || s.p.db.bal[id] != s.balances.entries[id].value
    ensures var s := Run(c, acts).value;
            var e := s.balances.entries[id];
            || Overtaken(s.balances.hist, id, e.value, e.seen, e.setAt)
            || e.delLost
            || exists t :: t in s.p.threads && (s.p.threads[t].SyncDel? || s.p.threads[t].DelBalances?)
                  && (id == s.p.threads[t].job.req.src || id == s.p.threads[t].job.req.dst)
  {
    hide Apply, Enabled, Unconditional.Fit;
    RunBalances(c, acts);
  }

  /** Every DEL reaches Redis, no writer crashes before its own, and none is told wrongly that its commit failed. */
  predicate NoDelIsLost(acts: seq<Action>) {
    forall a <- acts :: a.Step? ==> a.delOk && KeepsDels(a.a)
  }

  predicate KeepsDels(a: Protocol.Action) {
    !a.Crash? && !(a.CommitFails? && a.applied)
  }

  lemma {:induction false} NothingMarkedLost(c: Config, acts: seq<Action>)
    requires Run(c, acts).Some? && NoDelIsLost(acts)
    ensures forall e <- Run(c, acts).value.balances.entries.Values :: !e.delLost
    ensures forall e <- Run(c, acts).value.statuses.entries.Values :: !e.delLost
  {
    hide Protocol.Apply, Protocol.Enabled;
    if acts != [] {
      var init, a := acts[..|acts| - 1], acts[|acts| - 1];
      assert a in acts;
      forall b | b in init ensures b in acts {}
      NothingMarkedLost(c, init);
      MarkedLostStep(c, Run(c, init).value, a);
      StatusLostStep(c, Run(c, init).value, a);
    }
  }

  lemma MarkedLostStep(c: Config, s: State, a: Action)
    requires Remembers(s) && Enabled(c, s, a) && (a.Step? ==> a.delOk && KeepsDels(a.a))
    requires forall e <- s.balances.entries.Values :: !e.delLost
    ensures forall e <- Apply(c, s, a).balances.entries.Values :: !e.delLost
  {
    hide Protocol.Apply, Protocol.Enabled;
    var s' := Apply(c, s, a);
    forall k | k in s'.balances.entries ensures !s'.balances.entries[k].delLost {
      if k in s.balances.entries { assert s.balances.entries[k] in s.balances.entries.Values; }
    }
  }

  lemma StatusLostStep(c: Config, s: State, a: Action)
    requires Remembers(s) && Enabled(c, s, a) && (a.Step? ==> a.delOk && KeepsDels(a.a))
    requires forall e <- s.statuses.entries.Values :: !e.delLost
    ensures forall e <- Apply(c, s, a).statuses.entries.Values :: !e.delLost
  {
    hide Protocol.Apply, Protocol.Enabled;
    var s' := Apply(c, s, a);
    forall k | k in s'.statuses.entries ensures !s'.statuses.entries[k].delLost {
      if k in s.statuses.entries { assert s.statuses.entries[k] in s.statuses.entries.Values; }
    }
  }

  /** Without lost DELs, then, every disagreement is a race: a writer about to delete, or an overtaken reader. */
  lemma DisagreementIsARace(c: Config, acts: seq<Action>, id: AccountId)
    requires c.base.Valid() && Run(c, acts).Some? && id in Run(c, acts).value.balances.entries && NoDelIsLost(acts)
    requires var s := Run(c, acts).value; id !in s.p.db.bal || s.p.db.bal[id] != s.balances.entries[id].value
    ensures var s := Run(c, acts).value;
            var e := s.balances.entries[id];
            || Overtaken(s.balances.hist, id, e.value, e.seen, e.setAt)
            || exists t :: t in s.p.threads && (s.p.threads[t].SyncDel? || s.p.threads[t].DelBalances?)
                  && (id == s.p.threads[t].job.req.src || id == s.p.threads[t].job.req.dst)
  {
    hide Apply, Enabled;
    DisagreementHasACause(c, acts, id);
    NothingMarkedLost(c, acts);
    var s := Run(c, acts).value;
    assert s.balances.entries[id] in s.balances.entries.Values;
  }

  /** Status soundness: a cached or returned status is never above the row's, so a "completed" is never wrong. */
  lemma StatusIsSound(c: Config, acts: seq<Action>, tx: TxId, value: Status)
    requires c.Valid() && c.base.Reliable() && Run(c, acts).Some?
    requires var s := Run(c, acts).value;
             (tx in s.statuses.entries && s.statuses.entries[tx].value == value) || Answers(c, s.statuses, s.now, tx, value)
    ensures var s := Run(c, acts).value;
            && tx in s.p.rows && Rank(value) <= Rank(s.p.rows[tx].status)
            && (value == Completed ==> s.p.rows[tx].status == Completed)
            && (value == Failed ==> s.p.rows[tx].status != Pending)
  {
    hide Apply, Enabled, Invariant.Inv, Attributed;
    RunStatuses(c, acts);
    RunAged(c, acts);
    var s := Run(c, acts).value;
    var k: nat;
    if tx in s.statuses.entries && s.statuses.entries[tx].value == value {
      k := s.statuses.entries[tx].seen;
    } else {
      k := AnswerIsRecent(c, s.statuses, s.now, tx, value, StatusTTL(c, value));
    }
    assert Below(s.statuses.hist[k].data, s.p.rows);
  }

  /** Bounded staleness for statuses, in any environment: a "pending" returned was true less than two seconds and the gap
      ago, although the failure path of process deletes no key; a terminal status, less than its own TTL. */
  lemma StatusStaleness(c: Config, acts: seq<Action>, tx: TxId, value: Status)
    requires c.statusTTL > 0 && Run(c, acts).Some?
    requires Answers(c, Run(c, acts).value.statuses, Run(c, acts).value.now, tx, value)
    ensures exists n :: 0 <= n <= |acts| && Run(c, acts[..n]).Some?
              && var m := Run(c, acts[..n]).value;
                 && m.now > Run(c, acts).value.now - ((if value == Pending then 2_000 else c.statusTTL) + c.gap)
                 && tx in m.p.rows && m.p.rows[tx].status == value
  {
    hide Apply, Enabled, Timely;
    RunAged(c, acts);
    SameLength(c, acts);
    var s := Run(c, acts).value;
    var k := AnswerIsRecent(c, s.statuses, s.now, tx, value, StatusTTL(c, value));
    var n := HistoryIsReal(c, acts, k);
  }

  /** Attribution for statuses: a cached status that is not the row's was set by a reader overtaken between its read and its
      set, outlived a lost DEL, or has a worker between its commit and its DEL of the status key; or it is a
      "pending" cached before the row was marked failed, for which nobody deletes the key. */
  lemma StatusDisagreementHasACause(c: Config, acts: seq<Action>, tx: TxId)
    requires c.base.Valid() && c.base.Reliable() && Run(c, acts).Some? && tx in Run(c, acts).value.statuses.entries
    requires var s := Run(c, acts).value; tx !in s.p.rows || s.p.rows[tx].status != s.statuses.entries[tx].value
    ensures var s := Run(c, acts).value;
            var e := s.statuses.entries[tx];
            || Overtaken(s.statuses.hist, tx, e.value, e.seen, e.setAt)
            || e.delLost
            || (exists t :: t in s.p.threads && (s.p.threads[t].DelBalances? || s.p.threads[t].DelStatus?) && s.p.threads[t].job.id == tx)
            || (tx in s.p.rows && s.p.rows[tx].status == Failed && e.value == Pending)
  {
    hide Apply, Enabled, Invariant.Inv;
    RunStatuses(c, acts);
    RunAged(c, acts);
    var s := Run(c, acts).value;
    assert Below(s.statuses.hist[s.statuses.entries[tx].seen].data, s.p.rows);
  }

  /** When no DEL is lost the second of these is out. */
  lemma StatusDisagreementWithoutLoss(c: Config, acts: seq<Action>, tx: TxId)
    requires c.base.Valid() && c.base.Reliable() && Run(c, acts).Some? && tx in Run(c, acts).value.statuses.entries && NoDelIsLost(acts)
    requires var s := Run(c, acts).value; tx !in s.p.rows || s.p.rows[tx].status != s.statuses.entries[tx].value
    ensures var s := Run(c, acts).value;
            var e := s.statuses.entries[tx];
            || Overtaken(s.statuses.hist, tx, e.value, e.seen, e.setAt)
            || (exists t :: t in s.p.threads && (s.p.threads[t].DelBalances? || s.p.threads[t].DelStatus?) && s.p.threads[t].job.id == tx)
            || (tx in s.p.rows && s.p.rows[tx].status == Failed && e.value == Pending)
  {
    hide Apply, Enabled;
    StatusDisagreementHasACause(c, acts, tx);
    NothingMarkedLost(c, acts);
    var s := Run(c, acts).value;
    assert s.statuses.entries[tx] in s.statuses.entries.Values;
  }

  // ---------------------------------------------------------------- what is cached stays for its TTL

  /** The step removes or replaces the entry of account `id`: a DEL that reaches Redis, an eviction, a SET. */
  predicate TouchesBalance(s: State, a: Action, id: AccountId) {
    || (a.Step? && a.delOk && a.a.Invalidate? && a.a.t in s.p.threads
        && (s.p.threads[a.a.t].SyncDel? || s.p.threads[a.a.t].DelBalances?)
        && (id == s.p.threads[a.a.t].job.req.src || id == s.p.threads[a.a.t].job.req.dst))
    || (a.BalanceEvict? && a.id == id)
    || (a.BalanceSet? && a.setOk && a.r in s.balances.readers && s.balances.readers[a.r].key == id)
  }

  predicate TouchesStatus(s: State, a: Action, tx: TxId) {
    || (a.Step? && a.delOk && a.a.Invalidate? && a.a.t in s.p.threads
        && s.p.threads[a.a.t].DelStatus? && s.p.threads[a.a.t].job.id == tx)
    || (a.StatusEvict? && a.tx == tx)
    || (a.StatusSet? && a.setOk && a.r in s.statuses.readers && s.statuses.readers[a.r].key == tx)
  }

  /** Nothing in `more` touches the entry. */
  predicate LeavesBalance(c: Config, acts: seq<Action>, more: seq<Action>, id: AccountId) {
    more == [] ||
    (var init := more[..|more| - 1];
     LeavesBalance(c, acts, init, id) && Run(c, acts + init).Some?
     && !TouchesBalance(Run(c, acts + init).value, more[|more| - 1], id))
  }

  predicate LeavesStatus(c: Config, acts: seq<Action>, more: seq<Action>, tx: TxId) {
    more == [] ||
    (var init := more[..|more| - 1];
     LeavesStatus(c, acts, init, tx) && Run(c, acts + init).Some?
     && !TouchesStatus(Run(c, acts + init).value, more[|more| - 1], tx))
  }

  predicate SameEntry<V(==)>(c: Cache<V>, c': Cache<V>, key: int) {
    && key in c.entries && key in c'.entries
    && c'.entries[key].value == c.entries[key].value && c'.entries[key].expires == c.entries[key].expires
  }

  lemma EntryStays(c: Config, s: State, a: Action, key: int)
    requires Remembers(s) && Enabled(c, s, a)
    ensures key in s.balances.entries && !TouchesBalance(s, a, key) ==> SameEntry(s.balances, Apply(c, s, a).balances, key)
    ensures key in s.statuses.entries && !TouchesStatus(s, a, key) ==> SameEntry(s.statuses, Apply(c, s, a).statuses, key)
  {
    hide Protocol.Apply, Protocol.Enabled;
  }

  /** What a SET of a balance stores. */
  lemma BalanceStored(c: Config, s: State, r: int)
    requires Remembers(s) && Enabled(c, s, BalanceSet(r, true))
    ensures r in s.balances.readers && s.balances.readers[r].Fetched?
    ensures var f, s' := s.balances.readers[r], Apply(c, s, BalanceSet(r, true));
            && f.key in s'.balances.entries && s'.balances.entries[f.key].value == f.value
            && s'.balances.entries[f.key].expires == s.now + c.balanceTTL
  {
  }

  lemma StatusStored(c: Config, s: State, r: int)
    requires Remembers(s) && Enabled(c, s, StatusSet(r, true))
    ensures r in s.statuses.readers && s.statuses.readers[r].Fetched?
    ensures var f, s' := s.statuses.readers[r], Apply(c, s, StatusSet(r, true));
            && f.key in s'.statuses.entries && s'.statuses.entries[f.key].value == f.value
            && s'.statuses.entries[f.key].expires == s.now + (if f.value == Pending then 2_000 else c.statusTTL)
  {
  }

  lemma {:induction false} BalanceEntryKept(c: Config, acts: seq<Action>, more: seq<Action>, id: AccountId)
    requires Run(c, acts).Some? && Run(c, acts + more).Some? && id in Run(c, acts).value.balances.entries
    requires LeavesBalance(c, acts, more, id)
    ensures SameEntry(Run(c, acts).value.balances, Run(c, acts + more).value.balances, id)
    decreases |more|
  {
    hide Apply, Enabled, TouchesBalance;
    if more == [] {
      assert acts + more == acts;
    } else {
      var init := more[..|more| - 1];
      assert (acts + more)[..|acts + more| - 1] == acts + init;
      BalanceEntryKept(c, acts, init, id);
      EntryStays(c, Run(c, acts + init).value, more[|more| - 1], id);
    }
  }

  lemma {:induction false} StatusEntryKept(c: Config, acts: seq<Action>, more: seq<Action>, tx: TxId)
    requires Run(c, acts).Some? && Run(c, acts + more).Some? && tx in Run(c, acts).value.statuses.entries
    requires LeavesStatus(c, acts, more, tx)
    ensures SameEntry(Run(c, acts).value.statuses, Run(c, acts + more).value.statuses, tx)
    decreases |more|
  {
    hide Apply, Enabled, TouchesStatus;
    if more == [] {
      assert acts + more == acts;
    } else {
      var init := more[..|more| - 1];
      assert (acts + more)[..|acts + more| - 1] == acts + init;
      StatusEntryKept(c, acts, init, tx);
      EntryStays(c, Run(c, acts + init).value, more[|more| - 1], tx);
    }
  }

  /** A balance that was set is served at every instant before the set time plus the TTL, and at none after, as long as
      no DEL, eviction or later SET of its key comes in between. */
  lemma BalanceIsKept(c: Config, acts: seq<Action>, r: int, more: seq<Action>)
    requires Run(c, acts).Some? && Enabled(c, Run(c, acts).value, BalanceSet(r, true))
    requires Run(c, acts + [BalanceSet(r, true)] + more).Some?
    requires LeavesBalance(c, acts + [BalanceSet(r, true)], more, Run(c, acts).value.balances.readers[r].key)
    ensures var s, s' := Run(c, acts).value, Run(c, acts + [BalanceSet(r, true)] + more).value;
            var f := s.balances.readers[r];
            Get(s'.balances, f.key, s'.now) == if s'.now < s.now + c.balanceTTL then Some(f.value) else None
  {
    hide Apply, Enabled, LeavesBalance;
    var s, stored := Run(c, acts).value, acts + [BalanceSet(r, true)];
    assert stored[..|stored| - 1] == acts;
    BalanceStored(c, s, r);
    BalanceEntryKept(c, stored, more, s.balances.readers[r].key);
  }

  /** The same for a status: 2000 ms for "pending", the full TTL for "failed" and for "completed". */
  lemma StatusIsKept(c: Config, acts: seq<Action>, r: int, more: seq<Action>)
    requires Run(c, acts).Some? && Enabled(c, Run(c, acts).value, StatusSet(r, true))
    requires Run(c, acts + [StatusSet(r, true)] + more).Some?
    requires LeavesStatus(c, acts + [StatusSet(r, true)], more, Run(c, acts).value.statuses.readers[r].key)
    ensures var s, s' := Run(c, acts).value, Run(c, acts + [StatusSet(r, true)] + more).value;
            var f := s.statuses.readers[r];
            var until := s.now + (match f.value case Pending => 2_000 case Failed => c.statusTTL case Completed => c.statusTTL);
            Get(s'.statuses, f.key, s'.now) == if s'.now < until then Some(f.value) else None
  {
    hide Apply, Enabled, LeavesStatus;
    var s, stored := Run(c, acts).value, acts + [StatusSet(r, true)];
    assert stored[..|stored| - 1] == acts;
    StatusStored(c, s, r);
    StatusEntryKept(c, stored, more, s.statuses.readers[r].key);
  }

  /** A DEL that reaches Redis, or an eviction, leaves a miss. */
  lemma DeletedIsAMiss(c: Config, s: State, a: Action, key: int)
    requires Remembers(s) && Enabled(c, s, a)
    ensures TouchesBalance(s, a, key) && !a.BalanceSet? ==> Get(Apply(c, s, a).balances, key, Apply(c, s, a).now) == None
    ensures TouchesStatus(s, a, key) && !a.StatusSet? ==> Get(Apply(c, s, a).statuses, key, Apply(c, s, a).now) == None
  {
    hide Protocol.Apply, Protocol.Enabled;
  }

  /** No theorem rests on a healthy cache: at any time a lookup can miss, a read show any snapshot that has the key, a SET
      or DEL be lost, an entry be evicted. */
  lemma CacheCanFail(c: Config, s: State, r: int, k: nat, key: int, a: Protocol.Action)
    ensures r !in s.balances.readers ==> Enabled(c, s, BalanceMiss(r, key))
    ensures r !in s.statuses.readers ==> Enabled(c, s, StatusMiss(r, key))
    ensures r in s.balances.readers && s.balances.readers[r] == Missed(key) && k < |s.balances.hist| && key in s.balances.hist[k].data ==>
              Enabled(c, s, BalanceFetch(r, k))
    ensures r in s.statuses.readers && s.statuses.readers[r] == Missed(key) && k < |s.statuses.hist| && key in s.statuses.hist[k].data ==>
              Enabled(c, s, StatusFetch(r, k))
    ensures Enabled(c, s, BalanceSet(r, true)) ==> Enabled(c, s, BalanceSet(r, false))
    ensures Enabled(c, s, StatusSet(r, true)) ==> Enabled(c, s, StatusSet(r, false))
    ensures Enabled(c, s, BalanceEvict(key)) && Enabled(c, s, StatusEvict(key))
    ensures Protocol.Enabled(c.base, s.p, a) ==> Enabled(c, s, Step(a, true)) && Enabled(c, s, Step(a, false))
  {
    hide Protocol.Enabled;
  }

  /** Time passes by any amount, and passing is all it does: no entry, reader or goroutine changes. */
  lemma TimePasses(c: Config, s: State, d: nat)
    requires Remembers(s)
    ensures Enabled(c, s, Tick(d))
    ensures var s' := Apply(c, s, Tick(d));
            && s'.now == s.now + d && s'.p == s.p
            && s'.balances.entries == s.balances.entries && s'.balances.readers == s.balances.readers
            && s'.statuses.entries == s.statuses.entries && s'.statuses.readers == s.statuses.readers
  {
  }

  /** The last snapshot is the present one. */
  lemma {:induction false} LastIsNow(c: Config, acts: seq<Action>)
    requires Run(c, acts).Some?
    ensures var s := Run(c, acts).value;
            && s.balances.hist[|s.balances.hist| - 1] == Snap(s.now, s.p.db.bal)
            && s.statuses.hist[|s.statuses.hist| - 1] == Snap(s.now, StatusData(s.p.rows))
  {
    hide Apply, Enabled, StatusData;
    if acts == [] {
      InitNow(c);
    } else {
      var m, a := Run(c, acts[..|acts| - 1]).value, acts[|acts| - 1];
      LastIsNow(c, acts[..|acts| - 1]);
      HistoryGrows(c, m, a);
      SamePresent(c, m, a);
    }
  }

  lemma InitNow(c: Config)
    ensures Init(c).balances.hist == [Snap(0, c.base.open)] && Init(c).p.db.bal == c.base.open && Init(c).now == 0
    ensures Init(c).statuses.hist == [Snap(0, StatusData(Init(c).p.rows))]
  {
  }

  lemma SamePresent(c: Config, s: State, a: Action)
    requires Remembers(s) && Enabled(c, s, a)
    ensures var s' := Apply(c, s, a);
            s'.balances.hist == s.balances.hist ==> s'.now == s.now && s'.p == s.p
  {
    hide Protocol.Apply, Protocol.Enabled;
  }

  /** A miss reads through: what the primary holds is answered and stored, and no other key and nothing else changes. */
  lemma MissReadsThrough(c: Config, acts: seq<Action>, r: int, id: AccountId) returns (longer: seq<Action>)
    requires c.Valid() && Run(c, acts).Some?
    requires r !in Run(c, acts).value.balances.readers && id in Run(c, acts).value.p.db.bal
    ensures var k := |Run(c, acts).value.balances.hist| - 1;
            longer == acts + [BalanceMiss(r, id)] + [BalanceFetch(r, k)] + [BalanceSet(r, true)] && Run(c, longer).Some?
    ensures var s, s' := Run(c, acts).value, Run(c, longer).value;
            && s'.p == s.p && s'.now == s.now && s'.statuses == s.statuses && s'.balances.readers == s.balances.readers
            && Get(s'.balances, id, s'.now) == Some(s.p.db.bal[id])
            && forall key :: key != id ==> Get(s'.balances, key, s'.now) == Get(s.balances, key, s.now)
  {
    hide Run;
    LastIsNow(c, acts);
    var s := Run(c, acts).value;
    var s1 := Apply(c, s, BalanceMiss(r, id));
    longer := Extended(c, acts, s, BalanceMiss(r, id));
    var k := |s.balances.hist| - 1;
    longer := Extended(c, longer, s1, BalanceFetch(r, k));
    longer := Extended(c, longer, Apply(c, s1, BalanceFetch(r, k)), BalanceSet(r, true));
  }

  lemma StatusReadsThrough(c: Config, acts: seq<Action>, r: int, tx: TxId) returns (longer: seq<Action>)
    requires c.Valid() && Run(c, acts).Some?
    requires r !in Run(c, acts).value.statuses.readers && tx in Run(c, acts).value.p.rows
    ensures var k := |Run(c, acts).value.statuses.hist| - 1;
            longer == acts + [StatusMiss(r, tx)] + [StatusFetch(r, k)] + [StatusSet(r, true)] && Run(c, longer).Some?
    ensures var s, s' := Run(c, acts).value, Run(c, longer).value;
            && s'.p == s.p && s'.now == s.now && s'.balances == s.balances && s'.statuses.readers == s.statuses.readers
            && Get(s'.statuses, tx, s'.now) == Some(s.p.rows[tx].status)
            && forall key :: key != tx ==> Get(s'.statuses, key, s'.now) == Get(s.statuses, key, s.now)
  {
    hide Run;
    LastIsNow(c, acts);
    var s := Run(c, acts).value;
    var s1 := Apply(c, s, StatusMiss(r, tx));
    longer := Extended(c, acts, s, StatusMiss(r, tx));
    var k := |s.statuses.hist| - 1;
    longer := Extended(c, longer, s1, StatusFetch(r, k));
    longer := Extended(c, longer, Apply(c, s1, StatusFetch(r, k)), StatusSet(r, true));
  }

  lemma Extended(c: Config, acts: seq<Action>, s: State, a: Action) returns (longer: seq<Action>)
    requires Run(c, acts) == Some(s) && Enabled(c, s, a)
    ensures longer == acts + [a] && Run(c, longer) == Some(Apply(c, s, a))
  {
    longer := acts + [a];
    assert longer[..|acts|] == acts;
  }
}
