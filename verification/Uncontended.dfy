/** A database transaction nobody contends with: its statements together are one atomic checked transfer. */
module Uncontended {
  import opened Domain
  import opened Ledger
  import opened Protocol
  import IdGenerator
  import Locking

  lemma Extend(c: Config, acts: seq<Action>, s: State, a: Action) returns (longer: seq<Action>)
    requires Run(c, acts) == Some(s) && Enabled(c, s, a)
    ensures Run(c, longer) == Some(Apply(c, s, a)) && longer == acts + [a]
    ensures AllWork(acts) && Works(a) ==> AllWork(longer)
  {
    longer := acts + [a];
    assert longer[..|acts|] == acts;
  }

  /** The database transaction of `t` is about to run, nothing is locked, and its checks will pass. */
  ghost predicate Clear(s: State, t: ThreadId) {
    && t in s.threads && s.threads[t].InDb()
    && t in s.db.txs && s.db.locks == map[]
    && s.db.txs[t] == Locking.Tx(s.threads[t].job, s.threads[t].Syncing?, Locking.Select, map[])
    && s.db.rule == CENTS && Covered(s.db.bal, s.threads[t].job.req) && s.threads[t].job.req.dst in s.db.bal
  }

  /** The same state with every statement before COMMIT executed. */
  function BeforeCommit(s: State, t: ThreadId): State
    requires Clear(s, t)
  {
    var j := s.threads[t].job;
    s.(db := Staged(s.db, t, Locking.Commit, Locking.BothWritten(CENTS, s.db.bal, j), map[j.req.src := t, j.req.dst := t]))
  }

  lemma Progress(c: Config, acts: seq<Action>, s: State, t: ThreadId, d: Locking.Db) returns (longer: seq<Action>)
    requires Run(c, acts) == Some(s) && Enabled(c, s, Statement(t)) && Locking.Execute(s.db, t) == d && t in d.txs
    ensures Run(c, longer) == Some(s.(db := d)) && acts <= longer && (AllWork(acts) ==> AllWork(longer))
  {
    longer := Extend(c, acts, s, Statement(t));
  }

  /** The database with the transaction of `t` further on. */
  function Staged(d: Locking.Db, t: ThreadId, stage: Locking.Stage, view: Balances, locks: map<AccountId, ThreadId>): Locking.Db
    requires t in d.txs
  {
    d.(locks := locks, txs := d.txs[t := d.txs[t].(stage := stage, view := view)])
  }

  lemma Selects(c: Config, acts: seq<Action>, s: State, t: ThreadId) returns (longer: seq<Action>)
    requires Run(c, acts) == Some(s) && Clear(s, t)
    ensures Run(c, longer) == Some(s.(db := Staged(s.db, t, Locking.Debit, map[], map[s.threads[t].job.req.src := t])))
    ensures acts <= longer && (AllWork(acts) ==> AllWork(longer))
  {
    hide Run, AllWork;
    var d, tx, src := s.db, s.db.txs[t], s.threads[t].job.req.src;
    var next := if tx.checksDest then Locking.CheckDest else Locking.Debit;
    CentsPost(d.bal, tx.job);
    longer := Progress(c, acts, s, t, Staged(d, t, next, map[], map[src := t]));
    if tx.checksDest {
      longer := Progress(c, longer, s.(db := Staged(d, t, next, map[], map[src := t])), t,
                         Staged(d, t, Locking.Debit, map[], map[src := t]));
    }
  }

  lemma Debits(c: Config, acts: seq<Action>, s: State, t: ThreadId) returns (longer: seq<Action>)
    requires Clear(s, t)
    requires Run(c, acts) == Some(s.(db := Staged(s.db, t, Locking.Debit, map[], map[s.threads[t].job.req.src := t])))
    ensures var j := s.threads[t].job;
            Run(c, longer) == Some(s.(db := Staged(s.db, t, Locking.Credit, Locking.DebitWritten(CENTS, s.db.bal, j),
                                                   map[j.req.src := t])))
    ensures acts <= longer && (AllWork(acts) ==> AllWork(longer))
  {
    hide Run, AllWork;
    var d, j := s.db, s.threads[t].job;
    longer := Progress(c, acts, s.(db := Staged(d, t, Locking.Debit, map[], map[j.req.src := t])), t,
                       Staged(d, t, Locking.Credit, Locking.DebitWritten(CENTS, d.bal, j), map[j.req.src := t]));
  }

  /** The credit sees the debit when a transfer goes to its own source. */
  lemma Credits(c: Config, acts: seq<Action>, s: State, t: ThreadId) returns (longer: seq<Action>)
    requires Clear(s, t)
    requires var j := s.threads[t].job;
             Run(c, acts) == Some(s.(db := Staged(s.db, t, Locking.Credit, Locking.DebitWritten(CENTS, s.db.bal, j),
                                                  map[j.req.src := t])))
    ensures var j := s.threads[t].job;
            Run(c, longer) == Some(s.(db := Staged(s.db, t, Locking.Record, Locking.BothWritten(CENTS, s.db.bal, j),
                                                   map[j.req.src := t, j.req.dst := t])))
    ensures acts <= longer && (AllWork(acts) ==> AllWork(longer))
  {
    hide Run, AllWork;
    var d, j := s.db, s.threads[t].job;
    var d3 := Staged(d, t, Locking.Credit, Locking.DebitWritten(CENTS, d.bal, j), map[j.req.src := t]);
    longer := Progress(c, acts, s.(db := d3), t,
                       Staged(d, t, Locking.Record, Locking.BothWritten(CENTS, d.bal, j), map[j.req.src := t, j.req.dst := t]));
  }

  /** Statement by statement, an uncontended transaction gets to its COMMIT. */
  lemma ReachesCommit(c: Config, acts: seq<Action>, s: State, t: ThreadId) returns (longer: seq<Action>)
    requires Run(c, acts) == Some(s) && Clear(s, t)
    ensures Run(c, longer) == Some(BeforeCommit(s, t)) && acts <= longer && (AllWork(acts) ==> AllWork(longer))
  {
    hide Run, AllWork, Locking.BothWritten, Locking.DebitWritten;
    longer := Selects(c, acts, s, t);
    longer := Debits(c, longer, s, t);
    longer := Credits(c, longer, s, t);
    var j := s.threads[t].job;
    var d4 := Staged(s.db, t, Locking.Record, Locking.BothWritten(CENTS, s.db.bal, j), map[j.req.src := t, j.req.dst := t]);
    longer := Progress(c, longer, s.(db := d4), t, BeforeCommit(s, t).db);
  }

  /** The transfer as one atomic step: balances posted, row completed, journal extended, locks gone. */
  function Atomically(s: State, t: ThreadId): State
    requires Clear(s, t)
  {
    var j := s.threads[t].job;
    s.(db := Locking.Db(Post(s.db.bal, j.req), map[], s.db.txs - {t}, s.db.journal + [j]),
       rows := Recorded(s.rows, s.threads[t]))
  }

  lemma CommitIsAtomic(s: State, t: ThreadId)
    requires Clear(s, t)
    ensures Committed(BeforeCommit(s, t), t) == Atomically(s, t)
  {
    Locking.WritesArePost(CENTS, s.db.bal, s.threads[t].job);
    CentsPost(s.db.bal, s.threads[t].job);
    assert BeforeCommit(s, t).db.txs - {t} == s.db.txs - {t};
  }

  /** An uncontended transfer goes through, and the statements together are the atomic checked transfer. */
  lemma GoesThrough(c: Config, acts: seq<Action>, s: State, t: ThreadId) returns (longer: seq<Action>)
    requires Run(c, acts) == Some(s) && Clear(s, t)
    ensures Run(c, longer) == Some(AfterCommit(Atomically(s, t), t)) && acts <= longer && (AllWork(acts) ==> AllWork(longer))
  {
    longer := ReachesCommit(c, acts, s, t);
    CommitIsAtomic(s, t);
    longer := Extend(c, longer, BeforeCommit(s, t), Commit(t));
  }

  /** No goroutine is at work and nothing is open in the database. */
  ghost predicate Quiet(s: State) {
    s.threads == map[] && s.db.txs == map[] && s.db.locks == map[] && s.db.rule == CENTS
  }

  /** After a synchronous transfer that nobody else contends with, its reply sent and its cache keys deleted. */
  function AfterSync(s: State, req: Request, now: int): State
    requires req.src in s.db.bal
  {
    var j := Job(IdGenerator.Next(s.counter, now), req);
    s.(db := Locking.Db(Post(s.db.bal, req), map[], map[], s.db.journal + [j]),
       rows := Recorded(s.rows, Syncing(j)), counter := j.id)
  }

  lemma SyncTransfer(c: Config, acts: seq<Action>, s: State, req: Request, now: int) returns (longer: seq<Action>)
    requires Run(c, acts) == Some(s) && Quiet(s) && Enabled(c, s, Submit(0, req, now, false))
    requires Covered(s.db.bal, req) && req.dst in s.db.bal
    ensures Run(c, longer) == Some(AfterSync(s, req, now)) && acts <= longer && (AllWork(acts) ==> AllWork(longer))
  {
    hide Run, AllWork;
    longer := Extend(c, acts, s, Submit(0, req, now, false));
    var j := Job(IdGenerator.Next(s.counter, now), req);
    var s1 := s.(counter := j.id, db := Locking.Begin(s.db, 0, j, true), threads := map[0 := Syncing(j)]);
    assert Apply(c, s, Submit(0, req, now, false)) == s1;
    longer := GoesThrough(c, longer, s1, 0);
    var s2 := AfterCommit(Atomically(s1, 0), 0);
    longer := Extend(c, longer, s2, Invalidate(0));
    SyncReturned(s, s1, s2, req, now);
  }

  lemma SyncReturned(s: State, s1: State, s2: State, req: Request, now: int)
    requires Quiet(s) && Covered(s.db.bal, req)
    requires var j := Job(IdGenerator.Next(s.counter, now), req);
             s1 == s.(counter := j.id, db := Locking.Begin(s.db, 0, j, true), threads := map[0 := Syncing(j)])
    requires Clear(s1, 0) && s2 == AfterCommit(Atomically(s1, 0), 0)
    ensures Leave(s2, 0) == AfterSync(s, req, now)
  {
    assert s1.db.txs - {0} == map[];
    assert s2.threads - {0} == map[];
  }
}
