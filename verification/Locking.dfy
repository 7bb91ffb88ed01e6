/** The two database transactions, `createSync` and `settle`, one SQL statement at a time,
    at READ COMMITTED with row locks held to the end of the transaction. */
module Locking {
  import opened Domain
  import opened Ledger

  /** The statement a transaction runs next. */
  datatype Stage = Select | CheckDest | Debit | Credit | Record | Commit

  /** An open transaction. `checksDest` tells `createSync` from `settle`;
      `view` holds the balances it has written and not committed. */
  datatype Tx = Tx(job: Job, checksDest: bool, stage: Stage, view: Balances)

  /** Committed balances, row locks on accounts, open transactions, and (history) the
      jobs committed so far, in commit order. `rule` is how the statements check and write a balance. */
  datatype Db = Db(bal: Balances, locks: map<AccountId, ThreadId>, txs: map<ThreadId, Tx>, journal: seq<Job>,
                   rule: Rule := CENTS)

  predicate Available(d: Db, t: ThreadId, a: AccountId) {
    a in d.locks ==> d.locks[a] == t
  }

  /** The account whose row the next statement locks, if that row exists. */
  function Wanted(tx: Tx): Option<AccountId> {
    match tx.stage
    case Select => Some(tx.job.req.src)
    case Debit => Some(tx.job.req.src)
    case Credit => Some(tx.job.req.dst)
    case _ => None
  }

  predicate Blocked(d: Db, t: ThreadId)
    requires t in d.txs
  {
    var w := Wanted(d.txs[t]);
    w.Some? && w.value in d.bal && !Available(d, t, w.value)
  }

  function Begin(d: Db, t: ThreadId, job: Job, checksDest: bool): Db {
    d.(txs := d.txs[t := Tx(job, checksDest, Select, map[])])
  }

  function Unlocked(d: Db, t: ThreadId): map<AccountId, ThreadId> {
    map a | a in d.locks && d.locks[a] != t :: d.locks[a]
  }

  /** Every way of ending without a commit: an error return, a deadlock abort, a crash. */
  function Rollback(d: Db, t: ThreadId): Db {
    d.(locks := Unlocked(d, t), txs := d.txs - {t})
  }

  /** The latest version of a row this transaction can see. */
  function Seen(d: Db, tx: Tx, a: AccountId): int
    requires a in d.bal
  {
    if a in tx.view then tx.view[a] else d.bal[a]
  }

  /** UPDATE accounts SET balance = ... WHERE id = a: locks and writes the row if there is one. */
  function Update(d: Db, t: ThreadId, a: AccountId, write: (int, Job) -> int, next: Stage): Db
    requires t in d.txs
  {
    var tx := d.txs[t];
    if a in d.bal then
      d.(locks := d.locks[a := t],
         txs := d.txs[t := tx.(stage := next, view := tx.view[a := write(Seen(d, tx, a), tx.job)])])
    else
      d.(txs := d.txs[t := tx.(stage := next)])
  }

  /** One statement. A failed check ends the transaction. */
  function Execute(d: Db, t: ThreadId): Db
    requires t in d.txs && !Blocked(d, t) && !d.txs[t].stage.Commit?
  {
    var tx := d.txs[t];
    var req := tx.job.req;
    match tx.stage
    case Select =>
      if !Payable(d.rule, d.bal, tx.job) then Rollback(d, t)
      else d.(locks := d.locks[req.src := t],
              txs := d.txs[t := tx.(stage := if tx.checksDest then CheckDest else Debit)])
    case CheckDest =>
      if req.dst !in d.bal then Rollback(d, t) else d.(txs := d.txs[t := tx.(stage := Debit)])
    case Debit => Update(d, t, req.src, d.rule.debit, Credit)
    case Credit => Update(d, t, req.dst, d.rule.credit, Record)
    case Record => d.(txs := d.txs[t := tx.(stage := Commit)])
  }

  /** COMMIT publishes the transaction's own writes and releases its locks. */
  function CommitTx(d: Db, t: ThreadId): Db
    requires t in d.txs
  {
    Db(d.bal + d.txs[t].view, Unlocked(d, t), d.txs - {t}, d.journal + [d.txs[t].job], d.rule)
  }

  datatype Action =
    | Open(t: ThreadId, job: Job, checksDest: bool)
    | Statement(t: ThreadId)
    | Finish(t: ThreadId)
    | Abort(t: ThreadId)

  predicate Enabled(d: Db, a: Action) {
    match a
    case Open(t, _, _) => t !in d.txs
    case Statement(t) => t in d.txs && !Blocked(d, t) && !d.txs[t].stage.Commit?
    case Finish(t) => t in d.txs && d.txs[t].stage.Commit?
    case Abort(t) => t in d.txs
  }

  function Apply(d: Db, a: Action): Db
    requires Enabled(d, a)
  {
    match a
    case Open(t, job, checksDest) => Begin(d, t, job, checksDest)
    case Statement(t) => Execute(d, t)
    case Finish(t) => CommitTx(d, t)
    case Abort(t) => Rollback(d, t)
  }

  function Fresh(open: Balances): Db {
    Db(open, map[], map[], [])
  }

  function FreshBy(rule: Rule, open: Balances): Db {
    Fresh(open).(rule := rule)
  }

  /** The state after a schedule; None when some action is not possible where it stands. */
  function Run(d: Db, acts: seq<Action>): Option<Db> {
    if acts == [] then Some(d) else
      match Run(d, acts[..|acts| - 1])
      case None => None
      case Some(m) =>
        if Enabled(m, acts[|acts| - 1]) then Some(Apply(m, acts[|acts| - 1])) else None
  }

  // ---------------------------------------------------------------- the invariant

  /** The rows a transaction has locked. */
  function Held(d: Db, tx: Tx): set<AccountId> {
    var req := tx.job.req;
    match tx.stage
    case Select => {}
    case Record => {req.src} + (if req.dst in d.bal then {req.dst} else {})
    case Commit => {req.src} + (if req.dst in d.bal then {req.dst} else {})
    case _ => {req.src}
  }

  function DebitWritten(r: Rule, b: Balances, j: Job): Balances
    requires j.req.src in b
  {
    map[j.req.src := r.debit(b[j.req.src], j)]
  }

  function BothWritten(r: Rule, b: Balances, j: Job): Balances
    requires j.req.src in b
  {
    var debit := DebitWritten(r, b, j);
    if j.req.dst !in b then debit
    else debit[j.req.dst := r.credit(if j.req.dst == j.req.src then debit[j.req.src] else b[j.req.dst], j)]
  }

  /** The uncommitted writes a transaction should have made by now. */
  function Written(d: Db, tx: Tx): Balances
    requires tx.stage.Select? || tx.job.req.src in d.bal
  {
    match tx.stage
    case Credit => DebitWritten(d.rule, d.bal, tx.job)
    case Record => BothWritten(d.rule, d.bal, tx.job)
    case Commit => BothWritten(d.rule, d.bal, tx.job)
    case _ => map[]
  }

  /** What a transaction may rely on: its check still holds, its locks are its own,
      and its writes are those of an atomic transfer on the committed balances. */
  predicate TxOk(d: Db, t: ThreadId)
    requires t in d.txs
  {
    var tx := d.txs[t];
    && (!tx.stage.Select? ==> Payable(d.rule, d.bal, tx.job))
    && tx.view == Written(d, tx)
    && (forall a <- Held(d, tx) :: a in d.locks && d.locks[a] == t)
    && (tx.checksDest && !tx.stage.Select? && !tx.stage.CheckDest? ==> tx.job.req.dst in d.bal)
    && (tx.stage.CheckDest? ==> tx.checksDest)
  }

  predicate Consistent(d: Db) {
    && (forall t <- d.txs :: TxOk(d, t))
    && (forall a <- d.locks :: d.locks[a] in d.txs && a in Held(d, d.txs[d.locks[a]]))
  }

  /** Every lock belongs to an open transaction. */
  lemma NoTransactionNoLock(d: Db)
    requires Consistent(d)
    ensures d.txs == map[] ==> d.locks == map[]
  {
    if d.locks.Keys != {} {
      var a := Pick(d.locks.Keys);
      assert d.locks[a] in d.txs;
    }
  }

  /** Another transaction does not notice a change that leaves it, its locks and the committed balances alone. */
  lemma Undisturbed(d: Db, d': Db, u: ThreadId)
    requires u in d.txs && TxOk(d, u)
    requires d'.bal == d.bal && d'.rule == d.rule && u in d'.txs && d'.txs[u] == d.txs[u]
    requires forall a <- d.locks :: d.locks[a] == u ==> a in d'.locks && d'.locks[a] == u
    ensures TxOk(d', u)
  {
  }

  lemma RollbackConsistent(d: Db, t: ThreadId)
    requires Consistent(d)
    ensures Consistent(Rollback(d, t))
  {
    var d' := Rollback(d, t);
    forall u | u in d'.txs ensures TxOk(d', u) {
      Undisturbed(d, d', u);
    }
  }

  lemma BeginConsistent(d: Db, t: ThreadId, job: Job, checksDest: bool)
    requires Consistent(d) && t !in d.txs
    ensures Consistent(Begin(d, t, job, checksDest))
  {
    var d' := Begin(d, t, job, checksDest);
    forall u | u in d'.txs ensures TxOk(d', u) {
      if u != t { Undisturbed(d, d', u); }
    }
  }

  /** What a statement changes when its check passes: its own transaction, and at most one lock, taken by it. */
  lemma OwnChange(d: Db, t: ThreadId)
    requires Consistent(d) && Enabled(d, Statement(t)) && t in Execute(d, t).txs
    ensures var d' := Execute(d, t);
            d'.bal == d.bal && d'.rule == d.rule && d'.journal == d.journal && d'.txs == d.txs[t := d'.txs[t]]
    ensures var d' := Execute(d, t);
            d'.txs[t].job == d.txs[t].job && d'.txs[t].checksDest == d.txs[t].checksDest
    ensures var d' := Execute(d, t);
            d'.locks == d.locks || exists a :: Available(d, t, a) && d'.locks == d.locks[a := t]
  {
  }

  /** No statement before COMMIT changes what is committed. */
  lemma StatementCommitsNothing(d: Db, t: ThreadId)
    requires Enabled(d, Statement(t))
    ensures Execute(d, t).bal == d.bal && Execute(d, t).journal == d.journal && Execute(d, t).rule == d.rule
  {
  }

  lemma OwnStep(d: Db, t: ThreadId)
    requires Consistent(d) && Enabled(d, Statement(t)) && t in Execute(d, t).txs
    ensures var d' := Execute(d, t);
            TxOk(d', t) && (forall a <- d'.locks :: d'.locks[a] == t ==> a in Held(d', d'.txs[t]))
  {
    assert TxOk(d, t);
  }

  lemma ExecuteConsistent(d: Db, t: ThreadId)
    requires Consistent(d) && Enabled(d, Statement(t))
    ensures Consistent(Execute(d, t))
  {
    var d' := Execute(d, t);
    if t !in d'.txs {
      RollbackConsistent(d, t);
    } else {
      OwnChange(d, t);
      OwnStep(d, t);
      forall u | u in d'.txs ensures TxOk(d', u) {
        if u != t { Undisturbed(d, d', u); }
      }
      forall a | a in d'.locks
        ensures d'.locks[a] in d'.txs && a in Held(d', d'.txs[d'.locks[a]])
      {
        if d'.locks[a] != t { assert d.locks[a] == d'.locks[a]; }
      }
    }
  }

  /** At COMMIT the funds check still holds, and the committed balances move by one atomic transfer. */
  lemma CommitIsPost(d: Db, t: ThreadId)
    requires Consistent(d) && Enabled(d, Finish(t))
    ensures Payable(d.rule, d.bal, d.txs[t].job)
    ensures CommitTx(d, t).bal == PostBy(d.rule, d.bal, d.txs[t].job)
    ensures d.txs[t].checksDest ==> d.txs[t].job.req.dst in d.bal
  {
    assert TxOk(d, t);
    WritesArePost(d.rule, d.bal, d.txs[t].job);
  }

  lemma WritesArePost(r: Rule, b: Balances, j: Job)
    requires j.req.src in b
    ensures b + BothWritten(r, b, j) == PostBy(r, b, j)
  {
  }

  /** No other transaction relies on a row the committing one wrote. */
  lemma CommitConsistent(d: Db, t: ThreadId)
    requires Consistent(d) && Enabled(d, Finish(t))
    ensures Consistent(CommitTx(d, t))
  {
    hide TxOk, Payable, PostBy, Held;
    var d' := CommitTx(d, t);
    forall u | u in d'.txs ensures TxOk(d', u) {
      CommitUndisturbed(d, t, u);
    }
    forall a | a in d'.locks
      ensures d'.locks[a] in d'.txs && a in Held(d', d'.txs[d'.locks[a]])
    {
      CommitKeepsLock(d, t, a);
    }
  }

  lemma CommitKeepsLock(d: Db, t: ThreadId, a: AccountId)
    requires Consistent(d) && Enabled(d, Finish(t)) && a in CommitTx(d, t).locks
    ensures var d' := CommitTx(d, t); d'.locks[a] in d'.txs && a in Held(d', d'.txs[d'.locks[a]])
  {
    hide TxOk, Held, Payable, PostBy;
    CommitWritesHeld(d, t);
    var u := d.locks[a];
    assert u in d.txs && a in Held(d, d.txs[u]);
    SameHeld(d, CommitTx(d, t), d.txs[u]);
  }

  lemma SameHeld(d: Db, d': Db, tx: Tx)
    requires d'.bal.Keys == d.bal.Keys
    ensures Held(d', tx) == Held(d, tx)
  {
  }

  /** A commit changes only balances of rows its transaction has locked. */
  lemma CommitWritesHeld(d: Db, t: ThreadId)
    requires Consistent(d) && Enabled(d, Finish(t))
    ensures CommitTx(d, t).bal.Keys == d.bal.Keys
    ensures forall a <- d.bal :: a !in Held(d, d.txs[t]) ==> CommitTx(d, t).bal[a] == d.bal[a]
  {
    assert TxOk(d, t);
  }

  lemma CommitUndisturbed(d: Db, t: ThreadId, u: ThreadId)
    requires Consistent(d) && Enabled(d, Finish(t)) && u in d.txs && u != t
    ensures TxOk(CommitTx(d, t), u)
  {
    CommitWritesHeld(d, t);
    assert TxOk(d, t) && TxOk(d, u);
    var d', tx := CommitTx(d, t), d.txs[u];
    forall a | a in Held(d, tx) ensures a in d'.locks && (a in d.bal ==> d'.bal[a] == d.bal[a]) {
      assert a !in Held(d, d.txs[t]);
    }
    SameWrites(d, d', tx);
  }

  /** What a transaction should have written depends only on the rows it has locked. */
  lemma SameWrites(d: Db, d': Db, tx: Tx)
    requires d'.rule == d.rule && d'.bal.Keys == d.bal.Keys && (tx.stage.Select? || tx.job.req.src in d.bal)
    requires forall a <- Held(d, tx) :: a in d.bal ==> d'.bal[a] == d.bal[a]
    ensures Held(d', tx) == Held(d, tx) && Written(d', tx) == Written(d, tx)
  {
  }

  // ---------------------------------------------------------------- the theorems

  /** Any statement-level interleaving of any number of transactions, with aborts anywhere, is a serial run of
      atomic checked transfers in commit order, whatever rule the statements follow. */
  lemma {:induction false} SerializableBy(rule: Rule, open: Balances, acts: seq<Action>)
    requires Run(FreshBy(rule, open), acts).Some?
    ensures var d := Run(FreshBy(rule, open), acts).value;
            Consistent(d) && d.rule == rule && ReplayBy(rule, open, d.journal) == Some(d.bal)
  {
    hide Payable, PostBy;
    if acts != [] {
      var init, a := acts[..|acts| - 1], acts[|acts| - 1];
      SerializableBy(rule, open, init);
      var m := Run(FreshBy(rule, open), init).value;
      match a
      case Open(t, job, checksDest) => BeginConsistent(m, t, job, checksDest);
      case Statement(t) => ExecuteConsistent(m, t); StatementCommitsNothing(m, t);
      case Abort(t) => RollbackConsistent(m, t);
      case Finish(t) =>
        CommitIsPost(m, t);
        CommitConsistent(m, t);
        ReplayByAppend(rule, open, m.journal, m.txs[t].job);
    }
  }

  /** In whole cents the serial run is that of the checked integer transfers. */
  lemma Serializable(open: Balances, acts: seq<Action>)
    requires Run(Fresh(open), acts).Some?
    ensures var d := Run(Fresh(open), acts).value;
            Consistent(d) && d.rule == CENTS && Replay(open, d.journal) == Some(d.bal)
  {
    SerializableBy(CENTS, open, acts);
    CentsReplay(open, Run(Fresh(open), acts).value.journal);
  }

  // ---------------------------------------------------------------- the decisions, rejections included

  /** The job a step decides, if it does: a COMMIT accepts it, a failed check rejects it. */
  function Decision(d: Db, a: Action): Option<Job>
    requires Enabled(d, a)
  {
    match a
    case Finish(t) => Some(d.txs[t].job)
    case Statement(t) => if t in Execute(d, t).txs then None else Some(d.txs[t].job)
    case _ => None
  }

  /** The jobs in the order in which they were decided. */
  function Decided(d: Db, acts: seq<Action>): seq<Job>
    requires Run(d, acts).Some?
  {
    if acts == [] then [] else
      var init, a := acts[..|acts| - 1], acts[|acts| - 1];
      var decision := Decision(Run(d, init).value, a);
      Decided(d, init) + (if decision.Some? then [decision.value] else [])
  }

  /** A decision is the one createSync would take on the committed balances of that moment. */
  lemma DecisionIsSync(d: Db, a: Action)
    requires Consistent(d) && d.rule == CENTS && Enabled(d, a)
    requires a.Finish? && !d.txs[a.t].checksDest ==> d.txs[a.t].job.req.dst in d.bal
    ensures Decision(d, a).Some? ==>
              var j := Decision(d, a).value;
              Accepts(d.bal, j.req) == a.Finish? && Apply(d, a).bal == (if a.Finish? then Post(d.bal, j.req) else d.bal)
    ensures Apply(d, a).journal == if a.Finish? then d.journal + [d.txs[a.t].job] else d.journal
    ensures a.Finish? ==> Decision(d, a) == Some(d.txs[a.t].job)
    ensures Decision(d, a).None? ==> Apply(d, a).bal == d.bal
  {
    match a
    case Finish(t) =>
      CommitIsPost(d, t);
      CentsPost(d.bal, d.txs[t].job);
    case Statement(t) =>
      StatementCommitsNothing(d, t);
      CentsPost(d.bal, d.txs[t].job);
    case _ =>
  }

  /** Every settle in the schedule credits an account that exists, as it never looks for it. */
  predicate DestsExist(open: Balances, acts: seq<Action>) {
    forall a <- acts :: a.Open? && !a.checksDest ==> a.job.req.dst in open
  }

  /** A transaction keeps its job, and one that checks its destination goes on to. */
  lemma TxStep(d: Db, a: Action, u: ThreadId)
    requires Enabled(d, a) && u in Apply(d, a).txs
    ensures var tx := Apply(d, a).txs[u];
            || (u in d.txs && tx.job == d.txs[u].job && tx.checksDest == d.txs[u].checksDest)
            || (a.Open? && a.t == u && tx.job == a.job && tx.checksDest == a.checksDest)
  {
  }

  lemma {:induction false} SettlesHaveDest(rule: Rule, open: Balances, acts: seq<Action>, t: ThreadId)
    requires Run(FreshBy(rule, open), acts).Some? && DestsExist(open, acts) && t in Run(FreshBy(rule, open), acts).value.txs
    ensures var tx := Run(FreshBy(rule, open), acts).value.txs[t]; !tx.checksDest ==> tx.job.req.dst in open
  {
    hide Apply, Enabled;
    if acts != [] {
      var init, a := acts[..|acts| - 1], acts[|acts| - 1];
      forall b | b in init ensures b in acts {}
      assert a in acts;
      TxStep(Run(FreshBy(rule, open), init).value, a, t);
      if t in Run(FreshBy(rule, open), init).value.txs { SettlesHaveDest(rule, open, init, t); }
    }
  }

  /** So every committed job names an existing destination. */
  lemma {:induction false} JournalHasDest(rule: Rule, open: Balances, acts: seq<Action>)
    requires Run(FreshBy(rule, open), acts).Some? && DestsExist(open, acts)
    ensures forall j <- Run(FreshBy(rule, open), acts).value.journal :: j.req.dst in open
  {
    hide Consistent, DestsExist;
    if acts != [] {
      var init, a := acts[..|acts| - 1], acts[|acts| - 1];
      DestsOfInit(open, acts);
      JournalHasDest(rule, open, init);
      SerializableBy(rule, open, init);
      var m := Run(FreshBy(rule, open), init).value;
      ReplayByKeys(rule, open, m.journal);
      match a
      case Finish(t) =>
        SettlesHaveDest(rule, open, init, t);
        CommitIsPost(m, t);
      case Statement(t) => StatementCommitsNothing(m, t);
      case _ =>
    }
  }

  lemma DestsOfInit(open: Balances, acts: seq<Action>)
    requires acts != [] && DestsExist(open, acts)
    ensures DestsExist(open, acts[..|acts| - 1])
  {
    forall b | b in acts[..|acts| - 1] ensures b in acts {}
  }

  /** Interleaved statements decide as createSync does one request after the other: in the order of their COMMITs
      and failed checks, exactly those are committed that it accepts, exactly those rejected that it rejects,
      and the committed balances are its own. */
  lemma {:induction false} InterleavingIsSync(open: Balances, acts: seq<Action>)
    requires Run(Fresh(open), acts).Some? && DestsExist(open, acts)
    ensures var d, jobs := Run(Fresh(open), acts).value, Decided(Fresh(open), acts);
            d.bal == RunSync(open, jobs) && d.journal == Chosen(open, jobs, true)
  {
    hide Apply, Enabled, Decision, Consistent, Chosen, RunSync;
    if acts == [] {
      SyncNothing(open);
    } else {
      var init, a := acts[..|acts| - 1], acts[|acts| - 1];
      DestsOfInit(open, acts);
      InterleavingIsSync(open, init);
      Serializable(open, init);
      var m, jobs := Run(Fresh(open), init).value, Decided(Fresh(open), init);
      RunSyncIsReplay(open, jobs);
      if a.Finish? { FinishHasDest(open, init, m, a); }
      DecisionIsSync(m, a);
      var decision := Decision(m, a);
      if decision.Some? {
        RunSyncAppend(open, jobs, decision.value);
        assert Decided(Fresh(open), acts) == jobs + [decision.value];
      } else {
        assert Decided(Fresh(open), acts) == jobs;
      }
    }
  }

  lemma FinishHasDest(open: Balances, acts: seq<Action>, m: Db, a: Action)
    requires Run(Fresh(open), acts) == Some(m) && DestsExist(open, acts) && a.Finish? && Enabled(m, a)
    ensures a.t in m.txs && (!m.txs[a.t].checksDest ==> m.txs[a.t].job.req.dst in open)
  {
    SettlesHaveDest(CENTS, open, acts, a.t);
  }

  /** Nothing else restricts the interleaving: a transaction can begin, run its next statement unless another holds the row it
      wants, commit at its end, and abort, whatever the others are doing. */
  lemma AnyoneCanMove(d: Db, t: ThreadId, job: Job, checksDest: bool)
    ensures t !in d.txs ==> Enabled(d, Open(t, job, checksDest))
    ensures t in d.txs ==> Enabled(d, Abort(t))
    ensures t in d.txs && d.txs[t].stage.Commit? ==> Enabled(d, Finish(t))
    ensures t in d.txs && !d.txs[t].stage.Commit? ==>
              var src, dst := d.txs[t].job.req.src, d.txs[t].job.req.dst;
              || (src in d.locks && d.locks[src] != t) || (dst in d.locks && d.locks[dst] != t) || Enabled(d, Statement(t))
  {
  }

  /** A statement can only wait in SELECT FOR UPDATE or in the credit, and only for a row another
      open transaction holds; rolling that one back frees it. */
  lemma WhoWaits(d: Db, t: ThreadId) returns (a: AccountId)
    requires Consistent(d) && t in d.txs && Blocked(d, t)
    ensures d.txs[t].stage.Select? || d.txs[t].stage.Credit?
    ensures a in d.locks && d.locks[a] != t && d.locks[a] in d.txs && Wanted(d.txs[t]) == Some(a)
    ensures !Blocked(Rollback(d, d.locks[a]), t)
  {
    assert TxOk(d, t);
    a := Wanted(d.txs[t]).value;
  }

  const OPPOSITE := map[1 := 50, 2 := 50]
  const THERE := Job(10, Request(1, 2, 5))
  const BACK := Job(11, Request(2, 1, 5))

  /** Two opposite transfers, each past its SELECT FOR UPDATE. */
  lemma OneLockEach() returns (acts: seq<Action>)
    ensures Run(Fresh(OPPOSITE), acts) ==
            Some(Db(OPPOSITE, map[1 := 0, 2 := 1],
                    map[0 := Tx(THERE, false, Debit, map[]), 1 := Tx(BACK, false, Debit, map[])], []))
  {
    var t0, t1 := Tx(THERE, false, Select, map[]), Tx(BACK, false, Select, map[]);
    var d0 := Fresh(OPPOSITE);
    var d1 := Db(OPPOSITE, map[], map[0 := t0], []);
    var d2 := Db(OPPOSITE, map[], map[0 := t0, 1 := t1], []);
    var d3 := Db(OPPOSITE, map[1 := 0], map[0 := t0.(stage := Debit), 1 := t1], []);
    acts := RunStep(d0, [], d0, Open(0, THERE, false), d1);
    acts := RunStep(d0, acts, d1, Open(1, BACK, false), d2);
    acts := RunStep(d0, acts, d2, Statement(0), d3);
    var d4 := Db(OPPOSITE, map[1 := 0, 2 := 1], map[0 := t0.(stage := Debit), 1 := t1.(stage := Debit)], []);
    acts := RunStep(d0, acts, d3, Statement(1), d4);
  }

  /** There is no global lock order: two opposite transfers can block each other. */
  lemma DeadlockIsReachable() returns (acts: seq<Action>)
    ensures Run(Fresh(OPPOSITE), acts).Some?
    ensures var d := Run(Fresh(OPPOSITE), acts).value;
            0 in d.txs && 1 in d.txs && Blocked(d, 0) && Blocked(d, 1)
  {
    acts := OneLockEach();
    var d4 := Run(Fresh(OPPOSITE), acts).value;
    var d5 := Execute(d4, 0);
    acts := RunStep(Fresh(OPPOSITE), acts, d4, Statement(0), d5);
    acts := RunStep(Fresh(OPPOSITE), acts, d5, Statement(1), Execute(d5, 1));
  }

  lemma RunStep(d: Db, acts: seq<Action>, m: Db, a: Action, m': Db) returns (longer: seq<Action>)
    requires Run(d, acts) == Some(m) && Enabled(m, a) && Apply(m, a) == m'
    ensures longer == acts + [a] && Run(d, longer) == Some(m')
  {
    longer := acts + [a];
    assert longer[..|acts|] == acts;
  }
}
