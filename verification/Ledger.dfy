/** The serial specification: one checked transfer at a time, in integer cents. */
module Ledger {
  import opened Domain

  type Balances = map<AccountId, int>

  /** The check made under the row lock: the source exists and can pay. */
  predicate Covered(b: Balances, req: Request) {
    req.src in b && b[req.src] >= req.amount
  }

  function Add(b: Balances, a: AccountId, delta: int): Balances
    requires a in b
  {
    b[a := b[a] + delta]
  }

  /** Debit, then credit. An UPDATE of a missing destination changes no row, and the credit is lost. */
  function Post(b: Balances, req: Request): Balances
    requires req.src in b
  {
    var debited := Add(b, req.src, -req.amount);
    if req.dst in b then Add(debited, req.dst, req.amount) else debited
  }

  /** Run checked transfers one after the other; None as soon as one is not covered. */
  function Replay(b: Balances, jobs: seq<Job>): Option<Balances> {
    if jobs == [] then Some(b) else
      var last := jobs[|jobs| - 1].req;
      match Replay(b, jobs[..|jobs| - 1])
      case None => None
      case Some(m) => if Covered(m, last) then Some(Post(m, last)) else None
  }

  lemma ReplayAppend(b: Balances, jobs: seq<Job>, j: Job)
    requires Replay(b, jobs).Some? && Covered(Replay(b, jobs).value, j.req)
    ensures Replay(b, jobs + [j]) == Some(Post(Replay(b, jobs).value, j.req))
  {
    assert (jobs + [j])[..|jobs|] == jobs;
  }

  /** What a committed transfer adds to account `a`; zero for a transfer from an account to itself. */
  function Effect(req: Request, a: AccountId): int {
    (if req.dst == a then req.amount else 0) - (if req.src == a then req.amount else 0)
  }

  function Net(jobs: seq<Job>, a: AccountId): int {
    if jobs == [] then 0 else Net(jobs[..|jobs| - 1], a) + Effect(jobs[|jobs| - 1].req, a)
  }

  /** Every transfer in the list names two accounts that exist and moves a positive amount. */
  predicate Sound(b: Balances, jobs: seq<Job>) {
    forall j <- jobs :: j.req.src in b && j.req.dst in b && j.req.amount > 0
  }

  predicate Solvent(b: Balances) {
    forall a <- b :: b[a] >= 0
  }

  lemma {:induction false} ReplayNet(b: Balances, jobs: seq<Job>)
    requires Replay(b, jobs).Some? && Sound(b, jobs)
    ensures Replay(b, jobs).value.Keys == b.Keys
    ensures forall a <- b :: Replay(b, jobs).value[a] == b[a] + Net(jobs, a)
  {
    if jobs != [] {
      var init := jobs[..|jobs| - 1];
      forall j | j in init ensures j in jobs {}
      ReplayNet(b, init);
      assert jobs[|jobs| - 1] in jobs;
    }
  }

  lemma {:induction false} ReplaySolvent(b: Balances, jobs: seq<Job>)
    requires Solvent(b) && Replay(b, jobs).Some? && Sound(b, jobs)
    ensures Solvent(Replay(b, jobs).value)
  {
    if jobs != [] {
      var init := jobs[..|jobs| - 1];
      forall j | j in init ensures j in jobs {}
      ReplaySolvent(b, init);
      assert jobs[|jobs| - 1] in jobs;
    }
  }

  /** The money in all accounts. */
  ghost function Total(b: Balances): int {
    if b.Keys == {} then 0 else
      var a := Pick(b.Keys);
      b[a] + Total(b - {a})
  }

  lemma {:induction false} TotalWithout(b: Balances, a: AccountId)
    requires a in b
    ensures Total(b) == b[a] + Total(b - {a})
    decreases |b|
  {
    var p := Pick(b.Keys);
    if p != a {
      TotalWithout(b - {p}, a);
      TotalWithout(b - {a}, p);
      assert b - {p} - {a} == b - {a} - {p};
    }
  }

  lemma TotalAdd(b: Balances, a: AccountId, delta: int)
    requires a in b
    ensures Total(Add(b, a, delta)) == Total(b) + delta
  {
    TotalWithout(b, a);
    TotalWithout(Add(b, a, delta), a);
    assert Add(b, a, delta) - {a} == b - {a};
  }

  /** A posted transfer conserves money exactly when its destination exists (or nothing moves). */
  lemma PostTotal(b: Balances, req: Request)
    requires req.src in b
    ensures Total(Post(b, req)) == Total(b) - (if req.dst in b then 0 else req.amount)
  {
    hide Total;
    TotalAdd(b, req.src, -req.amount);
    if req.dst in b {
      TotalAdd(Add(b, req.src, -req.amount), req.dst, req.amount);
    }
  }

  lemma {:induction false} ReplayTotal(b: Balances, jobs: seq<Job>)
    requires Replay(b, jobs).Some? && Sound(b, jobs)
    ensures Total(Replay(b, jobs).value) == Total(b)
  {
    if jobs != [] {
      var init := jobs[..|jobs| - 1];
      forall j | j in init ensures j in jobs {}
      ReplayTotal(b, init);
      ReplayNet(b, init);
      assert jobs[|jobs| - 1] in jobs;
      PostTotal(Replay(b, init).value, jobs[|jobs| - 1].req);
    }
  }

  /** The net effect on `a` of the rows named by `ids`. */
  ghost function RowsNet(rows: map<TxId, Row>, ids: set<TxId>, a: AccountId): int
    requires ids <= rows.Keys
  {
    if ids == {} then 0 else
      var id := Pick(ids);
      Effect(rows[id].req, a) + RowsNet(rows, ids - {id}, a)
  }

  lemma {:induction false} RowsNetWithout(rows: map<TxId, Row>, ids: set<TxId>, id: TxId, a: AccountId)
    requires ids <= rows.Keys && id in ids
    ensures RowsNet(rows, ids, a) == Effect(rows[id].req, a) + RowsNet(rows, ids - {id}, a)
    decreases |ids|
  {
    var p := Pick(ids);
    if p != id {
      RowsNetWithout(rows, ids - {p}, id, a);
      RowsNetWithout(rows, ids - {id}, p, a);
      assert ids - {p} - {id} == ids - {id} - {p};
    }
  }

  predicate DistinctIds(jobs: seq<Job>) {
    forall i, k :: 0 <= i < k < |jobs| ==> jobs[i].id != jobs[k].id
  }

  /** A journal without repeated identifiers has the net effect of the rows it names. */
  lemma {:induction false} JournalIsRows(jobs: seq<Job>, rows: map<TxId, Row>, a: AccountId)
    requires DistinctIds(jobs)
    requires forall j <- jobs :: j.id in rows && rows[j.id].req == j.req
    ensures JobIds(jobs) <= rows.Keys
    ensures Net(jobs, a) == RowsNet(rows, JobIds(jobs), a)
  {
    if jobs != [] {
      var init, last := jobs[..|jobs| - 1], jobs[|jobs| - 1];
      forall j | j in init ensures j in jobs {}
      JournalIsRows(init, rows, a);
      assert last in jobs;
      assert jobs == init + [last];
      JobIdsAppend(init, last);
      assert JobIds(jobs) - {last.id} == JobIds(init);
      RowsNetWithout(rows, JobIds(jobs), last.id, a);
    }
  }

  // ---------------------------------------------------------------- the serial run under any rule for amounts

  /** How a transfer checks and writes one balance. */
  datatype Rule = Rule(covers: (int, Job) -> bool, debit: (int, Job) -> int, credit: (int, Job) -> int)

  /** Whole cents: nothing is rounded. */
  const CENTS: Rule := Rule((b: int, j: Job) => b >= j.req.amount, (b: int, j: Job) => b - j.req.amount,
                            (b: int, j: Job) => b + j.req.amount)

  predicate Payable(r: Rule, b: Balances, j: Job) {
    j.req.src in b && r.covers(b[j.req.src], j)
  }

  function PostBy(r: Rule, b: Balances, j: Job): Balances
    requires j.req.src in b
  {
    var debited := b[j.req.src := r.debit(b[j.req.src], j)];
    if j.req.dst in b then debited[j.req.dst := r.credit(debited[j.req.dst], j)] else debited
  }

  function ReplayBy(r: Rule, b: Balances, jobs: seq<Job>): Option<Balances> {
    if jobs == [] then Some(b) else
      var last := jobs[|jobs| - 1];
      match ReplayBy(r, b, jobs[..|jobs| - 1])
      case None => None
      case Some(m) => if Payable(r, m, last) then Some(PostBy(r, m, last)) else None
  }

  lemma ReplayByAppend(r: Rule, b: Balances, jobs: seq<Job>, j: Job)
    requires ReplayBy(r, b, jobs).Some? && Payable(r, ReplayBy(r, b, jobs).value, j)
    ensures ReplayBy(r, b, jobs + [j]) == Some(PostBy(r, ReplayBy(r, b, jobs).value, j))
  {
    assert (jobs + [j])[..|jobs|] == jobs;
  }

  lemma {:induction false} ReplayByKeys(r: Rule, b: Balances, jobs: seq<Job>)
    requires ReplayBy(r, b, jobs).Some?
    ensures ReplayBy(r, b, jobs).value.Keys == b.Keys
  {
    if jobs != [] { ReplayByKeys(r, b, jobs[..|jobs| - 1]); }
  }

  /** In whole cents the rule is the checked integer transfer. */
  lemma CentsPost(b: Balances, j: Job)
    ensures Payable(CENTS, b, j) <==> Covered(b, j.req)
    ensures j.req.src in b ==> PostBy(CENTS, b, j) == Post(b, j.req)
  {
  }

  lemma {:induction false} CentsReplay(b: Balances, jobs: seq<Job>)
    ensures ReplayBy(CENTS, b, jobs) == Replay(b, jobs)
  {
    if jobs != [] {
      var init := jobs[..|jobs| - 1];
      CentsReplay(b, init);
      if Replay(b, init).Some? { CentsPost(Replay(b, init).value, jobs[|jobs| - 1]); }
    }
  }

  // ---------------------------------------------------------------- the reference: createSync, one request after the other

  /** What createSync accepts. */
  predicate Accepts(b: Balances, req: Request) {
    Covered(b, req) && req.dst in b
  }

  function RunSync(b: Balances, jobs: seq<Job>): Balances {
    if jobs == [] then b else
      var m := RunSync(b, jobs[..|jobs| - 1]);
      var req := jobs[|jobs| - 1].req;
      if Accepts(m, req) then Post(m, req) else m
  }

  /** The jobs createSync accepts, in order, when they run in the given order; with `accepted` false, those it rejects. */
  function Chosen(b: Balances, jobs: seq<Job>, accepted: bool): seq<Job> {
    if jobs == [] then [] else
      var init, last := jobs[..|jobs| - 1], jobs[|jobs| - 1];
      Chosen(b, init, accepted) + (if Accepts(RunSync(b, init), last.req) == accepted then [last] else [])
  }

  lemma RunSyncAppend(b: Balances, jobs: seq<Job>, j: Job)
    ensures var m := RunSync(b, jobs); RunSync(b, jobs + [j]) == if Accepts(m, j.req) then Post(m, j.req) else m
    ensures forall accepted :: Chosen(b, jobs + [j], accepted) ==
              Chosen(b, jobs, accepted) + (if Accepts(RunSync(b, jobs), j.req) == accepted then [j] else [])
  {
    assert (jobs + [j])[..|jobs|] == jobs;
  }

  lemma SyncNothing(b: Balances)
    ensures RunSync(b, []) == b && Chosen(b, [], true) == [] && Chosen(b, [], false) == []
  {
  }

  /** Rejected requests leave no trace: the run is that of the accepted ones alone, each covered in its turn. */
  lemma {:induction false} RunSyncIsReplay(b: Balances, jobs: seq<Job>)
    ensures Replay(b, Chosen(b, jobs, true)) == Some(RunSync(b, jobs))
    ensures RunSync(b, jobs).Keys == b.Keys
  {
    if jobs != [] {
      var init, last := jobs[..|jobs| - 1], jobs[|jobs| - 1];
      RunSyncIsReplay(b, init);
      if Accepts(RunSync(b, init), last.req) {
        ReplayAppend(b, Chosen(b, init, true), last);
      } else {
        assert Chosen(b, jobs, true) == Chosen(b, init, true);
      }
    }
  }

  /** Every job is either accepted or rejected, once. */
  lemma {:induction false} ChosenSplits(b: Balances, jobs: seq<Job>)
    ensures multiset(Chosen(b, jobs, true)) + multiset(Chosen(b, jobs, false)) == multiset(jobs)
  {
    hide RunSync, Accepts;
    if jobs != [] {
      var init, last := jobs[..|jobs| - 1], jobs[|jobs| - 1];
      ChosenSplits(b, init);
      assert jobs == init + [last];
      ChosenSnoc(b, init, last);
    }
  }

  lemma ChosenSnoc(b: Balances, jobs: seq<Job>, j: Job)
    ensures var ok := Accepts(RunSync(b, jobs), j.req);
            && Chosen(b, jobs + [j], ok) == Chosen(b, jobs, ok) + [j]
            && Chosen(b, jobs + [j], !ok) == Chosen(b, jobs, !ok)
  {
    RunSyncAppend(b, jobs, j);
    hide Accepts, RunSync;
  }

  lemma {:induction false} ChosenIn(b: Balances, jobs: seq<Job>, accepted: bool)
    ensures forall j <- Chosen(b, jobs, accepted) :: j in jobs
  {
    if jobs != [] {
      ChosenIn(b, jobs[..|jobs| - 1], accepted);
      assert jobs == jobs[..|jobs| - 1] + [jobs[|jobs| - 1]];
    }
  }
}
