/** Transfers of arbitrary decimal amounts between balances stored to two decimals (NUMERIC(18,2)):
    balances are whole cents, amounts are real numbers of cents, and every assignment rounds half away from zero. */
module Rounding {
  import opened Domain
  import opened Ledger
  import Locking

  /** What NUMERIC(18,2) stores for a value in cents. */
  function Stored(x: real): int {
    if x >= 0.0 then (x + 0.5).Floor else -((-x + 0.5).Floor)
  }

  /** Stored is the nearest whole number, the one away from zero when two are equally near. */
  lemma StoredIsNearest(x: real)
    ensures x - 0.5 <= Stored(x) as real <= x + 0.5
    ensures x >= 0.0 ==> Stored(x) as real > x - 0.5
    ensures x <= 0.0 ==> Stored(x) as real < x + 0.5
    ensures Stored(-x) == -Stored(x)
  {
  }

  /** The statements of createSync and settle when the job with identifier `id` moves the decimal amount `amounts(id)`:
      the check compares it with the stored balance, and each UPDATE rounds as it stores. */
  function Rounded(amounts: TxId -> real): Rule {
    Rule((b: int, j: Job) => b as real >= amounts(j.id),
         (b: int, j: Job) => Stored(b as real - amounts(j.id)),
         (b: int, j: Job) => Stored(b as real + amounts(j.id)))
  }

  predicate HalfCent(x: real) {
    x - x.Floor as real == 0.5
  }

  /** The debit and the credit round the same amount; they differ only on an exact half cent. */
  lemma DebitAndCredit(balance: int, x: real)
    requires x > 0.0 && balance as real >= x
    ensures Stored(balance as real - x) == balance - Stored(x) + (if HalfCent(x) then 1 else 0)
    ensures Stored(balance as real - x) >= 0
  {
    var n := x.Floor;
    var f := x - n as real;
    FloorShift(0.5 - f, balance - n);
    FloorShift(f + 0.5, n);
    assert balance as real - x + 0.5 == (0.5 - f) + (balance - n) as real;
    assert x + 0.5 == (f + 0.5) + n as real;
  }

  lemma CreditRounds(balance: int, x: real)
    requires x > 0.0 && balance >= 0
    ensures Stored(balance as real + x) == balance + Stored(x) && Stored(x) >= 0
  {
    FloorShift(x + 0.5, balance);
    assert balance as real + x + 0.5 == (x + 0.5) + balance as real;
  }

  lemma FloorShift(x: real, n: int)
    ensures (x + n as real).Floor == x.Floor + n
  {
  }

  /** A committed transfer keeps the total, except that an exact half cent adds one cent; nobody goes below zero.
      The destination gains exactly what the amount column records, and so does the source lose, but for that cent. */
  lemma PostDrift(b: Balances, j: Job, amounts: TxId -> real)
    requires amounts(j.id) > 0.0 && Payable(Rounded(amounts), b, j) && j.req.dst in b && Solvent(b)
    ensures var b', x, half := PostBy(Rounded(amounts), b, j), amounts(j.id), if HalfCent(amounts(j.id)) then 1 else 0;
            && Total(b') == Total(b) + half
            && Solvent(b') && b'.Keys == b.Keys
            && (j.req.src != j.req.dst ==> b'[j.req.dst] == b[j.req.dst] + Stored(x))
            && (j.req.src != j.req.dst ==> b'[j.req.src] == b[j.req.src] - Stored(x) + half)
  {
    hide Total, Stored, HalfCent;
    var x, src, dst := amounts(j.id), j.req.src, j.req.dst;
    var debited := b[src := Stored(b[src] as real - x)];
    DebitAndCredit(b[src], x);
    assert debited == Add(b, src, debited[src] - b[src]);
    TotalAdd(b, src, debited[src] - b[src]);
    CreditRounds(debited[dst], x);
    assert PostBy(Rounded(amounts), b, j) == Add(debited, dst, Stored(x));
    TotalAdd(debited, dst, Stored(x));
  }

  function HalfCents(jobs: seq<Job>, amounts: TxId -> real): nat {
    if jobs == [] then 0
    else HalfCents(jobs[..|jobs| - 1], amounts) + (if HalfCent(amounts(jobs[|jobs| - 1].id)) then 1 else 0)
  }

  /** Over any run the total drifts up by one cent for each half-cent commit and nothing else, and nobody is overdrawn. */
  lemma {:induction false} RunDrift(b: Balances, jobs: seq<Job>, amounts: TxId -> real)
    requires Solvent(b) && ReplayBy(Rounded(amounts), b, jobs).Some?
    requires forall j <- jobs :: j.req.dst in b && amounts(j.id) > 0.0
    ensures Total(ReplayBy(Rounded(amounts), b, jobs).value) == Total(b) + HalfCents(jobs, amounts)
    ensures Solvent(ReplayBy(Rounded(amounts), b, jobs).value)
  {
    hide Total, PostBy, Payable, Rounded, HalfCent;
    if jobs != [] {
      var init, last := jobs[..|jobs| - 1], jobs[|jobs| - 1];
      assert last in jobs;
      forall j | j in init ensures j in jobs {}
      RunDrift(b, init, amounts);
      ReplayByKeys(Rounded(amounts), b, init);
      PostDrift(ReplayBy(Rounded(amounts), b, init).value, last, amounts);
    }
  }

  /** So a run conserves money exactly when no committed amount was a half cent. */
  lemma ConservedIffNoHalfCent(b: Balances, jobs: seq<Job>, amounts: TxId -> real)
    requires Solvent(b) && ReplayBy(Rounded(amounts), b, jobs).Some?
    requires forall j <- jobs :: j.req.dst in b && amounts(j.id) > 0.0
    ensures Total(ReplayBy(Rounded(amounts), b, jobs).value) == Total(b) <==> forall j <- jobs :: !HalfCent(amounts(j.id))
  {
    RunDrift(b, jobs, amounts);
    NoHalfCents(jobs, amounts);
  }

  lemma {:induction false} NoHalfCents(jobs: seq<Job>, amounts: TxId -> real)
    ensures HalfCents(jobs, amounts) == 0 <==> forall j <- jobs :: !HalfCent(amounts(j.id))
  {
    if jobs != [] {
      var init, last := jobs[..|jobs| - 1], jobs[|jobs| - 1];
      assert jobs == init + [last];
      NoHalfCents(init, amounts);
    }
  }

  /** On whole-cent amounts nothing is rounded: the transfer is the integer one. */
  lemma WholeCentsAreExact(b: Balances, j: Job, amounts: TxId -> real)
    requires amounts(j.id) == j.req.amount as real
    ensures Payable(Rounded(amounts), b, j) <==> Covered(b, j.req)
    ensures j.req.src in b ==> PostBy(Rounded(amounts), b, j) == Post(b, j.req)
  {
    hide Stored;
    if j.req.src in b {
      WholeStored(b[j.req.src] - j.req.amount);
      var debited := Add(b, j.req.src, -j.req.amount);
      if j.req.dst in b { WholeStored(debited[j.req.dst] + j.req.amount); }
    }
  }

  lemma WholeStored(n: int)
    ensures Stored(n as real) == n
  {
  }

  /** Any statement-level interleaving of transfers of arbitrary positive amounts, with rounding at every UPDATE and aborts
      anywhere, is a serial run in commit order: the total drifts up by one cent for each half-cent commit and
      nothing else, and nobody is overdrawn. */
  lemma InterleavedDrift(open: Balances, acts: seq<Locking.Action>, amounts: TxId -> real)
    requires Solvent(open) && Locking.Run(Locking.FreshBy(Rounded(amounts), open), acts).Some?
    requires Locking.DestsExist(open, acts) && forall id :: amounts(id) > 0.0
    ensures var d := Locking.Run(Locking.FreshBy(Rounded(amounts), open), acts).value;
            && ReplayBy(Rounded(amounts), open, d.journal) == Some(d.bal)
            && Total(d.bal) == Total(open) + HalfCents(d.journal, amounts)
            && Solvent(d.bal)
  {
    hide Rounded, Total;
    Locking.SerializableBy(Rounded(amounts), open, acts);
    Locking.JournalHasDest(Rounded(amounts), open, acts);
    RunDrift(open, Locking.Run(Locking.FreshBy(Rounded(amounts), open), acts).value.journal, amounts);
  }

  /** The funds check compares the stored balance with the decimal amount, before anything is rounded. */
  lemma CheckIsExact(b: Balances, j: Job, amounts: TxId -> real)
    ensures Payable(Rounded(amounts), b, j) <==> j.req.src in b && b[j.req.src] as real >= amounts(j.id)
  {
  }

  /** In any interleaving: at each COMMIT the stored balance of the source is at least the decimal amount; the SELECT goes
      on exactly when it is; and a check fails only when the source is missing or holds less, or createSync finds
      no destination. */
  lemma InterleavedChecks(open: Balances, acts: seq<Locking.Action>, a: Locking.Action, amounts: TxId -> real)
    requires Locking.Run(Locking.FreshBy(Rounded(amounts), open), acts).Some?
    requires Locking.Enabled(Locking.Run(Locking.FreshBy(Rounded(amounts), open), acts).value, a) && (a.Finish? || a.Statement?)
    ensures var d := Locking.Run(Locking.FreshBy(Rounded(amounts), open), acts).value;
            var tx, x := d.txs[a.t], amounts(d.txs[a.t].job.id);
            var src, dst := tx.job.req.src, tx.job.req.dst;
            && (a.Finish? ==> src in d.bal && d.bal[src] as real >= x)
            && (a.Statement? && tx.stage.Select? ==>
                  (a.t in Locking.Apply(d, a).txs <==> src in d.bal && d.bal[src] as real >= x))
            && (a.Statement? && a.t !in Locking.Apply(d, a).txs ==>
                  || src !in d.bal || d.bal[src] as real < x || (tx.checksDest && dst !in d.bal))
  {
    Locking.SerializableBy(Rounded(amounts), open, acts);
    var d := Locking.Run(Locking.FreshBy(Rounded(amounts), open), acts).value;
    CheckIsExact(d.bal, d.txs[a.t].job, amounts);
    hide Rounded, Stored, Locking.FreshBy, Locking.Run;
    if a.Finish? { Locking.CommitIsPost(d, a.t); }
    assert Locking.TxOk(d, a.t);
  }
}
