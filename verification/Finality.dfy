/** Which rows are final. The documentation calls "failed" a terminal state; the code completes a failed row if its
    message is delivered again and the money is there, and leaves some pending rows pending for good. */
module Finality {
  import opened Domain
  import opened Ledger
  import opened Protocol
  import opened Invariant
  import opened Guarantees
  import opened Uncontended
  import IdGenerator
  import IdText
  import Locking

  /** Every goroutine crashes: rows, committed balances, and what was acknowledged or dead-lettered stay. */
  lemma {:induction false} AllCrash(c: Config, acts: seq<Action>, s: State) returns (longer: seq<Action>, s': State)
    requires Run(c, acts) == Some(s)
    ensures Run(c, longer) == Some(s') && acts <= longer && s'.threads == map[]
    ensures s'.rows == s.rows && s'.db.bal == s.db.bal
    ensures s'.broker.acked == s.broker.acked && s'.broker.dlq == s.broker.dlq && s'.broker.published == s.broker.published
    decreases |s.threads|
  {
    hide Run;
    longer, s' := acts, s;
    if s.threads.Keys != {} {
      var t := Pick(s.threads.Keys);
      longer := Extend(c, acts, s, Crash(t));
      assert s.threads.Keys == (s.threads - {t}).Keys + {t};
      longer, s' := AllCrash(c, longer, Apply(c, s, Crash(t)));
    }
  }

  /** With no goroutine left, nothing is locked or unacknowledged. */
  lemma NobodyLeft(c: Config, s: State)
    requires Inv(c, s) && s.threads == map[]
    ensures s.broker.unacked == map[] && Quiet(s)
  {
    hide Messages, Rows, Journal, Threads, Accounted, Partition, Locking.Consistent;
    Locking.NoTransactionNoLock(s.db);
    assert forall t <- s.broker.unacked :: t in s.threads;
    assert forall t <- s.db.txs :: t in s.threads;
    assert s.broker.unacked.Keys == {} && s.db.txs.Keys == {};
  }

  /** A message whose row is not completed, when its row is not settled and no goroutine is left. */
  lemma LiveMessage(c: Config, s: State, id: TxId) returns (j: Job)
    requires Inv(c, s) && s.broker.unacked == map[] && id in s.rows && id !in c.seed
    requires s.rows[id].status != Completed && !Settled(s, id) && !Unpublished(s.broker, id)
    ensures j == Job(id, s.rows[id].req) && j in s.broker.ready && j.req.src in s.db.bal && j.req.dst in s.db.bal && Admits(j.req)
  {
    hide Journal, Threads, Accounted, Deliveries, Transactions, Abandoned;
    j :| j in s.broker.published && j.id == id;
    OpenAccounts(c, s.db);
    assert s.broker.unacked.Values == {};
    assert forall m <- s.broker.acked + s.broker.dlq :: m.id != id;
  }

  // ---------------------------------------------------------------- gathering the money

  /** The accounts that can still pay into `src`. */
  function Donors(b: Balances, src: AccountId): set<AccountId> {
    set a | a in b && a != 0 && a != src && b[a] > 0
  }

  lemma {:induction false} NoDonors(b: Balances, src: AccountId)
    requires Solvent(b) && src in b && src != 0 && Donors(b, src) == {}
    ensures b[src] == Movable(b)
  {
    TotalWithout(b - {0}, src);
    forall a | a in b - {0} - {src} ensures b[a] == 0 { assert a !in Donors(b, src); }
    ZeroTotal(b - {0} - {src});
  }

  lemma {:induction false} ZeroTotal(b: Balances)
    requires forall a <- b :: b[a] == 0
    ensures Total(b) == 0
    decreases |b|
  {
    if b.Keys != {} { ZeroTotal(b - {Pick(b.Keys)}); }
  }

  /** Rows that were there stay as they are, the broker too. */
  predicate OnlyAdds(s: State, s': State) {
    s'.broker == s.broker && forall id <- s.rows :: id in s'.rows && s'.rows[id] == s.rows[id]
  }

  /** One donor gives everything it has to `src`, by a transfer any client may submit. */
  lemma Donate(c: Config, acts: seq<Action>, s: State, donor: AccountId, src: AccountId) returns (longer: seq<Action>, s': State)
    requires c.Reliable() && c.Valid() && Run(c, acts) == Some(s) && Quiet(s)
    requires src in s.db.bal && src != 0 && donor in Donors(s.db.bal, src)
    ensures Run(c, longer) == Some(s') && acts <= longer && Quiet(s') && OnlyAdds(s, s')
    ensures s'.db.bal == Post(s.db.bal, Request(donor, src, s.db.bal[donor]))
  {
    hide Run, Inv;
    var req, now := Request(donor, src, s.db.bal[donor]), Top(s) + 1;
    RunInv(c, acts);
    FloorIsHigh(c, s);
    longer := SyncTransfer(c, acts, s, req, now);
    s' := AfterSync(s, req, now);
    NewIdentifier(c, s, IdGenerator.Next(s.counter, now));
  }

  lemma FloorIsHigh(c: Config, s: State)
    requires Inv(c, s)
    ensures s.floor >= IdText.SEEDED - 1
  {
  }

  /** While the movable money suffices, transfers bring the source what it needs. */
  lemma {:induction false} Gather(c: Config, acts: seq<Action>, s: State, src: AccountId, amount: int)
      returns (longer: seq<Action>, s': State)
    requires c.Reliable() && c.Valid() && Run(c, acts) == Some(s) && Quiet(s)
    requires src in s.db.bal && src != 0 && amount <= Movable(c.open)
    ensures Run(c, longer) == Some(s') && acts <= longer && Quiet(s') && OnlyAdds(s, s')
    ensures src in s'.db.bal && s'.db.bal[src] >= amount && s'.db.bal.Keys == s.db.bal.Keys
    decreases Donors(s.db.bal, src)
  {
    hide Run, Inv, Quiet, Movable, Total;
    longer, s' := acts, s;
    MovableIsConstant(c, acts);
    ConservedAndSolvent(c, acts);
    if s.db.bal[src] < amount {
      var donors := Donors(s.db.bal, src);
      if donors == {} {
        NoDonors(s.db.bal, src);
        assert false;
      }
      var donor := Pick(donors);
      longer, s' := Donate(c, acts, s, donor, src);
      assert donor !in Donors(s'.db.bal, src) && Donors(s'.db.bal, src) <= donors;
      longer, s' := Gather(c, longer, s', src, amount);
    }
  }

  // ---------------------------------------------------------------- rows that can still change

  lemma Redelivered(c: Config, acts: seq<Action>, s: State, j: Job) returns (longer: seq<Action>, s': State)
    requires Run(c, acts) == Some(s) && Quiet(s) && s.broker.unacked == map[]
    requires j in s.broker.ready && j.id in s.rows && s.rows[j.id].status != Completed
    ensures acts <= longer && Run(c, longer) == Some(s') && s'.rows == s.rows
    ensures s'.db == Locking.Begin(s.db, 0, j, false) && s'.threads == map[0 := Settling(j)]
  {
    hide Run;
    longer := Extend(c, acts, s, Deliver(0, j));
    var s1, seen := Apply(c, s, Deliver(0, j)), StatusOf(s, j.id);
    longer := Extend(c, longer, s1, ReadStatus(0, seen));
    s' := Apply(c, s1, ReadStatus(0, seen));
  }

  /** A failed row whose message is still live can be completed, whenever there is enough money to move. */
  lemma UnsettledCanComplete(c: Config, acts: seq<Action>, id: TxId) returns (longer: seq<Action>)
    requires c.Reliable() && c.Valid() && Run(c, acts).Some?
    requires var s := Run(c, acts).value;
             && id in s.rows && id !in c.seed && s.rows[id].status == Failed
             && s.rows[id].req.amount <= Movable(c.open) && !Settled(s, id)
    ensures acts <= longer && Run(c, longer).Some?
    ensures id in Run(c, longer).value.rows && Run(c, longer).value.rows[id].status == Completed
  {
    hide Run, Inv, Apply, Enabled, Movable, Quiet;
    var s := Run(c, acts).value;
    RunInv(c, acts);
    if Unpublished(s.broker, id) { FailedUnpublished(c, s, id); }
    var s1: State;
    longer, s1 := AllCrash(c, acts, s);
    RunInv(c, longer);
    NobodyLeft(c, s1);
    var j := LiveAfterCrash(c, s, s1, id);
    longer, s1 := Gather(c, longer, s1, j.req.src, j.req.amount);
    longer := PaidAfterAll(c, longer, s1, j);
  }

  lemma LiveAfterCrash(c: Config, s: State, s1: State, id: TxId) returns (j: Job)
    requires Inv(c, s) && Inv(c, s1) && s1.broker.unacked == map[] && id in s.rows && id !in c.seed
    requires s.rows[id].status != Completed && !Settled(s, id) && !Unpublished(s.broker, id)
    requires s1.rows == s.rows && s1.broker.acked == s.broker.acked && s1.broker.dlq == s.broker.dlq
    requires s1.broker.published == s.broker.published
    ensures j == Job(id, s.rows[id].req) && j in s1.broker.ready && j.req.src in s1.db.bal && j.req.dst in s1.db.bal && Admits(j.req)
  {
    hide Inv;
    j := LiveMessage(c, s1, id);
  }

  lemma PaidAfterAll(c: Config, acts: seq<Action>, s: State, j: Job) returns (longer: seq<Action>)
    requires Run(c, acts) == Some(s) && Quiet(s) && s.broker.unacked == map[]
    requires j in s.broker.ready && j.id in s.rows && s.rows[j.id].status == Failed
    requires Covered(s.db.bal, j.req) && j.req.dst in s.db.bal
    ensures acts <= longer && Run(c, longer).Some?
    ensures j.id in Run(c, longer).value.rows && Run(c, longer).value.rows[j.id].status == Completed
  {
    hide Run;
    var s1: State;
    longer, s1 := Redelivered(c, acts, s, j);
    longer := GoesThrough(c, longer, s1, 0);
  }

  /** A pending row that somebody still answers for can be marked failed. */
  lemma UnsettledCanFail(c: Config, acts: seq<Action>, id: TxId) returns (longer: seq<Action>)
    requires c.Reliable() && c.Valid() && Run(c, acts).Some?
    requires var s := Run(c, acts).value; id in s.rows && id !in c.seed && s.rows[id].status == Pending && !Settled(s, id)
    ensures acts <= longer && Run(c, longer).Some?
    ensures id in Run(c, longer).value.rows && Run(c, longer).value.rows[id].status == Failed
  {
    hide Run, Inv, Apply, Enabled, Quiet;
    var s := Run(c, acts).value;
    RunInv(c, acts);
    if Unpublished(s.broker, id) {
      longer := CreatorFails(c, acts, s, id);
    } else {
      var s1: State;
      longer, s1 := AllCrash(c, acts, s);
      RunInv(c, longer);
      NobodyLeft(c, s1);
      var j := LiveAfterCrash(c, s, s1, id);
      longer, s1 := Redelivered(c, longer, s1, j);
      longer := WorkerFails(c, longer, s1, j);
    }
  }

  lemma WorkerFails(c: Config, acts: seq<Action>, s: State, j: Job) returns (longer: seq<Action>)
    requires Run(c, acts) == Some(s) && s.threads == map[0 := Settling(j)] && 0 in s.db.txs && j.id in s.rows
    ensures acts <= longer && Run(c, longer).Some?
    ensures j.id in Run(c, longer).value.rows && Run(c, longer).value.rows[j.id].status == Failed
  {
    hide Run;
    longer := Extend(c, acts, s, DbError(0));
    longer := Extend(c, longer, Apply(c, s, DbError(0)), MarkFailed(0, true));
  }

  lemma CreatorFails(c: Config, acts: seq<Action>, s: State, id: TxId) returns (longer: seq<Action>)
    requires Run(c, acts) == Some(s) && Inv(c, s) && id in s.rows && s.rows[id].status == Pending
    requires Unpublished(s.broker, id) && !Settled(s, id)
    ensures acts <= longer && Run(c, longer).Some?
    ensures id in Run(c, longer).value.rows && Run(c, longer).value.rows[id].status == Failed
  {
    hide Run, Inv, Unpublished;
    var t :| t in s.threads && s.threads[t].job.id == id && !s.threads[t].SyncDel?;
    StillCreating(c, s, t, id);
    longer := acts;
    var s1 := s;
    if s.threads[t].Publishing? {
      longer := Extend(c, longer, s1, PublishFails(t, false));
      s1 := Apply(c, s1, PublishFails(t, false));
    }
    longer := Extend(c, longer, s1, MarkUnpublished(t, true));
  }

  lemma StillCreating(c: Config, s: State, t: ThreadId, id: TxId)
    requires Inv(c, s) && id in s.rows && s.rows[id].status == Pending && Unpublished(s.broker, id)
    requires t in s.threads && s.threads[t].job.id == id && !s.threads[t].SyncDel?
    ensures s.threads[t].Creating()
  {
    hide Inv, Unpublished;
    Facts(c, s, t);
    if s.threads[t].Consuming() { HeldIsPublished(s.broker, t, s.threads[t].job); }
  }

  // ---------------------------------------------------------------- the theorem

  /** The row is the same in every continuation of the run. */
  ghost predicate Final(c: Config, acts: seq<Action>, id: TxId)
    requires Run(c, acts).Some? && id in Run(c, acts).value.rows
  {
    forall longer :: acts <= longer && Run(c, longer).Some? ==>
      id in Run(c, longer).value.rows && Run(c, longer).value.rows[id] == Run(c, acts).value.rows[id]
  }

  /** A transfer larger than the movable money never commits, so its row stays failed once it is. */
  lemma TooLargeStaysFailed(c: Config, acts: seq<Action>, longer: seq<Action>, id: TxId)
    requires c.Reliable() && c.Valid() && Run(c, acts).Some? && acts <= longer && Run(c, longer).Some?
    requires var s := Run(c, acts).value;
             id in s.rows && id !in c.seed && s.rows[id].status == Failed && s.rows[id].req.amount > Movable(c.open)
    ensures id in Run(c, longer).value.rows && Run(c, longer).value.rows[id] == Run(c, acts).value.rows[id]
  {
    hide Run, Inv, Movable;
    var s, s' := Run(c, acts).value, Run(c, longer).value;
    assert acts + longer[|acts|..] == longer;
    StatusOnlyRises(c, acts, longer[|acts|..], id);
    RunInv(c, longer);
    CompletedIsJournal(c, s');
    MovableIsConstant(c, longer);
    if s'.rows[id].status == Completed {
      assert id in CompletedRows(c, s');
      var j :| j in s'.db.journal && j.id == id;
      JournalRow(c, s', j);
      assert false;
    }
  }

  lemma JournalRow(c: Config, s: State, j: Job)
    requires Inv(c, s) && j in s.db.journal
    ensures j.id in s.rows && s.rows[j.id].req == j.req
  {
    hide Partition, Messages, Rows, Threads, Deliveries, Database, Transactions, Accounted;
  }

  /** Exactly which rows are final: the completed ones, those nobody will touch again (their message dead-lettered or
      acknowledged, or none enqueued and no creator at work), and failed ones whose amount exceeds all the money
      that transfers can move. */
  lemma FinalIff(c: Config, acts: seq<Action>, id: TxId)
    requires c.Reliable() && c.Valid() && Run(c, acts).Some?
    requires id in Run(c, acts).value.rows && id !in c.seed
    ensures var s := Run(c, acts).value;
            Final(c, acts, id) <==>
              || s.rows[id].status == Completed
              || Settled(s, id)
              || (s.rows[id].status == Failed && s.rows[id].req.amount > Movable(c.open))
  {
    hide Run, Inv, Settled, Movable;
    var s := Run(c, acts).value;
    var tooLarge := s.rows[id].status == Failed && s.rows[id].req.amount > Movable(c.open);
    if s.rows[id].status == Completed || Settled(s, id) || tooLarge {
      forall longer | acts <= longer && Run(c, longer).Some?
        ensures id in Run(c, longer).value.rows && Run(c, longer).value.rows[id] == s.rows[id]
      {
        assert acts + longer[|acts|..] == longer;
        if Settled(s, id) {
          SettledForever(c, acts, longer[|acts|..], id);
        } else if s.rows[id].status == Completed {
          StatusOnlyRises(c, acts, longer[|acts|..], id);
        } else {
          TooLargeStaysFailed(c, acts, longer, id);
        }
      }
    } else if s.rows[id].status == Failed {
      var longer := UnsettledCanComplete(c, acts, id);
    } else {
      var longer := UnsettledCanFail(c, acts, id);
    }
  }
}
