/** The service and the worker as the imperative code they are, one call at a time, on one database,
    one Redis and one broker. What fails outside is a parameter of every call. */
module Bank {
  import opened Domain
  import opened Ledger
  import opened Handler
  import opened IdText
  import IdGenerator

  /** How a publish ends: enqueued; an error; or no error, and the message is gone all the same. */
  datatype Publishing = Sent | Refused | Lost

  /** What fails outside during one call. `db` numbers the statement of the database transaction that returns an error,
      from 1; the others are repo.Save, queue.Publish, repo.UpdateStatus, repo.GetByID, and Redis GET, SET and DEL. */
  datatype Faults = Faults(db: nat := 0, save: bool := false, publish: Publishing := Sent, mark: bool := false, read: bool := false,
                           lookup: bool := false, store: bool := false, delete: bool := false)

  datatype Cached = CachedBalance(balance: int, expires: int) | CachedStatus(row: Row, expires: int)

  /** No two of the messages share an identifier. */
  predicate Distinct(q: multiset<Job>) {
    && (forall j <- q :: q[j] == 1)
    && (forall j <- q, k <- q :: j.id == k.id ==> j == k)
  }

  /** Every message has its own row, between existing accounts. */
  predicate Backed(q: multiset<Job>, rows: map<TxId, Row>, accounts: set<AccountId>) {
    forall j <- q :: j.id in rows && rows[j.id].req == j.req && j.req.src in accounts && j.req.dst in accounts
  }

  /** The queue is as createAsync and redelivery leave it, and no identifier is above the counter. */
  predicate Tracked(q: multiset<Job>, rows: map<TxId, Row>, accounts: set<AccountId>, counter: int) {
    (forall id <- rows :: id <= counter) && Distinct(q) && Backed(q, rows, accounts)
  }

  /** Every cached balance is the committed one. */
  ghost predicate Exact(redis: map<string, Cached>, b: Balances) {
    forall a :: BalanceKey(a) in redis && redis[BalanceKey(a)].CachedBalance? ==>
      a in b && redis[BalanceKey(a)].balance == b[a]
  }

  predicate AllRows(jobs: seq<Job>, rows: map<TxId, Row>, status: Status) {
    forall j <- jobs :: j.id in rows && rows[j.id] == Row(j.req, status)
  }

  /** The rows once the jobs have been processed. */
  predicate RowsAfter(b: Balances, jobs: seq<Job>, rows: map<TxId, Row>) {
    AllRows(Chosen(b, jobs, true), rows, Completed) && AllRows(Chosen(b, jobs, false), rows, Failed)
  }

  /** A message taken from the queue has its row, and settling that row leaves the rest of the queue as it was. */
  lemma QueueShrinks(q: multiset<Job>, j: Job, rows: map<TxId, Row>, accounts: set<AccountId>, counter: int)
    requires Tracked(q, rows, accounts, counter) && j in q
    ensures j.id in rows && rows[j.id].req == j.req && j.req.src in accounts && j.req.dst in accounts
    ensures Tracked(q - multiset{j}, rows, accounts, counter)
    ensures forall status :: Tracked(q - multiset{j}, rows[j.id := Row(j.req, status)], accounts, counter)
    ensures forall k <- q - multiset{j} :: k.id != j.id
  {
    forall k | k in q - multiset{j} ensures k.id != j.id { assert k in q && q[j] == 1; }
  }

  /** A row above the counter concerns no message. */
  lemma QueueUntouched(q: multiset<Job>, rows: map<TxId, Row>, accounts: set<AccountId>, counter: int, j: Job)
    requires Tracked(q, rows, accounts, counter) && j.id > counter
    ensures j.id !in rows && Tracked(q, rows, accounts, j.id)
    ensures forall status :: Tracked(q, rows[j.id := Row(j.req, status)], accounts, j.id)
    ensures j.req.src in accounts && j.req.dst in accounts ==>
              Tracked(q + multiset{j}, rows[j.id := Row(j.req, Pending)], accounts, j.id)
  {
    forall k | k in q ensures k.id != j.id && k != j {}
  }

  /** The jobs whose row is completed already; with `paid` false, the others. */
  function Where(jobs: seq<Job>, rows: map<TxId, Row>, paid: bool): seq<Job>
    requires forall j <- jobs :: j.id in rows
  {
    if jobs == [] then [] else
      var init, last := jobs[..|jobs| - 1], jobs[|jobs| - 1];
      Where(init, rows, paid) + (if (rows[last.id].status == Completed) == paid then [last] else [])
  }

  lemma WhereAppend(jobs: seq<Job>, rows: map<TxId, Row>, paid: bool, j: Job)
    requires forall k <- jobs + [j] :: k.id in rows
    ensures forall k <- jobs :: k.id in rows
    ensures Where(jobs + [j], rows, paid) ==
            Where(jobs, rows, paid) + (if (rows[j.id].status == Completed) == paid then [j] else [])
  {
    assert (jobs + [j])[..|jobs|] == jobs;
    forall k | k in jobs ensures k in jobs + [j] {}
  }

  lemma {:induction false} WhereIn(jobs: seq<Job>, rows: map<TxId, Row>, paid: bool)
    requires forall j <- jobs :: j.id in rows
    ensures forall j <- Where(jobs, rows, paid) :: j in jobs
  {
    if jobs != [] {
      WhereIn(jobs[..|jobs| - 1], rows, paid);
      assert jobs == jobs[..|jobs| - 1] + [jobs[|jobs| - 1]];
    }
  }

  /** Processing one more job disturbs no row of an earlier one. */
  lemma ProcessedOne(b: Balances, done: seq<Job>, j: Job, rows: map<TxId, Row>)
    requires RowsAfter(b, done, rows) && forall k <- done :: k.id != j.id
    ensures RowsAfter(b, done + [j],
                      rows[j.id := Row(j.req, if Accepts(RunSync(b, done), j.req) then Completed else Failed)])
  {
    hide Chosen, RunSync, Accepts;
    RunSyncAppend(b, done, j);
    ChosenIn(b, done, true);
    ChosenIn(b, done, false);
  }

  /** Balances, rows, verdicts and cache, as deliveries change them. */
  datatype Books = Books(balances: Balances, rows: map<TxId, Row>, acked: seq<Job>, dlq: seq<Job>, redis: map<string, Cached>)

  /** The keys a worker deletes for the jobs it has paid. */
  function PaidKeys(jobs: seq<Job>): set<string> {
    if jobs == [] then {} else
      var last := jobs[|jobs| - 1];
      PaidKeys(jobs[..|jobs| - 1]) + {BalanceKey(last.req.src), BalanceKey(last.req.dst), StatusKey(last.id)}
  }

  lemma PaidKeysAppend(jobs: seq<Job>, j: Job)
    ensures PaidKeys(jobs + [j]) == PaidKeys(jobs) + {BalanceKey(j.req.src), BalanceKey(j.req.dst), StatusKey(j.id)}
  {
    assert (jobs + [j])[..|jobs|] == jobs;
  }

  /** The outcome of processing the unpaid jobs, with the paid ones acknowledged beside them. */
  predicate Tallied(b: Books, unpaid: seq<Job>, paid: seq<Job>, b': Books) {
    && b'.balances == RunSync(b.balances, unpaid)
    && multiset(b'.acked) == multiset(b.acked) + multiset(Chosen(b.balances, unpaid, true)) + multiset(paid)
    && b'.dlq == b.dlq + Chosen(b.balances, unpaid, false)
    && RowsAfter(b.balances, unpaid, b'.rows)
    && b'.redis == b.redis - PaidKeys(Chosen(b.balances, unpaid, true))
  }

  /** Only unpaid jobs already processed may have another row than at first. */
  predicate Untouched(table: map<TxId, Row>, order: seq<Job>, q: multiset<Job>, rows: map<TxId, Row>) {
    && (forall j <- order :: j.id in table)
    && (forall j <- order, k <- q :: j.id != k.id)
    && rows.Keys == table.Keys
    && (forall id <- rows :: (forall j <- order :: j.id != id) || table[id].status == Completed ==> rows[id] == table[id])
  }

  /** What holds when `order` has been processed and `q` waits. */
  predicate Processed(b: Books, order: seq<Job>, q: multiset<Job>, b': Books) {
    && Untouched(b.rows, order, q, b'.rows)
    && Tallied(b, Where(order, b.rows, false), Where(order, b.rows, true), b')
  }

  lemma UntouchedNext(table: map<TxId, Row>, order: seq<Job>, q: multiset<Job>, j: Job, rows: map<TxId, Row>, row: Row)
    requires Untouched(table, order, q, rows) && j in q && j.id in rows
    requires forall k <- q - multiset{j} :: k.id != j.id
    ensures rows[j.id] == table[j.id]
    ensures table[j.id].status == Completed ==> Untouched(table, order + [j], q - multiset{j}, rows)
    ensures table[j.id].status != Completed ==> Untouched(table, order + [j], q - multiset{j}, rows[j.id := row])
  {
  }

  /** One delivery to a worker when nothing fails: a completed job is acknowledged and nothing else, any other is paid
      and acknowledged iff createSync would accept it now, failed and dead-lettered if not. */
  function Next(b: Books, j: Job): Books
    requires j.id in b.rows
  {
    if b.rows[j.id].status == Completed then b.(acked := b.acked + [j])
    else if Accepts(b.balances, j.req) then
      Books(Post(b.balances, j.req), b.rows[j.id := Row(j.req, Completed)], b.acked + [j], b.dlq,
            b.redis - {BalanceKey(j.req.src), BalanceKey(j.req.dst), StatusKey(j.id)})
    else Books(b.balances, b.rows[j.id := Row(j.req, Failed)], b.acked, b.dlq + [j], b.redis)
  }

  lemma TalliedPaid(b: Books, unpaid: seq<Job>, paid: seq<Job>, j: Job, b': Books)
    requires Tallied(b, unpaid, paid, b') && j.id in b'.rows && b'.rows[j.id].status == Completed
    ensures Tallied(b, unpaid, paid + [j], Next(b', j))
  {
    hide Chosen, RunSync, RowsAfter, PaidKeys, BalanceKey, StatusKey;
  }

  lemma TalliedUnpaid(b: Books, unpaid: seq<Job>, paid: seq<Job>, j: Job, b': Books)
    requires Tallied(b, unpaid, paid, b') && j.id in b'.rows && b'.rows[j.id].status != Completed
    requires forall k <- unpaid :: k.id != j.id
    ensures Tallied(b, unpaid + [j], paid, Next(b', j))
  {
    hide Chosen, RunSync, RowsAfter, Accepts, Post, PaidKeys, BalanceKey, StatusKey;
    ProcessedOne(b.balances, unpaid, j, b'.rows);
    RunSyncAppend(b.balances, unpaid, j);
    if Accepts(b'.balances, j.req) {
      assert Chosen(b.balances, unpaid + [j], true) == Chosen(b.balances, unpaid, true) + [j];
      PaidKeysAppend(Chosen(b.balances, unpaid, true), j);
    } else {
      assert Chosen(b.balances, unpaid + [j], true) == Chosen(b.balances, unpaid, true);
    }
  }

  lemma ProcessedNext(b: Books, order: seq<Job>, q: multiset<Job>, j: Job, b': Books)
    requires Processed(b, order, q, b') && j in q && j.id in b'.rows
    requires forall k <- q - multiset{j} :: k.id != j.id
    ensures Processed(b, order + [j], q - multiset{j}, Next(b', j))
  {
    hide Tallied, Where, Accepts, Post;
    var unpaid, paid := Where(order, b.rows, false), Where(order, b.rows, true);
    UntouchedNext(b.rows, order, q, j, b'.rows, Row(j.req, if Accepts(b'.balances, j.req) then Completed else Failed));
    WhereAppend(order, b.rows, false, j);
    WhereAppend(order, b.rows, true, j);
    if b.rows[j.id].status == Completed {
      TalliedPaid(b, unpaid, paid, j, b');
      assert unpaid + [] == unpaid;
    } else {
      WhereIn(order, b.rows, false);
      TalliedUnpaid(b, unpaid, paid, j, b');
      assert paid + [] == paid;
    }
  }

  /** The rows of the accepted jobs are completed, and no other is touched. */
  predicate RecordedAll(table: map<TxId, Row>, rows: map<TxId, Row>, accepted: seq<Job>) {
    && rows.Keys == table.Keys + JobIds(accepted)
    && forall id <- rows :: if id in JobIds(accepted) then rows[id].status == Completed else rows[id] == table[id]
  }

  lemma RecordedNext(table: map<TxId, Row>, rows: map<TxId, Row>, accepted: seq<Job>, j: Job, rows': map<TxId, Row>)
    requires RecordedAll(table, rows, accepted) && j.id in rows' && rows' == rows[j.id := rows'[j.id]] && rows'[j.id].status == Completed
    ensures RecordedAll(table, rows', accepted + [j])
  {
    JobIdsAppend(accepted, j);
  }

  class App {
    var balances: Balances            // accounts
    var rows: map<TxId, Row>          // transactions
    var redis: map<string, Cached>
    var queue: multiset<Job>          // ready messages
    var acked: seq<Job>
    var dlq: seq<Job>
    var counter: int                  // txCounter
    const async: bool                 // a queue client is configured
    const balanceTTL: int
    const statusTTL: int

    constructor (balances: Balances, async: bool, balanceTTL: int, statusTTL: int)
      ensures this.balances == balances && rows == map[] && redis == map[] && queue == multiset{} && acked == dlq == []
      ensures counter == 0 && this.balanceTTL == balanceTTL && this.statusTTL == statusTTL
      ensures this.async == async && Exact(redis, balances) && Tracked(queue, rows, balances.Keys, counter)
    {
      this.balances, this.rows, this.redis := balances, map[], map[];
      this.queue, this.acked, this.dlq, this.counter := multiset{}, [], [], 0;
      this.async, this.balanceTTL, this.statusTTL := async, balanceTTL, statusTTL;
    }

    function CurrentBooks(): Books
      reads this
    {
      Books(balances, rows, acked, dlq, redis)
    }

    /** Exactly the keys of the given accounts are deleted, if Redis answers. */
    method InvalidateBalanceCache(ids: seq<AccountId>, f: Faults)
      modifies `redis
      ensures redis == if f.delete then old(redis) else old(redis) - (set id | id in ids :: BalanceKey(id))
      ensures forall key :: key in redis <==> key in old(redis) && (f.delete || forall id <- ids :: key != BalanceKey(id))
      ensures forall key <- redis :: redis[key] == old(redis)[key]
    {
      var keys: seq<string> := [];
      for i := 0 to |ids|
        invariant |keys| == i && forall k :: 0 <= k < i ==> keys[k] == BalanceKey(ids[k])
      {
        keys := keys + [BalanceKey(ids[i])];
      }
      assert (set k | k in keys) == (set id | id in ids :: BalanceKey(id)) by {
        forall x | x in (set id | id in ids :: BalanceKey(id)) ensures x in keys {
          var id :| id in ids && BalanceKey(id) == x;
          var n :| 0 <= n < |ids| && ids[n] == id;
          assert keys[n] == x;
        }
      }
      if !f.delete { redis := redis - (set k | k in keys); }
    }

    /** Both accounts of a transfer. */
    method InvalidateBoth(req: Request, f: Faults)
      modifies `redis
      ensures redis == if f.delete then old(redis) else old(redis) - {BalanceKey(req.src), BalanceKey(req.dst)}
    {
      InvalidateBalanceCache([req.src, req.dst], f);
      assert (set id | id in [req.src, req.dst] :: BalanceKey(id)) == {BalanceKey(req.src), BalanceKey(req.dst)};
    }

    /** createSync; the statements are SELECT, EXISTS, debit, credit, INSERT, COMMIT. */
    method CreateSync(j: Job, f: Faults) returns (r: ServiceResult)
      modifies `balances, `rows, `redis
      ensures r == Done(j, Completed) <==> Accepts(old(balances), j.req) && !(1 <= f.db <= 6)
      ensures r == InsufficientFunds <==>
                f.db != 1 && j.req.src in old(balances) && old(balances)[j.req.src] < j.req.amount
      ensures r == AccountNotFound <==>
                f.db != 1 && (j.req.src !in old(balances)
                              || (Covered(old(balances), j.req) && f.db != 2 && j.req.dst !in old(balances)))
      ensures r == OtherError <==>
                f.db == 1 || (f.db == 2 && Covered(old(balances), j.req)) || (3 <= f.db <= 6 && Accepts(old(balances), j.req))
      ensures r == Done(j, Completed) ==>
                && balances == Post(old(balances), j.req)
                && rows == old(rows)[j.id := Row(if j.id in old(rows) then old(rows)[j.id].req else j.req, Completed)]
                && redis == (if f.delete then old(redis) else old(redis) - {BalanceKey(j.req.src), BalanceKey(j.req.dst)})
      ensures r != Done(j, Completed) ==> !r.Done? && balances == old(balances) && rows == old(rows) && redis == old(redis)
      ensures balances.Keys == old(balances).Keys && (old(Exact(redis, balances)) && !f.delete ==> Exact(redis, balances))
    {
      var view, table := balances, rows; // what the database transaction sees; dropped by every return but the last
      if f.db == 1 { return OtherError; }
      if j.req.src !in view { return AccountNotFound; }
      var balance := view[j.req.src];
      if balance < j.req.amount { return InsufficientFunds; }
      if f.db == 2 { return OtherError; }
      if j.req.dst !in view { return AccountNotFound; }
      if f.db == 3 { return OtherError; }
      view := view[j.req.src := view[j.req.src] - j.req.amount];
      if f.db == 4 { return OtherError; }
      view := view[j.req.dst := view[j.req.dst] + j.req.amount];
      if f.db == 5 { return OtherError; }
      table := if j.id in table then table[j.id := table[j.id].(status := Completed)] else table[j.id := Row(j.req, Completed)];
      if f.db == 6 { return OtherError; }
      balances, rows := view, table;
      InvalidateBoth(j.req, f);
      r := Done(j, Completed);
    }

    /** settle; the statements are SELECT, debit, credit, UPDATE, COMMIT. It never looks for the destination. */
    method Settle(j: Job, f: Faults) returns (ok: bool)
      modifies `balances, `rows
      ensures ok <==> Covered(old(balances), j.req) && !(1 <= f.db <= 5)
      ensures ok ==> balances == Post(old(balances), j.req) && rows == WithStatus(old(rows), j.id, Completed)
      ensures balances.Keys == old(balances).Keys
      ensures !ok ==> balances == old(balances) && rows == old(rows)
    {
      var view, table := balances, rows;
      if f.db == 1 || j.req.src !in view { return false; }
      var balance := view[j.req.src];
      if balance < j.req.amount { return false; }
      if f.db == 2 { return false; }
      view := view[j.req.src := view[j.req.src] - j.req.amount];
      if f.db == 3 { return false; }
      if j.req.dst in view { view := view[j.req.dst := view[j.req.dst] + j.req.amount]; }
      if f.db == 4 { return false; }
      if j.id in table { table := table[j.id := table[j.id].(status := Completed)]; }
      if f.db == 5 { return false; }
      balances, rows := view, table;
      return true;
    }

    /** repo.Save: an INSERT, refused by the primary key and the foreign keys. */
    method Save(j: Job, f: Faults) returns (ok: bool)
      modifies `rows
      ensures ok <==> !f.save && j.id !in old(rows) && j.req.src in balances && j.req.dst in balances
      ensures rows == if ok then old(rows)[j.id := Row(j.req, Pending)] else old(rows)
    {
      ok := !f.save && j.id !in rows && j.req.src in balances && j.req.dst in balances;
      if ok { rows := rows[j.id := Row(j.req, Pending)]; }
    }

    method UpdateStatus(id: TxId, status: Status, f: Faults)
      modifies `rows
      ensures rows == if f.mark then old(rows) else WithStatus(old(rows), id, status)
    {
      if !f.mark && id in rows { rows := rows[id := rows[id].(status := status)]; }
    }

    /** createAsync: save, publish; a row whose message was refused is marked failed if that can be done. */
    method CreateAsync(j: Job, f: Faults) returns (r: ServiceResult)
      modifies `rows, `queue
      ensures r == Done(j, Pending) || r == OtherError
      ensures var saved := !f.save && j.id !in old(rows) && j.req.src in balances && j.req.dst in balances;
              && (r == Done(j, Pending) <==> saved && !f.publish.Refused?)
              && (saved ==> rows == old(rows)[j.id := Row(j.req, if f.publish.Refused? && !f.mark then Failed else Pending)])
              && (!saved ==> rows == old(rows))
              && queue == (if saved && f.publish.Sent? then old(queue) + multiset{j} else old(queue))
    {
      var saved := Save(j, f);
      if !saved { return OtherError; }
      if f.publish.Refused? {
        UpdateStatus(j.id, Failed, f);
        return OtherError;
      }
      if f.publish.Sent? { queue := queue + multiset{j}; }
      return Done(j, Pending);
    }

    /** process: exactly one verdict, true for ack and false for nack. `body` is None when the payload does not parse. */
    method Process(body: Option<Job>, f: Faults) returns (ack: bool)
      modifies `balances, `rows, `redis
      ensures body.None? ==> !ack && balances == old(balances) && rows == old(rows) && redis == old(redis)
      ensures body.Some? ==>
        var j := body.value;
        var skip := !f.read && j.id in old(rows) && old(rows)[j.id].status == Completed;
        var pays := Covered(old(balances), j.req) && !(1 <= f.db <= 5);
        && (ack <==> skip || pays)
        && balances == (if !skip && pays then Post(old(balances), j.req) else old(balances))
        && rows == (if skip then old(rows)
                    else if pays then WithStatus(old(rows), j.id, Completed)
                    else if f.mark then old(rows)
                    else WithStatus(old(rows), j.id, Failed))
        && redis == (if !skip && pays && !f.delete then old(redis) - {BalanceKey(j.req.src), BalanceKey(j.req.dst), StatusKey(j.id)}
                     else old(redis))
      ensures balances.Keys == old(balances).Keys && (old(Exact(redis, balances)) && !f.delete ==> Exact(redis, balances))
    {
      if body.None? { return false; }
      var j := body.value;
      if !f.read && j.id in rows && rows[j.id].status == Completed { return true; }
      var settled := Settle(j, f);
      if !settled {
        UpdateStatus(j.id, Failed, f);
        return false;
      }
      InvalidateBoth(j.req, f);
      if !f.delete { redis := redis - {StatusKey(j.id)}; }
      return true;
    }

    /** GetBalance; None is an error. When every transfer is atomic the cache changes nothing: an answer is the
        committed balance. */
    method GetBalance(id: AccountId, now: int, f: Faults) returns (r: Option<int>)
      modifies `redis
      ensures var key := BalanceKey(id);
              if !f.lookup && key in old(redis) && old(redis)[key].CachedBalance? && now < old(redis)[key].expires
              then r == Some(old(redis)[key].balance) && redis == old(redis)
              else r == (if !f.read && id in balances then Some(balances[id]) else None)
                   && redis == (if r.Some? && !f.store then old(redis)[key := CachedBalance(r.value, now + balanceTTL)]
                                else old(redis))
      ensures old(Exact(redis, balances)) ==> Exact(redis, balances)
      ensures old(Exact(redis, balances)) && r.Some? ==> id in balances && r == Some(balances[id])
      ensures r.None? ==> f.read || id !in balances
    {
      var key := BalanceKey(id);
      if !f.lookup && key in redis && redis[key].CachedBalance? && now < redis[key].expires {
        return Some(redis[key].balance);
      }
      if f.read || id !in balances { return None; }
      if !f.store { redis := redis[key := CachedBalance(balances[id], now + balanceTTL)]; }
      forall a | a != id ensures BalanceKey(a) != key { KeysDoNotClash(a, id, 0); }
      return Some(balances[id]);
    }

    /** GetTransactionStatus: pending answers are kept two seconds, the others for the full TTL. */
    method GetTransactionStatus(id: TxId, now: int, f: Faults) returns (r: Option<Row>)
      modifies `redis
      ensures var key := StatusKey(id);
              if !f.lookup && key in old(redis) && old(redis)[key].CachedStatus? && now < old(redis)[key].expires
              then r == Some(old(redis)[key].row) && redis == old(redis)
              else r == (if !f.read && id in rows then Some(rows[id]) else None)
                   && redis == (if r.Some? && !f.store
                                then var ttl := if r.value.status.Pending? then 2_000 else statusTTL;
                                     old(redis)[key := CachedStatus(r.value, now + ttl)]
                                else old(redis))
      ensures old(Exact(redis, balances)) ==> Exact(redis, balances)
      ensures r.None? ==> f.read || id !in rows
    {
      var key := StatusKey(id);
      if !f.lookup && key in redis && redis[key].CachedStatus? && now < redis[key].expires {
        return Some(redis[key].row);
      }
      if f.read || id !in rows { return None; }
      var ttl := statusTTL;
      if rows[id].status == Pending { ttl := 2_000; }
      if !f.store { redis := redis[key := CachedStatus(rows[id], now + ttl)]; }
      forall a ensures BalanceKey(a) != key { KeysDoNotClash(a, a, id); }
      return Some(rows[id]);
    }

    /** CreateTransaction: a new identifier, then the asynchronous path if there is a queue. */
    method CreateTransaction(req: Request, now: int, f: Faults) returns (r: ServiceResult, j: Job)
      requires Tracked(queue, rows, balances.Keys, counter)
      modifies `balances, `rows, `redis, `queue, `counter
      ensures j.req == req && j.id == (if now > old(counter) then now else old(counter) + 1) && counter == j.id && j.id !in old(rows)
      ensures async ==>
                var saved := !f.save && req.src in balances && req.dst in balances;
                && r == (if saved && !f.publish.Refused? then Done(j, Pending) else OtherError)
                && rows == (if saved then old(rows)[j.id := Row(req, if f.publish.Refused? && !f.mark then Failed else Pending)]
                            else old(rows))
                && queue == (if saved && f.publish.Sent? then old(queue) + multiset{j} else old(queue))
                && balances == old(balances) && redis == old(redis)
      ensures !async ==>
                var b := old(balances);
                && (r == Done(j, Completed) <==> Accepts(b, req) && !(1 <= f.db <= 6))
                && (r == InsufficientFunds <==> f.db != 1 && req.src in b && b[req.src] < req.amount)
                && (r == AccountNotFound <==>
                      f.db != 1 && (req.src !in b || (Covered(b, req) && f.db != 2 && req.dst !in b)))
                && (r == OtherError <==>
                      f.db == 1 || (f.db == 2 && Covered(b, req)) || (3 <= f.db <= 6 && Accepts(b, req)))
                && (r.Done? ==> r == Done(j, Completed))
                && balances == (if r.Done? then Post(b, req) else b)
                && rows == (if r.Done? then old(rows)[j.id := Row(req, Completed)] else old(rows))
                && redis == (if r.Done? && !f.delete then old(redis) - {BalanceKey(req.src), BalanceKey(req.dst)} else old(redis))
                && queue == old(queue)
      ensures balances.Keys == old(balances).Keys
      ensures Tracked(queue, rows, balances.Keys, counter)
      ensures old(Exact(redis, balances)) && !f.delete ==> Exact(redis, balances)
    {
      hide Tracked, Exact, Post, Accepts;
      j := Job(IdGenerator.Next(counter, now), req);
      QueueUntouched(queue, rows, balances.Keys, counter, j);
      counter := j.id;
      if async {
        r := CreateAsync(j, f);
      } else {
        r := CreateSync(j, f);
      }
    }

    /** POST /transactions from the guards to the reply: which reply is given when, and what each leaves behind. An
        unknown account is a 422 without a queue and a 500 with one; a 500 can leave a row that is failed or pending. */
    method HandlePost(body: Option<Request>, now: int, f: Faults) returns (reply: Reply)
      requires Tracked(queue, rows, balances.Keys, counter)
      modifies `balances, `rows, `redis, `queue, `counter
      ensures reply == BadRequest400("invalid request body") <==> body.None?
      ensures reply == BadRequest400("source_account and dest_account are required") <==>
                body.Some? && (body.value.src == 0 || body.value.dst == 0)
      ensures reply == BadRequest400("amount must be greater than 0") <==>
                body.Some? && body.value.src != 0 && body.value.dst != 0 && body.value.amount <= 0
      ensures reply.BadRequest400? <==> body.None? || body.value.src == 0 || body.value.dst == 0 || body.value.amount <= 0
      ensures reply.BadRequest400? ==> unchanged(this)
      ensures !reply.BadRequest400? ==>
                counter == (if now > old(counter) then now else old(counter) + 1) && counter !in old(rows)
      ensures !reply.BadRequest400? && async ==>
                var req := body.value;
                var saved := !f.save && req.src in balances && req.dst in balances;
                && (reply == Accepted202(Job(counter, req), Pending) <==> saved && !f.publish.Refused?)
                && (reply == Internal500("failed to save transaction") <==> !saved || f.publish.Refused?)
                && rows == (if saved then old(rows)[counter := Row(req, if f.publish.Refused? && !f.mark then Failed else Pending)]
                            else old(rows))
                && queue == (if saved && f.publish.Sent? then old(queue) + multiset{Job(counter, req)} else old(queue))
                && balances == old(balances) && redis == old(redis)
      ensures !reply.BadRequest400? && !async ==>
                var req, b := body.value, old(balances);
                && (reply == Created201(Job(counter, req), Completed) <==> Accepts(b, req) && !(1 <= f.db <= 6))
                && (reply == Unprocessable422("insufficient funds") <==> f.db != 1 && req.src in b && b[req.src] < req.amount)
                && (reply == Unprocessable422("account not found") <==>
                      f.db != 1 && (req.src !in b || (Covered(b, req) && f.db != 2 && req.dst !in b)))
                && (reply == Internal500("failed to save transaction") <==>
                      f.db == 1 || (f.db == 2 && Covered(b, req)) || (3 <= f.db <= 6 && Accepts(b, req)))
                && balances == (if reply.Created201? then Post(b, req) else b)
                && rows == (if reply.Created201? then old(rows)[counter := Row(req, Completed)] else old(rows))
                && redis == (if reply.Created201? && !f.delete
                             then old(redis) - {BalanceKey(req.src), BalanceKey(req.dst)} else old(redis))
                && queue == old(queue)
      ensures Tracked(queue, rows, balances.Keys, counter)
      ensures old(Exact(redis, balances)) && !f.delete ==> Exact(redis, balances)
    {
      hide Tracked, Exact, Post;
      MessagesDiffer();
      if body.None? { return BadRequest400("invalid request body"); }
      var req := body.value;
      if req.src == 0 || req.dst == 0 { return BadRequest400("source_account and dest_account are required"); }
      if req.amount <= 0 { return BadRequest400("amount must be greater than 0"); }
      var r, j := CreateTransaction(req, now, f);
      reply := ReplyFor(r);
    }

    /** createSync for each job in turn: balances of the reference run, a completed row for each accepted job, and nothing
        else changed. */
    method SyncAll(jobs: seq<Job>)
      modifies `balances, `rows, `redis
      ensures balances == RunSync(old(balances), jobs)
      ensures var accepted := JobIds(Chosen(old(balances), jobs, true));
              && rows.Keys == old(rows).Keys + accepted
              && (forall id <- rows :: if id in accepted then rows[id].status == Completed else rows[id] == old(rows)[id])
      ensures old(Exact(redis, balances)) ==> Exact(redis, balances)
    {
      hide Exact, Post, Accepts;
      ghost var b, table := balances, rows;
      ghost var accepted: seq<Job> := [];
      assert jobs[..0] == [];
      SyncNothing(b);
      for i := 0 to |jobs|
        invariant balances == RunSync(b, jobs[..i]) && accepted == Chosen(b, jobs[..i], true)
        invariant RecordedAll(table, rows, accepted)
        invariant old(Exact(redis, balances)) ==> Exact(redis, balances)
      {
        ghost var before := rows;
        RunSyncAppend(b, jobs[..i], jobs[i]);
        assert jobs[..i] + [jobs[i]] == jobs[..i + 1];
        var r := CreateSync(jobs[i], Faults());
        if r.Done? { RecordedNext(table, before, accepted, jobs[i], rows); }
        accepted := Chosen(b, jobs[..i + 1], true);
      }
      assert jobs[..|jobs|] == jobs;
    }

    /** One delivery, first or repeated: process, then ack or dead-letter. */
    method Deliver(j: Job, f: Faults) returns (ack: bool)
      requires j in queue && Tracked(queue, rows, balances.Keys, counter)
      modifies `balances, `rows, `redis, `queue, `acked, `dlq
      ensures j.id in old(rows) && old(rows)[j.id].req == j.req
      ensures var skip := !f.read && old(rows)[j.id].status == Completed;
              var pays := Accepts(old(balances), j.req) && !(1 <= f.db <= 5);
              && (ack <==> skip || pays)
              && balances == (if !skip && pays then Post(old(balances), j.req) else old(balances))
              && rows == (if skip || (!pays && f.mark) then old(rows)
                          else old(rows)[j.id := Row(j.req, if pays then Completed else Failed)])
      ensures var skip := !f.read && old(rows)[j.id].status == Completed;
              var pays := Accepts(old(balances), j.req) && !(1 <= f.db <= 5);
              redis == (if !skip && pays && !f.delete
                        then old(redis) - {BalanceKey(j.req.src), BalanceKey(j.req.dst), StatusKey(j.id)} else old(redis))
      ensures queue == old(queue) - multiset{j} && forall k <- queue :: k.id != j.id
      ensures acked == (if ack then old(acked) + [j] else old(acked)) && dlq == (if ack then old(dlq) else old(dlq) + [j])
      ensures balances.Keys == old(balances).Keys && rows.Keys == old(rows).Keys
      ensures Tracked(queue, rows, balances.Keys, counter)
      ensures old(Exact(redis, balances)) && !f.delete ==> Exact(redis, balances)
    {
      hide Tracked, Exact, Post;
      QueueShrinks(queue, j, rows, balances.Keys, counter);
      queue := queue - multiset{j};
      ack := Process(Some(j), f);
      if ack { acked := acked + [j]; } else { dlq := dlq + [j]; }
    }

    /** The workers empty the queue, in an order nobody controls, redelivered messages included. The balances are those
        of createSync on the unpaid jobs in that order. Completed and acknowledged are the jobs it accepts and those
        that were completed before, which nobody pays again; failed and dead-lettered are the jobs it rejects. */
    method Drain() returns (order: seq<Job>)
      requires Tracked(queue, rows, balances.Keys, counter)
      modifies `balances, `rows, `redis, `queue, `acked, `dlq
      ensures multiset(order) == old(queue) && queue == multiset{} && forall j <- order :: j.id in old(rows)
      ensures var b, unpaid := old(balances), Where(order, old(rows), false);
              && balances == RunSync(b, unpaid)
              && multiset(acked) ==
                 multiset(old(acked)) + multiset(Chosen(b, unpaid, true)) + multiset(Where(order, old(rows), true))
              && dlq == old(dlq) + Chosen(b, unpaid, false)
              && RowsAfter(b, unpaid, rows)
              && redis == old(redis) - PaidKeys(Chosen(b, unpaid, true))
      ensures rows.Keys == old(rows).Keys
      ensures forall id <- rows :: (forall j <- multiset(order) :: j.id != id) || old(rows)[id].status == Completed ==>
                rows[id] == old(rows)[id]
      ensures Tracked(queue, rows, balances.Keys, counter) && (old(Exact(redis, balances)) ==> Exact(redis, balances))
    {
      hide Processed, Next, Exact, Tracked;
      ghost var b, all := CurrentBooks(), queue;
      order := [];
      DrainStarts(b, all);
      while queue != multiset{}
        invariant multiset(order) + queue == all
        invariant Tracked(queue, rows, balances.Keys, counter) && (old(Exact(redis, balances)) ==> Exact(redis, balances))
        invariant Processed(b, order, queue, CurrentBooks())
        decreases |queue|
      {
        var j :| j in queue;
        ghost var q, b' := queue, CurrentBooks();
        var ack := Deliver(j, Faults());
        DeliveredNext(b', j, ack, CurrentBooks());
        ProcessedNext(b, order, q, j, b');
        order := order + [j];
      }
      DrainEnds(b, order, CurrentBooks());
    }
  }

  /** What Deliver promises is the next state of the books. */
  lemma DeliveredNext(b: Books, j: Job, ack: bool, b': Books)
    requires j.id in b.rows && b.rows[j.id].req == j.req
    requires var skip, pays := b.rows[j.id].status == Completed, Accepts(b.balances, j.req);
             && (ack <==> skip || pays)
             && b'.balances == (if !skip && pays then Post(b.balances, j.req) else b.balances)
             && b'.rows == (if skip then b.rows else b.rows[j.id := Row(j.req, if pays then Completed else Failed)])
             && b'.acked == (if ack then b.acked + [j] else b.acked) && b'.dlq == (if ack then b.dlq else b.dlq + [j])
             && b'.redis == (if !skip && pays then b.redis - {BalanceKey(j.req.src), BalanceKey(j.req.dst), StatusKey(j.id)} else b.redis)
    ensures b' == Next(b, j)
  {
    hide Accepts, Post;
  }

  lemma DrainEnds(b: Books, order: seq<Job>, b': Books)
    requires Processed(b, order, multiset{}, b')
    ensures forall j <- order :: j.id in b.rows
    ensures var unpaid := Where(order, b.rows, false);
            && b'.balances == RunSync(b.balances, unpaid)
            && multiset(b'.acked) ==
               multiset(b.acked) + multiset(Chosen(b.balances, unpaid, true)) + multiset(Where(order, b.rows, true))
            && b'.dlq == b.dlq + Chosen(b.balances, unpaid, false) && RowsAfter(b.balances, unpaid, b'.rows)
            && b'.redis == b.redis - PaidKeys(Chosen(b.balances, unpaid, true))
    ensures b'.rows.Keys == b.rows.Keys
    ensures forall id <- b.rows :: (forall j <- multiset(order) :: j.id != id) || b.rows[id].status == Completed ==>
              b'.rows[id] == b.rows[id]
  {
    hide RunSync, Chosen, RowsAfter, Where, PaidKeys;
    forall j | j in order ensures j in multiset(order) {}
  }

  lemma DrainStarts(b: Books, q: multiset<Job>)
    ensures Processed(b, [], q, b)
  {
  }
}
