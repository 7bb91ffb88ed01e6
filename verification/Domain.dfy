/** The values every part of the service shares: accounts, requests, rows and messages. */
module Domain {

  type AccountId = int
  type ThreadId = nat

  /** The number `nextTransactionID` formats; `IdText` shows the text is an order embedding of it. */
  type TxId = int

  datatype Option<+T> = None | Some(value: T)

  /** A transfer request; the amount is in whole cents. */
  datatype Request = Request(src: AccountId, dst: AccountId, amount: int)

  /** A request with its identifier: the argument of `createSync` and `createAsync`,
      and the payload (`TxMessage`) that travels through the queue. */
  datatype Job = Job(id: TxId, req: Request)

  datatype Status = Pending | Failed | Completed

  /** A row of the `transactions` table. */
  datatype Row = Row(req: Request, status: Status)

  /** UPDATE transactions SET status = ...: no effect when there is no such row. */
  function WithStatus(rows: map<TxId, Row>, id: TxId, status: Status): map<TxId, Row> {
    if id in rows then rows[id := rows[id].(status := status)] else rows
  }

  /** The order in which a status may move: pending, failed, completed. */
  function Rank(s: Status): nat {
    match s
    case Pending => 0
    case Failed => 1
    case Completed => 2
  }

  /** The guard of the HTTP handler: both accounts given, and a positive amount. */
  predicate Admits(req: Request) {
    req.src != 0 && req.dst != 0 && req.amount > 0
  }

  lemma Inhabited(s: set<int>)
    requires s != {}
    ensures exists x :: x in s
  {
    assert (forall x :: x !in s) ==> s == {};
  }

  /** Some element of a set of identifiers, always the same one for the same set. */
  ghost function Pick(s: set<int>): (x: int)
    requires s != {}
    ensures x in s
  {
    Inhabited(s);
    var x :| x in s;
    x
  }

  function JobIds(jobs: seq<Job>): set<TxId> {
    set j | j in jobs :: j.id
  }

  lemma JobIdsAppend(jobs: seq<Job>, j: Job)
    ensures JobIds(jobs + [j]) == JobIds(jobs) + {j.id}
  {
    forall id | id in JobIds(jobs) + {j.id} ensures id in JobIds(jobs + [j]) {
      if id == j.id {
        assert (jobs + [j])[|jobs|] == j;
      } else {
        var k :| k in jobs && k.id == id;
        assert k in jobs + [j];
      }
    }
  }
}
