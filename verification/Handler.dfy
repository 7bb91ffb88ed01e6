/** The HTTP handler of POST /transactions: guards in front of the service, and the reply for each result. */
module Handler {
  import opened Domain

  /** What the service answers: the stored transfer, or its error. */
  datatype ServiceResult = Done(job: Job, status: Status) | InsufficientFunds | AccountNotFound | OtherError

  datatype Reply =
    | BadRequest400(error: string)
    | Unprocessable422(error: string)
    | Internal500(error: string)
    | Created201(job: Job, status: Status)
    | Accepted202(job: Job, status: Status)

  /** `body` is None when the request does not parse; `serve` is the service. */
  function CreateTransaction(body: Option<Request>, serve: Request -> ServiceResult): Reply {
    if body.None? then BadRequest400("invalid request body")
    else if body.value.src == 0 || body.value.dst == 0 then BadRequest400("source_account and dest_account are required")
    else if body.value.amount <= 0 then BadRequest400("amount must be greater than 0")
    else ReplyFor(serve(body.value))
  }

  function ReplyFor(result: ServiceResult): Reply {
    match result
    case InsufficientFunds => Unprocessable422("insufficient funds")
    case AccountNotFound => Unprocessable422("account not found")
    case OtherError => Internal500("failed to save transaction")
    case Done(job, status) => if status.Pending? then Accepted202(job, status) else Created201(job, status)
  }

  lemma MessagesDiffer()
    ensures "invalid request body" != "source_account and dest_account are required"
    ensures "source_account and dest_account are required" != "amount must be greater than 0"
    ensures "amount must be greater than 0" != "invalid request body" && "insufficient funds" != "account not found"
  {
    assert "invalid request body"[0] == 'i' && "source_account and dest_account are required"[0] == 's';
    assert "amount must be greater than 0"[0] == 'a' && "insufficient funds"[0] == 'i' && "account not found"[0] == 'a';
  }

  /** The service is asked exactly about the requests that parse, name both accounts and have a positive amount: the
      others are refused whatever it would answer. */
  lemma OnlyAdmittedAreServed(body: Option<Request>, serve: Request -> ServiceResult, other: Request -> ServiceResult)
    ensures var bad := body.None? || body.value.src == 0 || body.value.dst == 0 || body.value.amount <= 0;
            && (CreateTransaction(body, serve).BadRequest400? <==> bad)
            && (bad ==> CreateTransaction(body, serve) == CreateTransaction(body, other))
            && (bad <==> body.None? || !Admits(body.value))
    ensures CreateTransaction(body, serve) == BadRequest400("invalid request body") <==> body.None?
    ensures CreateTransaction(body, serve) == BadRequest400("source_account and dest_account are required") <==>
              body.Some? && (body.value.src == 0 || body.value.dst == 0)
    ensures CreateTransaction(body, serve) == BadRequest400("amount must be greater than 0") <==>
              body.Some? && body.value.src != 0 && body.value.dst != 0 && body.value.amount <= 0
  {
    MessagesDiffer();
  }

  /** 202 means saved as pending, 201 means done, both with the transfer; each error has its status code and message. */
  lemma RepliesTellResults(req: Request, serve: Request -> ServiceResult)
    requires req.src != 0 && req.dst != 0 && req.amount > 0
    ensures var r, served := CreateTransaction(Some(req), serve), serve(req);
            && (r.Accepted202? <==> served.Done? && served.status == Pending)
            && (r.Created201? <==> served.Done? && served.status != Pending)
            && (r.Accepted202? || r.Created201? ==> r.job == served.job && r.status == served.status)
            && (r == Unprocessable422("insufficient funds") <==> served == InsufficientFunds)
            && (r == Unprocessable422("account not found") <==> served == AccountNotFound)
            && (r == Internal500("failed to save transaction") <==> served == OtherError)
  {
    MessagesDiffer();
  }
}
