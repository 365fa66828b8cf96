/** The two lookup endpoints, `/num` and `/aadhar`, up to the point where
    they call the remote lookup service (app.py, `lookup_num` and
    `lookup_aadhar` under the `rate_limit` decorator). Both share one
    limiter, keyed by the client's address.
 */
module Endpoints {

  import opened Wrappers
  import opened RateLimiter
  import opened QueryValidation

  /** What the endpoint answers before any remote call: 429, 400, or the
      normalised number handed on to the lookup. */
  datatype Response =
    | TooManyRequests
    | BadRequest(reason: Rejection)
    | Forward(kind: Kind, number: string)

  /** One request: the limiter runs first, so a request that the parameter
      check rejects has still used up a slot of its client's window. */
  method HandleLookup(limiter: Limiter, kind: Kind, client: ClientId, now: int, param: Option<string>)
    returns (resp: Response)
    requires limiter.Valid()
    modifies limiter
    ensures limiter.Valid()
    ensures limiter.tracker == old(limiter.tracker)[client := Record(old(limiter.Window(client)), now).window]
    ensures resp == TooManyRequests <==> Record(old(limiter.Window(client)), now).decision == Denied
    ensures resp != TooManyRequests ==> limiter.tracker[client][|limiter.tracker[client]| - 1] == now
    ensures resp != TooManyRequests ==>
      match Validate(kind, param)
      case Rejected(why) => resp == BadRequest(why)
      case Accepted(number) => resp == Forward(kind, number)
  {
    var d := limiter.CheckAndRecord(client, now);
    if d == Denied {
      return TooManyRequests;
    }
    var v := Validate(kind, param);
    match v
    case Rejected(why) => resp := BadRequest(why);
    case Accepted(number) => resp := Forward(kind, number);
  }
}
