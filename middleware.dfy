/**
 The middleware's shared counter tables and the decision it runs on every
 request, as an object whose two maps are updated in place.
 */
module Middleware {
  import opened RateLimit
  import Runs

  datatype Request = Request(remoteAddr: string, path: string)

  /** An HTTP response: a status code and a body. */
  datatype Response = Response(status: int, body: seq<char>)

  const StatusTooManyRequests: int := 429

  /** What the middleware writes on a rejection: status 429 and nothing else. */
  const TooManyRequests: Response := Response(StatusTooManyRequests, [])

  class Counters {
    var remoteAddr: map<string, uint64>
    var remoteAddrNextTry: map<string, Instant>

    /** The two tables as one value. */
    function Snapshot(): State
      reads this
    {
      State(remoteAddr, remoteAddrNextTry)
    }

    /** Every counter is within the limit, so none can overflow. */
    ghost predicate CountsWithinLimit()
      reads this
    {
      Bounded(Snapshot())
    }

    /** Both tables start empty. */
    constructor ()
      ensures Snapshot() == Empty && CountsWithinLimit()
    {
      remoteAddr := map[];
      remoteAddrNextTry := map[];
    }

    /**
     The decision for one request from `addr` at `now`, performed on the tables
     in place: it is exactly `Step`, and it keeps every counter within the limit.
     */
    method Decide(addr: string, now: Instant) returns (o: Outcome)
      modifies this
      ensures Decision(o, Snapshot()) == Step(old(Snapshot()), addr, now)
      ensures old(CountsWithinLimit()) ==> CountsWithinLimit()
      ensures o == Allow <==> !LockedOut(old(Snapshot()), addr, now) && CountOf(old(Snapshot()), addr) < RemoteAddrReqLimit
      ensures o == Allow ==> CountOf(Snapshot(), addr) as int == CountOf(old(Snapshot()), addr) as int + 1
      ensures o == Allow ==> remoteAddrNextTry == old(remoteAddrNextTry)
      ensures LockedOut(old(Snapshot()), addr, now) ==> o == Reject && Snapshot() == old(Snapshot())
      ensures o == Reject && !LockedOut(old(Snapshot()), addr, now) ==>
        CountOf(Snapshot(), addr) == 0 && NextTryOf(Snapshot(), addr) == now + RemoteAddrReqPeriod
      ensures remoteAddr - {addr} == old(remoteAddr) - {addr}
      ensures remoteAddrNextTry - {addr} == old(remoteAddrNextTry) - {addr}
    {
      var nextTry := if addr in remoteAddrNextTry then remoteAddrNextTry[addr] else ZeroTime;
      if nextTry - now > 0 {
        return Reject;
      }
      var count := if addr in remoteAddr then remoteAddr[addr] else 0;
      if count >= RemoteAddrReqLimit {
        remoteAddr := remoteAddr[addr := 0];
        remoteAddrNextTry := remoteAddrNextTry[addr := now + RemoteAddrReqPeriod];
        return Reject;
      }
      remoteAddr := remoteAddr[addr := Inc(count)];
      return Allow;
    }

    /**
     The middleware wrapped around a downstream handler `next`: the request is
     decided on its remote address; when allowed it is handed to `next`
     unchanged and `next`'s response is returned as is, and when rejected the
     response is a bare 429 and `next` is not invoked.
     */
    method Handle(req: Request, now: Instant, next: Request -> Response) returns (resp: Response, invoked: bool)
      modifies this
      ensures Snapshot() == Step(old(Snapshot()), req.remoteAddr, now).next
      ensures invoked <==> Step(old(Snapshot()), req.remoteAddr, now).outcome == Allow
      ensures resp == if invoked then next(req) else TooManyRequests
      ensures old(CountsWithinLimit()) ==> CountsWithinLimit()
    {
      var o := Decide(req.remoteAddr, now);
      if o == Reject {
        return TooManyRequests, false;
      }
      resp := next(req);
      invoked := true;
    }
  }

  /**
   A client of the class: starting empty, 20 requests at one instant are
   allowed, the 21st is rejected, a retry within the period is rejected, and a
   request once the period has passed is allowed with the counter back at 1.
   */
  method LockoutCycleOnCounters(addr: string, now: Instant, retry: Instant, later: Instant)
    returns (outcomes: seq<Outcome>, finalCount: uint64)
    requires retry < now + RemoteAddrReqPeriod <= later
    ensures outcomes == Runs.Copies(Allow, 20) + [Reject, Reject, Allow]
    ensures finalCount == 1
  {
    var c := new Counters();
    outcomes := [];
    var i := 0;
    while i < 20
      invariant 0 <= i <= 20
      invariant c.Snapshot() == State(map[addr := i as uint64], map[]) || (i == 0 && c.Snapshot() == Empty)
      invariant outcomes == Runs.Copies(Allow, i)
    {
      var o := c.Decide(addr, now);
      outcomes := outcomes + [o];
      i := i + 1;
    }
    var o := c.Decide(addr, now);
    outcomes := outcomes + [o];
    o := c.Decide(addr, retry);
    outcomes := outcomes + [o];
    o := c.Decide(addr, later);
    outcomes := outcomes + [o];
    finalCount := c.remoteAddr[addr];
  }
}
