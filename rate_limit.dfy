/**
 The per-client rate-limit rule of the HTTP middleware, stated on values.

 The limiter keeps two tables keyed by the client's remote address: how many
 requests were accepted in the current window, and the instant before which the
 client is locked out. `Step` is one atomic decision over those two tables; the
 class in module Middleware performs the same decision in place and is proved
 against `Step`.
 */
module RateLimit {

  /** Go's `uint64`, the type of the per-address request counter. */
  newtype uint64 = x: int | 0 <= x < 0x1_0000_0000_0000_0000

  const MaxUint64: uint64 := 0xFFFF_FFFF_FFFF_FFFF

  /** An instant, in nanoseconds since Go's zero `time.Time`. */
  type Instant = nat

  /** Go's zero `time.Time`: what a missing next-try entry reads as. */
  const ZeroTime: Instant := 0

  const Second: nat := 1_000_000_000

  /** Accepted requests per address before the next one is penalised. */
  const RemoteAddrReqLimit: uint64 := 20

  /** How long a penalised address stays locked out. */
  const RemoteAddrReqPeriod: nat := 10 * Second

  datatype Outcome = Allow | Reject

  /** The limiter's two tables, both keyed by the remote address. */
  datatype State = State(count: map<string, uint64>, nextTry: map<string, Instant>)

  datatype Decision = Decision(outcome: Outcome, next: State)

  const Empty: State := State(map[], map[])

  /** Go's map read: a missing key yields the zero value. */
  function CountOf(s: State, addr: string): uint64
  {
    if addr in s.count then s.count[addr] else 0
  }

  function NextTryOf(s: State, addr: string): Instant
  {
    if addr in s.nextTry then s.nextTry[addr] else ZeroTime
  }

  /** `nextTry.Sub(now) > 0`: the stored next-try instant is still ahead of `now`. */
  predicate LockedOut(s: State, addr: string, now: Instant)
  {
    NextTryOf(s, addr) - now > 0
  }

  /** Go's `++` on a `uint64`, wrapping to zero past the largest value. */
  function Inc(c: uint64): uint64
  {
    if c == MaxUint64 then 0 else c + 1
  }

  /**
   One decision for a request from `addr` at instant `now`: reject while locked
   out; otherwise reject, reset the counter and lock out for one period once
   the limit is reached; otherwise count the request and let it through.
   Whatever happens, no other address's entries change and no entry is removed.
   */
  function Step(s: State, addr: string, now: Instant): (d: Decision)
    ensures d.next.count - {addr} == s.count - {addr}
    ensures d.next.nextTry - {addr} == s.nextTry - {addr}
    ensures s.count.Keys <= d.next.count.Keys && s.nextTry.Keys <= d.next.nextTry.Keys
  {
    if LockedOut(s, addr, now) then
      Decision(Reject, s)
    else if CountOf(s, addr) >= RemoteAddrReqLimit then
      Decision(Reject, State(s.count[addr := 0], s.nextTry[addr := now + RemoteAddrReqPeriod]))
    else
      Decision(Allow, s.(count := s.count[addr := Inc(CountOf(s, addr))]))
  }

  /** Every counter is within the limit. */
  ghost predicate Bounded(s: State)
  {
    forall a :: a in s.count ==> s.count[a] <= RemoteAddrReqLimit
  }

  // ---------------------------------------------------------------------------
  // The three branches of a decision

  /** A locked-out address is rejected and neither of its entries changes. */
  lemma LockedOutRejects(s: State, addr: string, now: Instant)
    requires now < NextTryOf(s, addr)
    ensures LockedOut(s, addr, now)
    ensures Step(s, addr, now) == Decision(Reject, s)
  {
  }

  /** Lockout is strict: at the next-try instant itself the address is no longer locked out. */
  lemma LockedOutIsStrict(s: State, addr: string, now: Instant)
    ensures LockedOut(s, addr, now) <==> now < NextTryOf(s, addr)
    ensures now == NextTryOf(s, addr) ==>
      Step(s, addr, now).outcome == (if CountOf(s, addr) >= RemoteAddrReqLimit then Reject else Allow)
  {
  }

  /** An address never seen before is not locked out; its first request is allowed and counted once. */
  lemma FirstRequestAllowed(s: State, addr: string, now: Instant)
    requires addr !in s.count && addr !in s.nextTry
    ensures !LockedOut(s, addr, now)
    ensures Step(s, addr, now) == Decision(Allow, State(s.count[addr := 1], s.nextTry))
  {
  }

  /**
   Reaching the limit while not locked out is penalised: rejected, counter reset
   to 0, and locked out until one period after `now`, strictly later than `now`.
   */
  lemma LimitReachedPenalises(s: State, addr: string, now: Instant)
    requires NextTryOf(s, addr) <= now && CountOf(s, addr) >= RemoteAddrReqLimit
    ensures Step(s, addr, now).outcome == Reject
    ensures CountOf(Step(s, addr, now).next, addr) == 0
    ensures NextTryOf(Step(s, addr, now).next, addr) == now + RemoteAddrReqPeriod > now
    ensures LockedOut(Step(s, addr, now).next, addr, now)
  {
  }

  /**
   Below the limit and not locked out: allowed, the counter grows by exactly one
   (the `uint64` never wraps, since it is below 20) and next-try is untouched.
   */
  lemma BelowLimitAllows(s: State, addr: string, now: Instant)
    requires NextTryOf(s, addr) <= now && CountOf(s, addr) < RemoteAddrReqLimit
    ensures Step(s, addr, now).outcome == Allow
    ensures CountOf(Step(s, addr, now).next, addr) as int == CountOf(s, addr) as int + 1
    ensures Step(s, addr, now).next.nextTry == s.nextTry
  {
  }

  /** Both directions: a request is allowed exactly when it is neither locked out nor at the limit. */
  lemma AllowedIff(s: State, addr: string, now: Instant)
    ensures Step(s, addr, now).outcome == Allow
        <==> !LockedOut(s, addr, now) && CountOf(s, addr) < RemoteAddrReqLimit
  {
  }

  // ---------------------------------------------------------------------------
  // Invariants of a single decision

  /** Every counter stays within [0, 20] across a decision, so no `uint64` ever overflows. */
  lemma StepKeepsBounded(s: State, addr: string, now: Instant)
    requires Bounded(s)
    ensures Bounded(Step(s, addr, now).next)
  {
  }

  /**
   The decided address ends within the limit whenever it was not locked out,
   whatever its counter held before.
   */
  lemma DecidedAddressBounded(s: State, addr: string, now: Instant)
    requires !LockedOut(s, addr, now)
    ensures CountOf(Step(s, addr, now).next, addr) <= RemoteAddrReqLimit
  {
  }

  /**
   A next-try instant is never decreased, and a new one is set only by a
   decision at an instant it lies strictly after.
   */
  lemma NextTryNeverDecreases(s: State, addr: string, now: Instant, a: string)
    ensures NextTryOf(Step(s, addr, now).next, a) >= NextTryOf(s, a)
    ensures NextTryOf(Step(s, addr, now).next, a) != NextTryOf(s, a) ==>
      a == addr && NextTryOf(Step(s, addr, now).next, a) > now
  {
  }

  /** A decision for one address leaves every other address's counter and next-try as they were. */
  lemma OtherAddressesUnchanged(s: State, addr: string, now: Instant, other: string)
    requires other != addr
    ensures CountOf(Step(s, addr, now).next, other) == CountOf(s, other)
    ensures NextTryOf(Step(s, addr, now).next, other) == NextTryOf(s, other)
  {
  }
}
