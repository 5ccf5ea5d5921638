/**
 Sequences of decisions: what the limiter answers to a series of requests,
 each decided atomically after the previous one, and the properties that hold
 across the whole series.
 */
module Runs {
  import opened RateLimit

  /** A request from `addr` decided at instant `at`. */
  datatype Arrival = Arrival(addr: string, at: Instant)

  datatype Trace = Trace(outcomes: seq<Outcome>, final: State)

  /** The outcomes of deciding `xs` one after another from state `s`, and the state they leave. */
  function Run(s: State, xs: seq<Arrival>): (r: Trace)
    ensures |r.outcomes| == |xs|
    decreases |xs|
  {
    if xs == [] then Trace([], s)
    else
      var d := Step(s, xs[0].addr, xs[0].at);
      var rest := Run(d.next, xs[1..]);
      Trace([d.outcome] + rest.outcomes, rest.final)
  }

  /** Requests from one address at the instants `ts`, in order. */
  function Visits(addr: string, ts: seq<Instant>): (r: seq<Arrival>)
    ensures |r| == |ts|
    ensures forall i :: 0 <= i < |ts| ==> r[i] == Arrival(addr, ts[i])
  {
    if ts == [] then [] else [Arrival(addr, ts[0])] + Visits(addr, ts[1..])
  }

  /** `n` copies of `x`: `n` simultaneous instants, or `n` equal outcomes. */
  function Copies<T>(x: T, n: nat): (r: seq<T>)
    ensures |r| == n && forall i :: 0 <= i < n ==> r[i] == x
  {
    seq(n, _ => x)
  }

  /** Deciding `a + b` is deciding `a`, then deciding `b` from where `a` left off. */
  lemma {:induction false} RunAppend(s: State, a: seq<Arrival>, b: seq<Arrival>)
    ensures Run(s, a + b).outcomes == Run(s, a).outcomes + Run(Run(s, a).final, b).outcomes
    ensures Run(s, a + b).final == Run(Run(s, a).final, b).final
    decreases |a|
  {
    if a == [] {
      assert a + b == b;
    } else {
      assert (a + b)[0] == a[0];
      assert (a + b)[1..] == a[1..] + b;
      RunAppend(Step(s, a[0].addr, a[0].at).next, a[1..], b);
    }
  }

  /**
   While every instant is before the stored next-try, every request is rejected
   and the state does not change at all.
   */
  lemma {:induction false} RejectedWhileLockedOut(s: State, addr: string, ts: seq<Instant>)
    requires forall i :: 0 <= i < |ts| ==> ts[i] < NextTryOf(s, addr)
    ensures Run(s, Visits(addr, ts)) == Trace(Copies(Reject, |ts|), s)
    decreases |ts|
  {
    if ts != [] {
      var xs := Visits(addr, ts);
      assert xs[1..] == Visits(addr, ts[1..]);
      LockedOutRejects(s, addr, ts[0]);
      RejectedWhileLockedOut(s, addr, ts[1..]);
      assert Copies(Reject, |ts|) == [Reject] + Copies(Reject, |ts| - 1);
    }
  }

  /**
   From a state where `addr` is not locked out at any of the instants `ts`, and
   has room for all of them under the limit, every request is allowed, the
   counter grows by exactly `|ts|`, no next-try changes, and no other address's
   counter changes.
   */
  lemma {:induction false} AllowedBurst(s: State, addr: string, ts: seq<Instant>)
    requires forall i :: 0 <= i < |ts| ==> NextTryOf(s, addr) <= ts[i]
    requires CountOf(s, addr) as int + |ts| <= RemoteAddrReqLimit as int
    ensures Run(s, Visits(addr, ts)).outcomes == Copies(Allow, |ts|)
    ensures CountOf(Run(s, Visits(addr, ts)).final, addr) as int == CountOf(s, addr) as int + |ts|
    ensures Run(s, Visits(addr, ts)).final.nextTry == s.nextTry
    ensures Run(s, Visits(addr, ts)).final.count - {addr} == s.count - {addr}
    decreases |ts|
  {
    if ts != [] {
      var xs := Visits(addr, ts);
      assert xs[1..] == Visits(addr, ts[1..]);
      BelowLimitAllows(s, addr, ts[0]);
      var s1 := Step(s, addr, ts[0]).next;
      assert NextTryOf(s1, addr) == NextTryOf(s, addr);
      AllowedBurst(s1, addr, ts[1..]);
      assert Copies(Allow, |ts|) == [Allow] + Copies(Allow, |ts| - 1);
    }
  }

  /**
   `n` simultaneous requests from an address with a zero counter that is not
   locked out: exactly the first 20 are allowed and every later one is
   rejected. Past the limit the counter ends at 0 and the address is locked out
   until one period after `now`.
   */
  lemma FloodAllowsExactlyLimit(s: State, addr: string, now: Instant, n: nat)
    requires NextTryOf(s, addr) <= now && CountOf(s, addr) == 0
    ensures Run(s, Visits(addr, Copies(now, n))).outcomes
      == if n <= 20 then Copies(Allow, n) else Copies(Allow, 20) + Copies(Reject, n - 20)
    ensures n > 20 ==>
      && CountOf(Run(s, Visits(addr, Copies(now, n))).final, addr) == 0
      && NextTryOf(Run(s, Visits(addr, Copies(now, n))).final, addr) == now + RemoteAddrReqPeriod
  {
    if n <= 20 {
      AllowedBurst(s, addr, Copies(now, n));
    } else {
      var first, penalised, rest := Copies(now, 20), Copies(now, 1), Copies(now, n - 21);
      assert Copies(now, n) == first + penalised + rest;
      VisitsAppend(addr, first + penalised, rest);
      VisitsAppend(addr, first, penalised);
      var a, b, c := Visits(addr, first), Visits(addr, penalised), Visits(addr, rest);
      RunAppend(s, a + b, c);
      RunAppend(s, a, b);
      AllowedBurst(s, addr, first);
      var s20 := Run(s, a).final;
      LimitReachedPenalises(s20, addr, now);
      var s21 := Run(s20, b).final;
      assert s21 == Step(s20, addr, now).next;
      RejectedWhileLockedOut(s21, addr, rest);
      assert Copies(Allow, 20) + [Reject] + Copies(Reject, n - 21) == Copies(Allow, 20) + Copies(Reject, n - 20);
    }
  }

  lemma VisitsAppend(addr: string, a: seq<Instant>, b: seq<Instant>)
    ensures Visits(addr, a + b) == Visits(addr, a) + Visits(addr, b)
  {
  }

  /**
   The lockout cycle of a fresh address: 20 requests at `now` are allowed, the
   21st (at `penalisedAt`) is rejected and resets the counter to 0, every
   request before `penalisedAt + 10s` is rejected with the counter left at 0,
   and the first one at or after it is allowed with the counter back at 1.
   */
  lemma LockoutCycle(s: State, addr: string, now: Instant, penalisedAt: Instant,
                     waits: seq<Instant>, resume: Instant)
    requires addr !in s.count && addr !in s.nextTry
    requires forall i :: 0 <= i < |waits| ==> waits[i] < penalisedAt + RemoteAddrReqPeriod
    requires resume >= penalisedAt + RemoteAddrReqPeriod
    ensures CountOf(Run(s, Visits(addr, Copies(now, 20) + [penalisedAt])).final, addr) == 0
    ensures CountOf(Run(s, Visits(addr, Copies(now, 20) + [penalisedAt] + waits)).final, addr) == 0
    ensures Run(s, Visits(addr, Copies(now, 20) + [penalisedAt] + waits + [resume])).outcomes
      == Copies(Allow, 20) + Copies(Reject, 1 + |waits|) + [Allow]
    ensures CountOf(Run(s, Visits(addr, Copies(now, 20) + [penalisedAt] + waits + [resume])).final, addr) == 1
    ensures NextTryOf(Run(s, Visits(addr, Copies(now, 20) + [penalisedAt] + waits + [resume])).final, addr)
      == penalisedAt + RemoteAddrReqPeriod
  {
    var burst, p, w, r := Copies(now, 20), [penalisedAt], waits, [resume];
    VisitsAppend(addr, burst + p + w, r);
    VisitsAppend(addr, burst + p, w);
    VisitsAppend(addr, burst, p);
    var a, b, c, d := Visits(addr, burst), Visits(addr, p), Visits(addr, w), Visits(addr, r);
    RunAppend(s, a + b + c, d);
    RunAppend(s, a + b, c);
    RunAppend(s, a, b);
    AllowedBurst(s, addr, burst);
    var s20 := Run(s, a).final;
    LimitReachedPenalises(s20, addr, penalisedAt);
    var s21 := Run(s20, b).final;
    assert s21 == Step(s20, addr, penalisedAt).next;
    RejectedWhileLockedOut(s21, addr, w);
    BelowLimitAllows(s21, addr, resume);
    assert Run(s21, d).outcomes == [Allow];
    assert [Reject] + Copies(Reject, |waits|) == Copies(Reject, 1 + |waits|);
  }

  /**
   The worked example: 20 requests at t = 0 are allowed; the 21st at 1 s is
   rejected and locks the address out until 11 s; a request at 5 s is
   rejected; a request at 12 s is allowed with the counter at 1.
   */
  lemma WorkedExample()
    ensures Run(Empty, Visits("A", Copies<Instant>(0, 20) + [1 * Second] + [5 * Second] + [12 * Second])).outcomes
      == Copies(Allow, 20) + [Reject, Reject, Allow]
    ensures CountOf(Run(Empty, Visits("A", Copies<Instant>(0, 20) + [1 * Second] + [5 * Second] + [12 * Second])).final, "A") == 1
    ensures NextTryOf(Run(Empty, Visits("A", Copies<Instant>(0, 20) + [1 * Second] + [5 * Second] + [12 * Second])).final, "A")
      == 11 * Second
  {
    LockoutCycle(Empty, "A", 0, 1 * Second, [5 * Second], 12 * Second);
    assert Copies(Reject, 2) == [Reject, Reject];
  }

  // ---------------------------------------------------------------------------
  // Invariants across any series of requests

  /** Every counter stays within [0, 20] after any series of decisions. */
  lemma {:induction false} RunKeepsBounded(s: State, xs: seq<Arrival>)
    requires Bounded(s)
    ensures Bounded(Run(s, xs).final)
    decreases |xs|
  {
    if xs != [] {
      StepKeepsBounded(s, xs[0].addr, xs[0].at);
      RunKeepsBounded(Step(s, xs[0].addr, xs[0].at).next, xs[1..]);
    }
  }

  /** No next-try instant ever moves backwards, whatever the requests. */
  lemma {:induction false} RunNextTryNeverDecreases(s: State, xs: seq<Arrival>, a: string)
    ensures NextTryOf(Run(s, xs).final, a) >= NextTryOf(s, a)
    decreases |xs|
  {
    if xs != [] {
      NextTryNeverDecreases(s, xs[0].addr, xs[0].at, a);
      RunNextTryNeverDecreases(Step(s, xs[0].addr, xs[0].at).next, xs[1..], a);
    }
  }

  /** Requests from other addresses never touch `a`'s counter or next-try. */
  lemma {:induction false} RunLeavesOthersAlone(s: State, xs: seq<Arrival>, a: string)
    requires forall i :: 0 <= i < |xs| ==> xs[i].addr != a
    ensures CountOf(Run(s, xs).final, a) == CountOf(s, a)
    ensures NextTryOf(Run(s, xs).final, a) == NextTryOf(s, a)
    decreases |xs|
  {
    if xs != [] {
      OtherAddressesUnchanged(s, xs[0].addr, xs[0].at, a);
      RunLeavesOthersAlone(Step(s, xs[0].addr, xs[0].at).next, xs[1..], a);
    }
  }
}
