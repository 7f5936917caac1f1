/** KeyframeLimiter (keyframe-limiter.hpp), over any run of requests. */
module KeyframeLimiter {

  const NEVER := -0x4000_0000_0000_0000 // half the smallest 64-bit integer
  const JOIN_MS := 500
  const RECOVERY_MS := 2000

  datatype Kind = Join | Recovery

  datatype Request = Request(kind: Kind, now: int)

  /** The times of the last accepted request of each kind. */
  datatype Limits = Limits(lastJoin: int, lastRecovery: int)

  const FRESH := Limits(NEVER, NEVER)

  function Interval(kind: Kind): int {
    if kind == Join then JOIN_MS else RECOVERY_MS
  }

  function Last(l: Limits, kind: Kind): int {
    if kind == Join then l.lastJoin else l.lastRecovery
  }

  predicate Accepts(l: Limits, r: Request) {
    r.now - Last(l, r.kind) >= Interval(r.kind)
  }

  function Take(l: Limits, r: Request): Limits {
    if !Accepts(l, r) then l
    else if r.kind == Join then l.(lastJoin := r.now)
    else l.(lastRecovery := r.now)
  }

  function Run(requests: seq<Request>): Limits {
    if requests == [] then FRESH else Take(Run(requests[..|requests| - 1]), requests[|requests| - 1])
  }

  /** Was request number n let through? */
  predicate Accepted(requests: seq<Request>, n: nat)
    requires n < |requests|
  {
    Accepts(Run(requests[..n]), requests[n])
  }

  /** How many requests of a kind were let through with times from `from` to `to`. */
  function AcceptedBetween(requests: seq<Request>, kind: Kind, from: int, to: int): nat {
    if requests == [] then 0
    else
      var n := |requests| - 1;
      AcceptedBetween(requests[..n], kind, from, to)
      + if requests[n].kind == kind && from <= requests[n].now <= to && Accepted(requests, n) then 1 else 0
  }

  predicate WellTimed(requests: seq<Request>) {
    forall i, j :: 0 <= i < j < |requests| ==> requests[i].now <= requests[j].now
  }

  /** The last time is that of the latest request that was accepted, if there was one. */
  lemma {:induction false} LastIsAccepted(requests: seq<Request>, kind: Kind)
    ensures Last(Run(requests), kind) == NEVER
         || exists n :: 0 <= n < |requests| && requests[n].kind == kind && requests[n].now == Last(Run(requests), kind)
                        && Accepted(requests, n)
  {
    if requests != [] {
      var last := |requests| - 1;
      LastIsAccepted(requests[..last], kind);
      if requests[last].kind == kind && Accepted(requests, last) {
        assert requests[last].now == Last(Run(requests), kind);
      } else if Last(Run(requests), kind) != NEVER {
        var n :| 0 <= n < last && requests[..last][n].kind == kind
                 && requests[..last][n].now == Last(Run(requests[..last]), kind) && Accepted(requests[..last], n);
        assert requests[..last][..n] == requests[..n];
        assert Accepted(requests, n);
      }
    }
  }

  lemma {:induction false} Spaced(requests: seq<Request>, kind: Kind, from: int, to: int)
    requires from <= to
    ensures var n, last := AcceptedBetween(requests, kind, from, to), Last(Run(requests), kind);
      && (last < from ==> n == 0)
      && (last >= from ==> n <= (last - from) / Interval(kind) + 1)
      && n <= (to - from) / Interval(kind) + 1
  {
    if requests != [] {
      var last := |requests| - 1;
      Spaced(requests[..last], kind, from, to);
      assert requests[..|requests| - 1] == requests[..last];
    }
  }

  /** In any L milliseconds at most L / 500 + 1 joins and L / 2000 + 1 recoveries are let through. */
  lemma AtMostOnePerInterval(requests: seq<Request>, kind: Kind, from: int, length: nat)
    ensures AcceptedBetween(requests, kind, from, from + length) <= length / (if kind == Join then 500 else 2000) + 1
  {
    Spaced(requests, kind, from, from + length);
  }

  /** A request is refused only less than the interval after one of its kind that was accepted. */
  lemma RefusedSoonAfter(requests: seq<Request>, n: nat)
    requires n < |requests| && WellTimed(requests) && requests[n].now >= 0 && !Accepted(requests, n)
    ensures exists m :: 0 <= m < n && requests[m].kind == requests[n].kind && Accepted(requests, m)
                        && requests[m].now <= requests[n].now < requests[m].now + (if requests[n].kind == Join then 500 else 2000)
  {
    LastIsAccepted(requests[..n], requests[n].kind);
    var m :| 0 <= m < n && requests[..n][m].kind == requests[n].kind && Accepted(requests[..n], m)
             && requests[..n][m].now == Last(Run(requests[..n]), requests[n].kind);
    assert requests[..n][..m] == requests[..m];
  }

  /** The subtraction stays within 64 bits for all times below 2^62 milliseconds. */
  lemma {:induction false} NoOverflow(requests: seq<Request>, kind: Kind, now: int)
    requires forall i :: 0 <= i < |requests| ==> 0 <= requests[i].now < 0x4000_0000_0000_0000
    requires 0 <= now < 0x4000_0000_0000_0000
    ensures -0x8000_0000_0000_0000 <= now - Last(Run(requests), kind) < 0x8000_0000_0000_0000
  {
    LastIsAccepted(requests, kind);
  }

  class Limiter {
    var lastJoin: int
    var lastRecovery: int

    function State(): Limits
      reads this
    {
      Limits(lastJoin, lastRecovery)
    }

    constructor ()
      ensures State() == FRESH
    {
      lastJoin, lastRecovery := NEVER, NEVER;
    }

    method JoinFrame(now: int) returns (accepted: bool)
      modifies this`lastJoin
      ensures accepted <==> Accepts(old(State()), Request(Join, now))
      ensures State() == Take(old(State()), Request(Join, now))
    {
      if now - lastJoin < JOIN_MS {
        return false;
      }
      lastJoin := now;
      return true;
    }

    method RecoveryFrame(now: int) returns (accepted: bool)
      modifies this`lastRecovery
      ensures accepted <==> Accepts(old(State()), Request(Recovery, now))
      ensures State() == Take(old(State()), Request(Recovery, now))
    {
      if now - lastRecovery < RECOVERY_MS {
        return false;
      }
      lastRecovery := now;
      return true;
    }
  }
}
