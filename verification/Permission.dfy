/** The owner's timed lease: host-input-permission.hpp and peer-permission.hpp. */
module Permission {

  const MAX_LEASE_MS := 5000
  const INT64_MAX := 0x7fff_ffff_ffff_ffff

  type Id = string

  /** The peer that may have control ("" for none) and the time, in ms, its lease ends. */
  datatype Permission = Permission(expires: int, owner: Id)

  const NOBODY := Permission(0, "")

  predicate LeaseAllowed(expires: int, now: int) {
    0 <= now < expires
  }

  /** When a lease granted now would end; 0, that is never valid, for a refused grant. */
  function LeaseEnd(now: int, duration: int): int {
    if now >= 0 && 0 < duration <= MAX_LEASE_MS && now <= INT64_MAX - duration then now + duration else 0
  }

  predicate Allowed(p: Permission, peer: Id, now: int) {
    p.owner != "" && peer == p.owner && LeaseAllowed(p.expires, now)
  }

  function Grant(peer: Id, known: bool, now: int, duration: int): Permission {
    var end := LeaseEnd(now, duration);
    if !known || peer == "" then NOBODY
    else Permission(end, if LeaseAllowed(end, now) then peer else "")
  }

  function Revoke(p: Permission, peer: Id): Permission {
    if peer != p.owner then p else NOBODY
  }

  /** A grant is good for its peer alone, from now until the lease ends, and at most 5 seconds. */
  lemma GrantIsBounded(peer: Id, known: bool, now: int, duration: int, other: Id, t: int)
    requires now <= t
    ensures Allowed(Grant(peer, known, now, duration), other, t) <==>
              && known && other == peer != "" && 0 <= now <= INT64_MAX - duration
              && 0 < duration <= 5000 && t < now + duration
  {
  }

  class HostInputPermission {
    var expires: int

    constructor ()
      ensures expires == 0
    {
      expires := 0;
    }

    predicate AllowedAt(now: int)
      reads this
    {
      now >= 0 && now < expires
    }

    method RevokeLease()
      modifies this
      ensures expires == 0
    {
      expires := 0;
    }

    method GrantLease(now: int, duration: int)
      modifies this
      ensures expires == LeaseEnd(now, duration)
    {
      RevokeLease();
      if now >= 0 && duration > 0 && duration <= 5000 && now <= INT64_MAX - duration {
        expires := now + duration;
      }
    }
  }

  class PeerPermission {
    const lease: HostInputPermission
    var owner: Id

    function State(): Permission
      reads this, lease
    {
      Permission(lease.expires, owner)
    }

    constructor ()
      ensures State() == NOBODY && fresh(lease)
    {
      lease := new HostInputPermission();
      owner := "";
    }

    method GrantPeer(peer: Id, known: bool, now: int, duration: int)
      modifies this, lease
      ensures State() == Grant(peer, known, now, duration)
    {
      lease.RevokeLease();
      owner := "";
      if !known || peer == "" {
        return;
      }
      lease.GrantLease(now, duration);
      if lease.AllowedAt(now) {
        owner := peer;
      }
    }

    method RevokePeer(peer: Id)
      modifies this, lease
      ensures State() == Revoke(old(State()), peer)
    {
      if peer != owner {
        return;
      }
      lease.RevokeLease();
      owner := "";
    }

    method AllowedPeer(peer: Id, now: int) returns (allowed: bool)
      ensures allowed <==> Allowed(State(), peer, now)
    {
      allowed := owner != "" && peer == owner && lease.AllowedAt(now);
    }
  }
}
