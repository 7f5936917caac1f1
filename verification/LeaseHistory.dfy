/** Where the right to post input comes from, over whole runs of the worker. */
module LeaseHistory {
  import opened Bytes
  import opened Permission
  import opened Worker
  import opened WorkerSteps
  import S = BrokerSafety

  /** The events that take the lease from a peer: the owner's withdrawal, and the peer's removal or failure. */
  predicate Withdraws(w: State, e: Event, id: Id) {
    && !w.stopped
    && match e
       case PermitEvent(peer, allow, leaseMs, _, _) => peer == id && !allow && ValidPermit(id, leaseMs)
       case Remove(peer) =>
         && peer == id && 1 <= |id| <= 64 && !Waiting(w.waiting, id)
         && id in w.peers && !w.peers[id].removing
       case Net(message) => w.started && message == NetFailed(id) && id in w.peers && !w.peers[id].removing
       case _ => false
  }

  /** The grant is one that the worker accepts: of a viewer of a video source, at a time that can be added to. */
  predicate Takes(w: State, e: Event) {
    && !w.stopped && Grants(e) && w.videoEnabled && e.id in w.peers && !w.peers[e.id].removing
    && 0 <= e.t0 / 1000 <= INT64_MAX - e.leaseMs.Floor
  }

  /**
   Event g is the server's latest grant before event n, it named this peer, and since then the
   server has not withdrawn it and the peer was neither removed nor failed.
   */
  ghost predicate InForce(events: seq<Event>, ok: Oracle, g: nat, n: nat, id: Id) {
    && g < n <= |events| && Takes(Run(events[..g], ok), events[g]) && events[g].id == id
    && forall j :: g < j < n ==> KeepsLease(Run(events[..j], ok), events[j], id)
  }

  predicate KeepsLease(w: State, e: Event, id: Id) {
    !Withdraws(w, e, id) && (w.stopped || !Grants(e))
  }

  /** The time, in ms, at which the lease of a grant ends. */
  function EndOf(grant: Event): int
    requires grant.PermitEvent?
  {
    grant.t0 / 1000 + grant.leaseMs.Floor
  }

  lemma RunPrefix(events: seq<Event>, ok: Oracle, n: nat)
    requires n < |events|
    ensures Run(events[..n + 1], ok) == Apply(Run(events[..n], ok), events[n], ok)
  {
    hide Apply;
    assert events[..n + 1][..n] == events[..n];
  }

  /** What an event that grants nothing does to the lease. */
  lemma LeaseAfter(w: State, e: Event, ok: Oracle)
    requires !Grants(e) && w.permission.owner != ""
    ensures Apply(w, e, ok).permission == if Withdraws(w, e, w.permission.owner) then NOBODY else w.permission
  {
    hide Apply, Performs, Withdraws;
    if Adds(e) {
      AddsGrow(w, e, ok);
      AddsWithdrawNothing(w, e, w.permission.owner);
    } else if e.PermitEvent? {
      WithdrawalAfter(w, e, ok);
    } else if e.Remove? {
      RemovalAfter(w, e, ok);
    } else if e.Net? {
      NetAfter(w, e, ok);
    } else {
      OtherAfter(w, e, ok);
    }
  }

  lemma AddsWithdrawNothing(w: State, e: Event, id: Id)
    requires Adds(e)
    ensures !Withdraws(w, e, id)
  {
  }

  lemma WithdrawalAfter(w: State, e: Event, ok: Oracle)
    requires !Grants(e) && e.PermitEvent? && w.permission.owner != ""
    ensures Apply(w, e, ok).permission == if Withdraws(w, e, w.permission.owner) then NOBODY else w.permission
  {
    hide RevokePeer, Enforce, ReleaseHeld;
    QuietEnforce(Leased(w, e.id, e.allow, e.t0 / 1000, e.leaseMs.Floor, ok), e.t1, ok);
  }

  lemma RemovalAfter(w: State, e: Event, ok: Oracle)
    requires e.Remove? && w.permission.owner != ""
    ensures Apply(w, e, ok).permission == if Withdraws(w, e, w.permission.owner) then NOBODY else w.permission
  {
    hide BeginRemoval, Waiting, Without;
  }

  lemma NetAfter(w: State, e: Event, ok: Oracle)
    requires e.Net? && e.message != NetReady && w.permission.owner != ""
    ensures Apply(w, e, ok).permission == if Withdraws(w, e, w.permission.owner) then NOBODY else w.permission
  {
    hide RevokePeer, FailPeer, ClosePeer, ReleaseHeld;
  }

  lemma OtherAfter(w: State, e: Event, ok: Oracle)
    requires !e.PermitEvent? && !e.Remove? && !e.Net? && !e.Add?
    ensures Apply(w, e, ok).permission == w.permission
    ensures !Withdraws(w, e, w.permission.owner)
  {
    hide RevokePeer, PostInput, Enforce, ReleaseHeld;
    if e.Tick? {
      QuietEnforce(w, e.t0, ok);
    }
  }

  lemma GrantedOwner(w: State, e: Event, ok: Oracle)
    requires !w.stopped && Grants(e)
    ensures var p := Apply(w, e, ok).permission;
      && (p.owner != "" <==> Takes(w, e)) && (Takes(w, e) ==> p.owner == e.id && p.expires == EndOf(e))
  {
    hide Apply;
    GrantEffect(w, e, ok);
  }

  /** One more event: a grant in force stays so exactly if the event keeps it. */
  lemma InForceNext(events: seq<Event>, ok: Oracle, g: nat, n: nat, id: Id)
    requires n < |events|
    ensures InForce(events, ok, g, n + 1, id) <==>
              (g < n && InForce(events, ok, g, n, id) && KeepsLease(Run(events[..n], ok), events[n], id))
              || (g == n && Takes(Run(events[..n], ok), events[n]) && events[n].id == id)
  {
    hide Run, Takes, KeepsLease;
  }

  ghost predicate Granted(events: seq<Event>, ok: Oracle, n: nat, id: Id) {
    exists g: nat :: InForce(events, ok, g, n, id)
  }

  /**
   After any events, the lease belongs to a peer if and only if the server's latest grant named it
   and has not been withdrawn; then it ends when that grant said.
   */
  lemma {:induction false} OwnerIffGranted(events: seq<Event>, ok: Oracle, n: nat, id: Id)
    requires n <= |events| && id != ""
    ensures Run(events[..n], ok).permission.owner == id <==> Granted(events, ok, n, id)
    ensures forall g: nat :: InForce(events, ok, g, n, id) ==> Run(events[..n], ok).permission.expires == EndOf(events[g])
    decreases n
  {
    hide Apply, Run, KeepsLease;
    if n == 0 {
      assert Run(events[..0], ok) == INITIAL by { RunNothing(ok); assert events[..0] == []; }
    } else {
      var w, e := Run(events[..n - 1], ok), events[n - 1];
      RunPrefix(events, ok, n - 1);
      OwnerIffGranted(events, ok, n - 1, id);
      OwnerStep(w, e, ok, id);
      forall g: nat | InForce(events, ok, g, n, id) ensures Run(events[..n], ok).permission.expires == EndOf(events[g]) {
        InForceNext(events, ok, g, n - 1, id);
        if g < n - 1 {
          assert Granted(events, ok, n - 1, id);
        }
      }
      GrantedNext(events, ok, n - 1, id);
    }
  }

  lemma OwnerStep(w: State, e: Event, ok: Oracle, id: Id)
    requires id != ""
    ensures var p := Apply(w, e, ok).permission;
      && (p.owner == id <==> (w.permission.owner == id && KeepsLease(w, e, id)) || (Takes(w, e) && e.id == id))
      && (Takes(w, e) ==> p.expires == EndOf(e) && !KeepsLease(w, e, id))
      && (KeepsLease(w, e, id) && w.permission.owner == id ==> p.expires == w.permission.expires)
  {
    hide Apply, Withdraws;
    if w.stopped {
      StoppedStays(w, e, ok);
      NothingWithdrawn(w, e, id);
    } else if Grants(e) {
      GrantedOwner(w, e, ok);
    } else if w.permission.owner != "" {
      LeaseAfter(w, e, ok);
    } else {
      LeaseKept(w, e, ok);
    }
  }

  lemma NothingWithdrawn(w: State, e: Event, id: Id)
    requires w.stopped
    ensures !Withdraws(w, e, id)
  {
  }

  lemma GrantedNext(events: seq<Event>, ok: Oracle, n: nat, id: Id)
    requires n < |events|
    ensures var w, e := Run(events[..n], ok), events[n];
      Granted(events, ok, n + 1, id) <==> (Granted(events, ok, n, id) && KeepsLease(w, e, id)) || (Takes(w, e) && e.id == id)
  {
    hide InForce, Run, Takes, KeepsLease;
    var w, e := Run(events[..n], ok), events[n];
    if Granted(events, ok, n, id) {
      var g: nat :| InForce(events, ok, g, n, id);
      InForceNext(events, ok, g, n, id);
      InForceMeans(events, ok, g, n, id);
    }
    if Granted(events, ok, n + 1, id) {
      var g: nat :| InForce(events, ok, g, n + 1, id);
      InForceNext(events, ok, g, n, id);
    }
    InForceNext(events, ok, n, n, id);
  }

  lemma InForceMeans(events: seq<Event>, ok: Oracle, g: nat, n: nat, id: Id)
    requires InForce(events, ok, g, n, id)
    ensures g < n <= |events| && events[g].PermitEvent? && events[g].id == id && ValidPermit(id, events[g].leaseMs)
  {
  }

  /** Control is allowed at a time exactly while a grant is in force and has not run out. */
  lemma AllowedIffGranted(events: seq<Event>, ok: Oracle, n: nat, id: Id, t: nat)
    requires n <= |events| && id != ""
    ensures Allowed(Run(events[..n], ok).permission, id, t) <==>
              exists g: nat :: InForce(events, ok, g, n, id) && t < EndOf(events[g])
  {
    hide Run, Takes, KeepsLease;
    OwnerIffGranted(events, ok, n, id);
  }

  lemma WithdrawnNotInForce(events: seq<Event>, ok: Oracle, j: nat, n: nat, id: Id, g: nat)
    requires j < n <= |events| && Withdraws(Run(events[..j], ok), events[j], id)
    requires forall k :: j < k < n ==> !(Grants(events[k]) && events[k].id == id)
    ensures !InForce(events, ok, g, n, id)
  {
    hide Run;
    assert !KeepsLease(Run(events[..j], ok), events[j], id);
  }

  /** After a withdrawal the peer has neither the lease nor control, until a later grant names it. */
  lemma WithdrawnIsPowerless(events: seq<Event>, ok: Oracle, j: nat, n: nat, id: Id)
    requires j < n <= |events| && id != "" && Withdraws(Run(events[..j], ok), events[j], id)
    requires forall k :: j < k < n ==> !(Grants(events[k]) && events[k].id == id)
    ensures var w := Run(events[..n], ok);
      w.permission.owner != id && (id in w.peers ==> !w.peers[id].control)
  {
    hide Run;
    OwnerIffGranted(events, ok, n, id);
    forall g: nat ensures !InForce(events, ok, g, n, id) {
      WithdrawnNotInForce(events, ok, j, n, id, g);
    }
    if id in Run(events[..n], ok).peers && Run(events[..n], ok).peers[id].control {
      S.AtMostOneController(events[..n], ok, id, id);
    }
  }

  lemma RunNothing(ok: Oracle)
    ensures Run([], ok) == INITIAL
  {
  }

  lemma StoppedStays(w: State, e: Event, ok: Oracle)
    ensures w.stopped ==> Apply(w, e, ok).stopped && Apply(w, e, ok).permission == w.permission
  {
  }

  /** No event but a grant from the server can give or extend a lease. */
  lemma LeaseKept(w: State, e: Event, ok: Oracle)
    requires !Grants(e)
    ensures Apply(w, e, ok).permission == w.permission || Apply(w, e, ok).permission == NOBODY
  {
    hide Apply, Performs;
    if Adds(e) {
      AddsGrow(w, e, ok);
    } else if Performs(w, e) {
      PerformEffect(w, e, ok);
    } else {
      OthersAreQuiet(w, e, ok);
    }
  }

  // ---- Time

  lemma TimesOrdered(events: seq<Event>, i: nat, j: nat)
    requires WellTimed(events) && i <= j < |events| && Times(events[i]) != [] && Times(events[j]) != []
    ensures 0 <= Times(events[i])[0] && (i < j ==> Times(events[i])[0] <= Times(events[j])[0])
  {
    hide AllTimes, Times;
    var all := [0] + AllTimes(events);
    var a := AllTimesSplit(events, i);
    var b := AllTimesSplit(events, j);
    assert AllTimes(events)[a] == Times(events[i])[0] && all[a + 1] == AllTimes(events)[a];
    assert AllTimes(events)[b] == Times(events[j])[0] && all[b + 1] == AllTimes(events)[b];
    if i < j {
      AllTimesGrow(events, i, j);
      assert a < b;
      assert all[a + 1] <= all[b + 1];
    }
    assert all[0] <= all[a + 1];
  }

  /** The readings of event i start in all readings after those of the events before it. */
  lemma {:induction false} AllTimesSplit(events: seq<Event>, i: nat) returns (at: nat)
    requires i < |events|
    ensures at == |AllTimes(events[..i])| && at + |Times(events[i])| <= |AllTimes(events)|
    ensures forall k :: 0 <= k < |Times(events[i])| ==> AllTimes(events)[at + k] == Times(events[i])[k]
    decreases |events|
  {
    hide Times;
    var last := |events| - 1;
    at := |AllTimes(events[..i])|;
    if i < last {
      at := AllTimesSplit(events[..last], i);
      assert events[..last][..i] == events[..i];
    }
  }

  lemma {:induction false} AllTimesGrow(events: seq<Event>, i: nat, j: nat)
    requires i < j <= |events|
    ensures |AllTimes(events[..i])| + |Times(events[i])| <= |AllTimes(events[..j])|
    decreases j
  {
    assert events[..j][..j - 1] == events[..j - 1];
    if i < j - 1 {
      AllTimesGrow(events, i, j - 1);
    }
  }

  // ---- The result

  /**
   Every post made for a viewer, at any step of any run: the event is that viewer's own message,
   and when its lease was checked the server's latest grant had named that viewer, had not been
   withdrawn, by removal or failure either, and had not run out; no lease lasts longer than five
   seconds.
   */
  lemma PostsAreLeased(events: seq<Event>, ok: Oracle, n: nat, k: nat)
    requires WellTimed(events) && n < |events|
    requires |Run(events[..n], ok).posts| <= k < |Run(events[..n + 1], ok).posts|
    requires Run(events[..n + 1], ok).posts[k].origin.Viewer?
    ensures var post, e := Run(events[..n + 1], ok).posts[k], events[n];
      && e.InputEvent? && e.text == Act(Some(post.input))
      && post.origin.id == e.id && post.origin.checked == e.t0 && post.origin.time == e.t1
      && exists g: nat :: && InForce(events, ok, g, n, e.id)
                     && events[g].t0 / 1000 <= e.t0 / 1000 < EndOf(events[g]) <= events[g].t0 / 1000 + MAX_LEASE_MS
  {
    hide Apply, Run;
    var w, e := Run(events[..n], ok), events[n];
    RunPrefix(events, ok, n);
    if Adds(e) {
      AddsGrow(w, e, ok);
    } else if Grants(e) {
      if w.stopped {
        StoppedPosts(w, e, ok);
      } else {
        GrantEffect(w, e, ok);
      }
    } else if !Performs(w, e) {
      OthersAreQuiet(w, e, ok);
    } else {
      PerformEffect(w, e, ok);
      OwnerIffGranted(events, ok, n, e.id);
      var g: nat :| InForce(events, ok, g, n, e.id);
      TimesOrdered(events, g, n);
    }
  }

  lemma StoppedPosts(w: State, e: Event, ok: Oracle)
    requires w.stopped
    ensures OnlyLifts(w.posts, Apply(w, e, ok).posts)
  {
    QuietRelease(w, ok);
  }
}
