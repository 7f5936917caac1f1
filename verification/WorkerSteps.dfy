/** What one event can do to the posts, the lease and each viewer's rate window. */
module WorkerSteps {
  import opened Bytes
  import opened Permission
  import opened Worker

  /** All posts from a on lift something. */
  predicate OnlyLifts(a: seq<Post>, b: seq<Post>) {
    a <= b && forall k :: |a| <= k < |b| ==> b[k].origin == Lift
  }

  predicate SameRate(p: Peer, q: Peer) {
    p.serial == q.serial && p.rateWindow == q.rateWindow && p.rateCount == q.rateCount
  }

  /** No viewer is added, and no viewer's rate window moves. */
  predicate SameViewers(w: State, w': State) {
    w'.nextSerial == w.nextSerial
    && forall id :: id in w'.peers ==> id in w.peers && SameRate(w.peers[id], w'.peers[id])
  }

  /** Nothing is posted for a viewer, and the lease is at most revoked. */
  predicate Quiet(w: State, w': State) {
    OnlyLifts(w.posts, w'.posts) && SameViewers(w, w')
    && (w'.permission == w.permission || w'.permission == NOBODY)
  }

  lemma QuietTransitive(a: State, b: State, c: State)
    requires Quiet(a, b) && Quiet(b, c)
    ensures Quiet(a, c)
  {
    forall k | |a.posts| <= k < |c.posts| ensures c.posts[k].origin == Lift {
      if k < |b.posts| {
        assert c.posts[k] == b.posts[k];
      }
    }
  }

  lemma {:induction false} LiftsAreLifts(w: State, pending: set<int>, ok: Oracle)
    ensures OnlyLifts(w.posts, LiftKeys(w, pending, ok).posts)
    ensures OnlyLifts(w.posts, LiftButtons(w, pending, ok).posts)
    decreases |pending|
  {
    if pending != {} {
      var k := Least(pending);
      LiftsAreLifts(PostInput(w, Key(k, false), Lift, ok), pending - {k}, ok);
      LiftsAreLifts(PostInput(w, Button(k, false), Lift, ok), pending - {k}, ok);
    }
  }

  lemma QuietRelease(w: State, ok: Oracle)
    ensures Quiet(w, ReleaseHeld(w, ok))
  {
    var w1 := LiftKeys(w, w.keys, ok);
    LiftsAreLifts(w, w.keys, ok);
    LiftsAreLifts(w1, w.buttons, ok);
    QuietTransitive(w, w1, ReleaseHeld(w, ok));
  }

  lemma QuietRevoke(w: State, permission: Permission, id: Id, notify: bool, ok: Oracle)
    requires id in w.peers && (permission == w.permission || permission == NOBODY)
    ensures Quiet(w, RevokePeer(w.(permission := permission), id, notify, ok))
    ensures RevokePeer(w.(permission := permission), id, notify, ok).permission == permission
  {
    hide ReleaseHeld;
    QuietRelease(w.(permission := permission), ok);
  }

  lemma QuietRevokeOnly(w: State, id: Id, notify: bool, ok: Oracle)
    requires id in w.peers
    ensures Quiet(w, RevokePeer(w, id, notify, ok)) && RevokePeer(w, id, notify, ok).permission == w.permission
  {
    hide RevokePeer;
    assert w.(permission := w.permission) == w;
    QuietRevoke(w, w.permission, id, notify, ok);
  }

  lemma QuietEnforce(w: State, now: int, ok: Oracle)
    ensures Quiet(w, Enforce(w, now, ok)) && Enforce(w, now, ok).permission == w.permission
  {
    hide RevokePeer;
    forall id | MustRevoke(w, id, now) {
      QuietRevokeOnly(w, id, true, ok);
    }
  }

  lemma QuietRemove(w: State, id: Id, notify: bool, ok: Oracle)
    ensures Quiet(w, RemoveViewer(w, id, notify, ok))
  {
    hide BeginRemoval, Waiting, Without, Quiet;
    if !Waiting(w.waiting, id) && id in w.peers {
      var w1 := SetPeer(w, id, w.peers[id].(notifyClosed := w.peers[id].notifyClosed || notify));
      QuietNotice(w, id, w1.peers[id].notifyClosed);
      QuietBeginRemoval(w1, id, ok);
      QuietTransitive(w, w1, BeginRemoval(w1, id, ok));
    } else {
      QuietLike(w, w, RemoveViewer(w, id, notify, ok));
    }
  }

  lemma QuietNotice(w: State, id: Id, notify: bool)
    requires id in w.peers
    ensures Quiet(w, SetPeer(w, id, w.peers[id].(notifyClosed := notify)))
  {
  }

  lemma QuietBeginRemoval(w: State, id: Id, ok: Oracle)
    requires id in w.peers
    ensures Quiet(w, BeginRemoval(w, id, ok))
  {
    hide RevokePeer, Quiet;
    var w1 := RevokePeer(w.(permission := Revoke(w.permission, id)), id, true, ok);
    QuietRevoke(w, Revoke(w.permission, id), id, true, ok);
    var w2 := SetPeer(w1, id, w1.peers[id].(removing := true));
    QuietSet(w, w1, id, w1.peers[id].(removing := true));
    QuietLike(w, w2, Send(w2, RemovePeer(id)));
  }

  lemma QuietFail(w: State, id: Id, ok: Oracle)
    requires id in w.peers
    ensures Quiet(w, FailPeer(w, id, ok))
  {
    hide RevokePeer;
    QuietRevoke(w, Revoke(w.permission, id), id, false, ok);
  }

  lemma QuietClose(w: State, id: Id, ok: Oracle)
    requires id in w.peers
    ensures Quiet(w, ClosePeer(w, id, ok))
  {
    hide ReleaseHeld;
    QuietRelease(w, ok);
  }

  lemma QuietNet(w: State, message: NetMessage, ok: Oracle)
    requires message != NetReady
    ensures Quiet(w, FromNet(w, message, ok))
  {
    hide RevokePeer, FailPeer, ClosePeer, AddAll;
    match message
    case NetFailed(id) => if id in w.peers { QuietFail(w, id, ok); }
    case NetClosed(id) => if id in w.peers { QuietClose(w, id, ok); }
    case ChannelClosed(id) => if id in w.peers { QuietRevokeOnly(w, id, false, ok); }
    case _ =>
  }

  /** A message from a viewer that is not input it may perform. */
  lemma QuietHandle(w: State, id: Id, message: ViewerMessage, t0: int, t1: int, t2: int, ok: Oracle)
    requires id in w.peers && (message.Act? ==> !LeaseChecked(w, id, t0, ok).peers[id].control)
    ensures Quiet(w, Handle(w, id, message, t0, t1, t2, ok))
  {
    hide RevokePeer, Quiet;
    var w1 := QuietChecked(w, id, t0, ok);
    QuietRevokeOnly(w1, id, false, ok);
    match message
    case Unparsed =>
    case Ping => QuietSet(w, w1, id, w1.peers[id].(lastPing := t1));
    case ReleaseAll => QuietTransitive(w, w1, RevokePeer(w1, id, false, ok));
    case Control(enabled) =>
      var w2 := RevokePeer(w1, id, false, ok);
      QuietTransitive(w, w1, w2);
      QuietSet(w, w2, id, w2.peers[id].(control := Allowed(w2.permission, id, t1 / 1000) && enabled, lastPing := t2));
    case Act(input) =>
  }

  lemma QuietChecked(w: State, id: Id, t0: int, ok: Oracle) returns (w': State)
    requires id in w.peers
    ensures w' == LeaseChecked(w, id, t0, ok) && Quiet(w, w') && w'.permission == w.permission
    ensures w'.peers[id].control ==> w' == w && Allowed(w.permission, id, t0 / 1000)
  {
    hide RevokePeer;
    QuietRevokeOnly(w, id, false, ok);
    w' := LeaseChecked(w, id, t0, ok);
  }

  lemma QuietSet(w: State, w1: State, id: Id, peer: Peer)
    requires Quiet(w, w1) && id in w1.peers && SameRate(w1.peers[id], peer)
    ensures Quiet(w, SetPeer(w1, id, peer))
  {
  }

  /** The only event that posts for a viewer: input from a peer whose lease and rate allow it. */
  predicate Performs(w: State, e: Event) {
    && !w.stopped && e.InputEvent? && e.text.Act? && e.display
    && e.id in w.peers && !w.peers[e.id].removing && w.peers[e.id].control
    && Allowed(w.permission, e.id, e.t0 / 1000)
  }

  predicate Performed(w: State, w': State, id: Id, input: Option<Input>, t0: int, t1: int, ok: Oracle)
    requires id in w.peers
  {
    var p := Counted(w.peers[id], t1);
    && w'.permission == w.permission && w'.nextSerial == w.nextSerial && w'.peers.Keys == w.peers.Keys
    && SameRate(w'.peers[id], p) && (forall other :: other in w.peers && other != id ==> w'.peers[other] == w.peers[other])
    && if p.rateCount <= MAX_RATE && input.Some? then
         w'.posts == w.posts + [Post(input.value, ok(|w.posts|), Viewer(p.serial, id, t0, t1))]
       else OnlyLifts(w.posts, w'.posts)
  }

  lemma PerformIsPerformed(w: State, id: Id, input: Option<Input>, t0: int, t1: int, ok: Oracle)
    requires id in w.peers && w.peers[id].control
    ensures Performed(w, Perform(w, id, input, t0, t1, ok), id, input, t0, t1, ok)
  {
    hide RevokePeer, PostInput, Counted, Held;
    var w1 := SetPeer(w, id, Counted(w.peers[id], t1));
    if w1.peers[id].rateCount > MAX_RATE {
      QuietRevokeOnly(w1, id, false, ok);
    }
    assert OnlyLifts(w.posts, w.posts);
  }

  /** What a performed message does: its rate is counted, and within the limit it is posted. */
  lemma PerformEffect(w: State, e: Event, ok: Oracle)
    requires Performs(w, e)
    ensures Performed(w, Apply(w, e, ok), e.id, e.text.input, e.t0, e.t1, ok)
  {
    hide RevokePeer, Perform, OnlyLifts, Counted;
    PerformIsPerformed(w, e.id, e.text.input, e.t0, e.t1, ok);
    assert LeaseChecked(w, e.id, e.t0, ok) == w;
    assert Handle(w, e.id, e.text, e.t0, e.t1, e.t2, ok) == Perform(w, e.id, e.text.input, e.t0, e.t1, ok);
  }

  predicate Adds(e: Event) {
    e.Add? || (e.Net? && e.message == NetReady)
  }

  predicate Grants(e: Event) {
    e.PermitEvent? && e.allow && ValidPermit(e.id, e.leaseMs)
  }

  /** Every event that neither adds viewers, grants the lease nor performs input is quiet. */
  lemma OthersAreQuiet(w: State, e: Event, ok: Oracle)
    requires !Adds(e) && !Grants(e) && !Performs(w, e)
    ensures Quiet(w, Apply(w, e, ok))
  {
    hide Quiet, Permit, Enforce, RemoveViewer, FromNet, InputMessage, ReleaseHeld;
    QuietRelease(w, ok);
    QuietLike(w, w, Stop(w));
    QuietLike(w, ReleaseHeld(w, ok), Stop(ReleaseHeld(w, ok)));
    match e
    case Start(video) => QuietLike(w, w, Send(w.(started := true, videoEnabled := video), Configure));
    case Add(id, sdp) =>
    case Remove(id) => QuietRemoveAsked(w, id, ok);
    case PermitEvent(id, allow, leaseMs, t0, t1) => QuietPermit(w, id, allow, leaseMs, t0, t1, ok);
    case Net(message) => QuietNet(w, message, ok);
    case InputEvent(id, text, display, t0, t1, t2) => if !w.stopped { QuietInput(w, e, ok); }
    case Tick(display, t0) => QuietEnforce(w, t0, ok);
    case Fatal =>
    case Exit =>
  }

  lemma QuietRemoveAsked(w: State, id: Id, ok: Oracle)
    ensures Quiet(w, RemoveViewer(Tell(w, RemoveAsked(id)), id, true, ok))
  {
    hide RemoveViewer;
    QuietRemove(Tell(w, RemoveAsked(id)), id, true, ok);
  }

  lemma QuietLike(w: State, w1: State, w2: State)
    requires w == w1 || Quiet(w, w1)
    requires w2.posts == w1.posts && w2.peers == w1.peers && w2.nextSerial == w1.nextSerial
    requires w2.permission == w1.permission
    ensures Quiet(w, w2)
  {
  }

  lemma QuietPermit(w: State, id: Id, allow: bool, leaseMs: real, t0: int, t1: int, ok: Oracle)
    requires !(allow && ValidPermit(id, leaseMs))
    ensures Quiet(w, Permit(w, id, allow, leaseMs, t0, t1, ok))
  {
    hide Quiet, RevokePeer, Enforce, ReleaseHeld;
    QuietRelease(w, ok);
    QuietLike(w, ReleaseHeld(w, ok), Stop(ReleaseHeld(w, ok)));
    QuietWithdraw(w, id, t1, ok);
  }

  lemma QuietInput(w: State, e: Event, ok: Oracle)
    requires !w.stopped && e.InputEvent? && !Performs(w, e)
    ensures Quiet(w, InputMessage(w, e.id, e.text, e.display, e.t0, e.t1, e.t2, ok))
  {
    hide Quiet, ReleaseHeld, Handle, LeaseChecked;
    QuietRelease(w, ok);
    QuietLike(w, w, w);
    QuietLike(w, ReleaseHeld(w, ok), Stop(ReleaseHeld(w, ok)));
    if e.id in w.peers && !w.peers[e.id].removing && (e.text == Unparsed || e.display) {
      var _ := QuietChecked(w, e.id, e.t0, ok);
      if e.text == Unparsed {
        QuietLike(w, w, Send(w, ControlState(e.id, w.peers[e.id].control)));
      } else {
        QuietHandle(w, e.id, e.text, e.t0, e.t1, e.t2, ok);
        var w1 := Handle(w, e.id, e.text, e.t0, e.t1, e.t2, ok);
        QuietLike(w, w1, Send(w1, ControlState(e.id, w1.peers[e.id].control)));
      }
    }
  }

  lemma QuietWithdraw(w: State, id: Id, now: int, ok: Oracle)
    ensures var w1 := w.(permission := Revoke(w.permission, id));
      Quiet(w, Enforce(if id in w1.peers then RevokePeer(w1, id, true, ok) else w1, now, ok))
  {
    hide RevokePeer, Enforce;
    var w1 := w.(permission := Revoke(w.permission, id));
    var w2 := if id in w1.peers then RevokePeer(w1, id, true, ok) else w1;
    if id in w.peers {
      QuietRevoke(w, w1.permission, id, true, ok);
    }
    QuietEnforce(w2, now, ok);
    QuietTransitive(w, w2, Enforce(w2, now, ok));
  }

  /** Adding viewers posts nothing and leaves the lease and the other viewers alone. */
  predicate Grows(w: State, w': State) {
    && w'.posts == w.posts && w'.permission == w.permission && w.nextSerial <= w'.nextSerial
    && (forall id :: id in w.peers ==> id in w'.peers && w'.peers[id] == w.peers[id])
    && (forall id :: id in w'.peers && id !in w.peers ==>
          w.nextSerial <= w'.peers[id].serial < w'.nextSerial && w'.peers[id] == NewPeer(w'.peers[id].serial))
    && (forall a, b | a in w'.peers && b in w'.peers && a !in w.peers && b !in w.peers
          :: w'.peers[a].serial == w'.peers[b].serial ==> a == b)
  }

  lemma {:induction false} AddAllGrows(w: State, viewers: seq<(Id, string)>)
    ensures Grows(w, AddAll(w, viewers))
    decreases |viewers|
  {
    hide Grows, AddViewer;
    if viewers == [] {
      GrowsNothing(w);
    } else {
      var w1 := AddViewer(w, viewers[0].0, viewers[0].1);
      AddGrows(w, viewers[0].0, viewers[0].1);
      AddAllGrows(w1, viewers[1..]);
      GrowsTransitive(w, w1, AddAll(w, viewers));
    }
  }

  lemma GrowsNothing(w: State)
    ensures Grows(w, w)
  {
  }

  lemma AddGrows(w: State, id: Id, sdp: string)
    ensures Grows(w, AddViewer(w, id, sdp))
  {
    hide Waiting, ValidPeerId;
  }

  lemma GrowsTransitive(a: State, b: State, c: State)
    requires Grows(a, b) && Grows(b, c)
    ensures Grows(a, c)
  {
  }

  lemma AddsGrow(w: State, e: Event, ok: Oracle)
    requires Adds(e)
    ensures Grows(w, Apply(w, e, ok))
  {
    hide Grows, AddViewer, AddAll;
    GrowsNothing(w);
    match e
    case Add(id, sdp) => AddGrows(w, id, sdp); GrowsLike(w, w, Stop(w));
    case Net(message) =>
      GrowsLike(w, w, Stop(w));
      var w1 := w.(ready := true, waiting := []);
      AddAllGrows(w1, w.waiting);
      GrowsFrom(w, w1, AddAll(w1, w.waiting));
  }

  lemma GrowsLike(w: State, w1: State, w2: State)
    requires Grows(w, w1) && w2 == w1.(stopped := w2.stopped)
    ensures Grows(w, w2)
  {
  }

  lemma GrowsFrom(w: State, w1: State, w2: State)
    requires Grows(w1, w2) && w1 == w.(ready := w1.ready, waiting := w1.waiting)
    ensures Grows(w, w2)
  {
  }

  /** A grant replaces the lease and takes control from any peer it does not name. */
  lemma GrantEffect(w: State, e: Event, ok: Oracle)
    requires !w.stopped && Grants(e)
    ensures var known := w.videoEnabled && e.id in w.peers && !w.peers[e.id].removing;
      var w', lease := Apply(w, e, ok), Grant(e.id, known, e.t0 / 1000, e.leaseMs.Floor);
      w'.permission == lease && Quiet(w.(permission := lease), w')
  {
    hide Enforce;
    var known := w.videoEnabled && e.id in w.peers && !w.peers[e.id].removing;
    QuietEnforce(w.(permission := Grant(e.id, known, e.t0 / 1000, e.leaseMs.Floor)), e.t1, ok);
  }
}
