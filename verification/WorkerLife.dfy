/** Which events change the set of viewers, or how far each has come; all the others do not. */
module WorkerLife {
  import opened Bytes
  import opened Permission
  import opened Worker

  /** The members of a peer that its life is about. */
  predicate SameLife(p: Peer, q: Peer) {
    p.serial == q.serial && p.answered == q.answered && p.removing == q.removing && p.notifyClosed == q.notifyClosed
  }

  /** Only news about who has control, which has no bearing on which peers media-net has. */
  predicate OnlyChatter(a: seq<NetCommand>, b: seq<NetCommand>, ids: set<Id>) {
    a <= b && forall k :: |a| <= k < |b| ==> b[k].ControlState? && b[k].id in ids
  }

  predicate Silent(w: State, w': State) {
    && w'.started == w.started && w'.server == w.server && w'.waiting == w.waiting && w'.ready == w.ready && w'.nextSerial == w.nextSerial
    && w'.peers.Keys == w.peers.Keys && (forall id :: id in w.peers ==> SameLife(w.peers[id], w'.peers[id]))
    && OnlyChatter(w.commands, w'.commands, w.peers.Keys)
  }

  lemma SilentTransitive(a: State, b: State, c: State)
    requires Silent(a, b) && Silent(b, c)
    ensures Silent(a, c)
  {
    forall k | |a.commands| <= k < |c.commands| ensures c.commands[k].ControlState? && c.commands[k].id in a.peers.Keys {
      if k < |b.commands| {
        assert c.commands[k] == b.commands[k];
      }
    }
  }

  lemma SilentRevoke(w: State, permission: Permission, id: Id, notify: bool, ok: Oracle)
    requires id in w.peers
    ensures Silent(w, RevokePeer(w.(permission := permission), id, notify, ok))
  {
    hide RevokePeer, OnlyChatter;
    var w' := RevokePeer(w.(permission := permission), id, notify, ok);
    ChatterOf(w.commands, if notify then [ControlState(id, false)] else [], w.peers.Keys);
    assert w'.peers.Keys == w.peers.Keys;
  }

  lemma ChatterOf(a: seq<NetCommand>, more: seq<NetCommand>, ids: set<Id>)
    requires forall c :: c in more ==> c.ControlState? && c.id in ids
    ensures OnlyChatter(a, a + more, ids)
  {
  }

  lemma SilentEnforce(w: State, permission: Permission, now: int, ok: Oracle)
    ensures Silent(w, Enforce(w.(permission := permission), now, ok))
  {
    hide RevokePeer;
    forall id | MustRevoke(w.(permission := permission), id, now) {
      SilentRevoke(w, permission, id, true, ok);
    }
  }

  lemma SilentPermit(w: State, id: Id, allow: bool, leaseMs: real, t0: int, t1: int, ok: Oracle)
    ensures Silent(w, Permit(w, id, allow, leaseMs, t0, t1, ok))
  {
    hide RevokePeer, Enforce, ReleaseHeld, Grant, Silent;
    SilentRelease(w, ok);
    if !ValidPermit(id, leaseMs) {
      return;
    }
    if allow {
      var known := w.videoEnabled && id in w.peers && !w.peers[id].removing;
      SilentEnforce(w, Grant(id, known, t0 / 1000, leaseMs.Floor), t1, ok);
    } else {
      var permission := Revoke(w.permission, id);
      if id in w.peers {
        SilentRevoke(w, permission, id, true, ok);
        var w1 := RevokePeer(w.(permission := permission), id, true, ok);
        SilentEnforce(w1, w1.permission, t1, ok);
        assert w1.(permission := w1.permission) == w1;
        SilentTransitive(w, w1, Enforce(w1, t1, ok));
      } else {
        SilentEnforce(w, permission, t1, ok);
      }
    }
  }

  lemma SilentRevokeOnly(w: State, id: Id, notify: bool, ok: Oracle)
    requires id in w.peers
    ensures Silent(w, RevokePeer(w, id, notify, ok))
  {
    hide RevokePeer;
    assert w.(permission := w.permission) == w;
    SilentRevoke(w, w.permission, id, notify, ok);
  }

  lemma SilentSet(w: State, w1: State, id: Id, peer: Peer)
    requires Silent(w, w1) && id in w1.peers && SameLife(w1.peers[id], peer)
    ensures Silent(w, SetPeer(w1, id, peer))
  {
  }

  lemma SilentPerform(w: State, id: Id, input: Option<Input>, t0: int, t1: int, ok: Oracle)
    requires id in w.peers
    ensures Silent(w, Perform(w, id, input, t0, t1, ok))
  {
    hide RevokePeer, PostInput, Silent;
    SilentItself(w);
    var w1 := SetPeer(w, id, Counted(w.peers[id], t1));
    SilentSet(w, w, id, Counted(w.peers[id], t1));
    SilentRevokeOnly(w1, id, false, ok);
    SilentTransitive(w, w1, RevokePeer(w1, id, false, ok));
    if input.Some? {
      SilentPost(w, w1, input.value, Viewer(w1.peers[id].serial, id, t0, t1), ok);
    }
  }

  lemma SilentItself(w: State)
    ensures Silent(w, w)
  {
  }

  lemma SilentPost(w: State, w1: State, input: Input, origin: Origin, ok: Oracle)
    requires Silent(w, w1)
    ensures Silent(w, PostInput(w1, input, origin, ok))
  {
  }

  lemma SilentHandle(w: State, id: Id, message: ViewerMessage, t0: int, t1: int, t2: int, ok: Oracle)
    requires id in w.peers
    ensures Silent(w, Handle(w, id, message, t0, t1, t2, ok))
  {
    hide RevokePeer, Perform, Silent;
    SilentItself(w);
    SilentRevokeOnly(w, id, false, ok);
    var w1 := LeaseChecked(w, id, t0, ok);
    var w2 := RevokePeer(w1, id, false, ok);
    SilentRevokeOnly(w1, id, false, ok);
    SilentTransitive(w, w1, w2);
    match message
    case Unparsed =>
    case Ping => SilentSet(w, w1, id, w1.peers[id].(lastPing := t1));
    case ReleaseAll =>
    case Control(enabled) =>
      SilentSet(w, w2, id, w2.peers[id].(control := Allowed(w2.permission, id, t1 / 1000) && enabled, lastPing := t2));
    case Act(input) =>
      SilentPerform(w1, id, input, t0, t1, ok);
      SilentTransitive(w, w1, Perform(w1, id, input, t0, t1, ok));
  }

  /** The events in which the source starts, or a viewer comes, goes or is answered. */
  predicate Lively(e: Event) {
    e.Start? || e.Add? || e.Remove?
    || (e.Net? && (e.message.NetReady? || e.message.NetAnswer? || e.message.NetFailed? || e.message.NetClosed?))
  }

  lemma OthersAreSilent(w: State, e: Event, ok: Oracle)
    requires !Lively(e)
    ensures Silent(w, Apply(w, e, ok))
  {
    hide Silent, Handle, Permit, Enforce, ReleaseHeld, InputMessage, FromNet;
    SilentItself(w);
    SilentLike(w, w, Stop(w));
    SilentRelease(w, ok);
    match e
    case PermitEvent(id, allow, leaseMs, t0, t1) => SilentPermit(w, id, allow, leaseMs, t0, t1, ok);
    case Net(message) => SilentNet(w, message, ok);
    case InputEvent(id, text, display, t0, t1, t2) => SilentInput(w, id, text, display, t0, t1, t2, ok);
    case Tick(display, t0) =>
      SilentEnforce(w, w.permission, t0, ok);
      assert w.(permission := w.permission) == w;
    case Fatal =>
    case Exit =>
  }

  lemma SilentRelease(w: State, ok: Oracle)
    ensures Silent(w, ReleaseHeld(w, ok)) && Silent(w, Stop(ReleaseHeld(w, ok)))
  {
    hide ReleaseHeld;
  }

  lemma SilentNet(w: State, message: NetMessage, ok: Oracle)
    requires message.ChannelClosed? || message.NetOther? || message.NetFatal?
    ensures Silent(w, FromNet(w, message, ok))
  {
    hide Silent, RevokePeer;
    SilentItself(w);
    SilentLike(w, w, Stop(w));
    if message.ChannelClosed? && message.id in w.peers {
      SilentRevokeOnly(w, message.id, false, ok);
    }
  }

  lemma SilentInput(w: State, id: Id, text: ViewerMessage, display: bool, t0: int, t1: int, t2: int, ok: Oracle)
    ensures Silent(w, InputMessage(w, id, text, display, t0, t1, t2, ok))
  {
    hide Silent, ReleaseHeld, Handle;
    SilentItself(w);
    SilentRelease(w, ok);
    if id in w.peers {
      SilentHandle(w, id, text, t0, t1, t2, ok);
      var w1 := if text == Unparsed then w else Handle(w, id, text, t0, t1, t2, ok);
      SilentSend(w, w1, ControlState(id, w1.peers[id].control));
    }
  }

  lemma SilentSend(w: State, w1: State, command: NetCommand)
    requires Silent(w, w1) && command.ControlState? && command.id in w.peers
    ensures Silent(w, Send(w1, command))
  {
  }

  lemma SilentLike(w: State, w1: State, w2: State)
    requires Silent(w, w1)
    requires w2 == w1.(stopped := w2.stopped)
    ensures Silent(w, w2)
  {
  }
}
