/** The handlers of media-worker.cpp as they are written, proved against the functions of Worker. */
module WorkerLoop {
  import opened Bytes
  import opened Permission
  import W = Worker
  import S = BrokerSafety

  /**
   The globals of the worker. `posts`, `server` and `commands` record what was posted and sent;
   `posting` is the operating system's answer to each post.
   */
  class MediaWorker {
    const posting: W.Oracle
    const permission: PeerPermission
    var started: bool
    var ready: bool
    var stopped: bool
    var videoEnabled: bool
    var waiting: seq<(Id, string)>
    var peers: map<Id, W.Peer>
    var keys: set<int>
    var buttons: set<int>
    var nextSerial: nat
    var posts: seq<W.Post>
    var server: seq<W.ServerEvent>
    var commands: seq<W.NetCommand>

    ghost function State(): W.State
      reads this, permission, permission.lease
    {
      W.State(started, ready, stopped, videoEnabled, waiting, peers, permission.State(), keys, buttons,
              nextSerial, posts, server, commands)
    }

    constructor (posting: W.Oracle)
      ensures State() == W.INITIAL && this.posting == posting && fresh(permission) && fresh(permission.lease)
    {
      this.posting := posting;
      permission := new PeerPermission();
      started, ready, stopped, videoEnabled := false, false, false, false;
      waiting, peers, keys, buttons := [], map[], {}, {};
      nextSerial, posts, server, commands := 0, [], [], [];
    }

    // ---- Posting

    /** key_input, button_input, and the posts without held state. */
    method PostInput(input: W.Input, origin: W.Origin)
      modifies this`posts, this`keys, this`buttons
      ensures State() == W.PostInput(old(State()), input, origin, posting)
    {
      var ok := posting(|posts|);
      posts := posts + [W.Post(input, ok, origin)];
      if ok {
        match input
        case Key(code, down) => keys := if down then keys + {code} else keys - {code};
        case Button(button, down) => buttons := if down then buttons + {button} else buttons - {button};
        case _ =>
      }
    }

    /** release_held: walks copies of the two sets, since lifting changes them. */
    method ReleaseHeld()
      modifies this`posts, this`keys, this`buttons
      ensures State() == W.ReleaseHeld(old(State()), posting)
    {
      ghost var start := State();
      var heldKeys, heldButtons := keys, buttons;
      while heldKeys != {}
        invariant W.LiftKeys(start, start.keys, posting) == W.LiftKeys(State(), heldKeys, posting)
        invariant heldButtons == start.buttons
        decreases |heldKeys|
      {
        var key := W.Least(heldKeys);
        PostInput(W.Key(key, false), W.Lift);
        heldKeys := heldKeys - {key};
      }
      ghost var middle := State();
      while heldButtons != {}
        invariant W.LiftButtons(middle, start.buttons, posting) == W.LiftButtons(State(), heldButtons, posting)
        decreases |heldButtons|
      {
        var button := W.Least(heldButtons);
        PostInput(W.Button(button, false), W.Lift);
        heldButtons := heldButtons - {button};
      }
    }

    // ---- Control

    method RevokePeer(id: Id, notify: bool)
      requires id in peers
      modifies this`posts, this`keys, this`buttons, this`peers, this`commands
      ensures State() == W.RevokePeer(old(State()), id, notify, posting)
    {
      hide W.ReleaseHeld;
      if peers[id].control {
        ReleaseHeld();
      }
      peers := peers[id := peers[id].(control := false)];
      if notify {
        commands := commands + [W.ControlState(id, false)];
      }
    }

    /** enforce_permission's test of one peer, and what follows if it fails. */
    method EnforceOn(id: Id, now: int) returns (revoked: bool)
      requires id in peers
      modifies this`posts, this`keys, this`buttons, this`peers, this`commands
      ensures revoked <==> W.MustRevoke(old(State()), id, now)
      ensures State() == if revoked then W.RevokePeer(old(State()), id, true, posting) else old(State())
    {
      hide W.RevokePeer;
      var allowed := permission.AllowedPeer(id, now / 1000);
      revoked := peers[id].control && (now - peers[id].lastPing > W.PING_LIMIT || !allowed);
      if revoked {
        RevokePeer(id, true);
      }
    }

    /** enforce_permission: every peer is looked at, in whatever order; at most one is revoked. */
    method EnforcePermission(now: int)
      requires S.OneControl(State())
      modifies this`posts, this`keys, this`buttons, this`peers, this`commands
      ensures State() == W.Enforce(old(State()), now, posting)
    {
      hide W.RevokePeer, W.MustRevoke, S.OneControl;
      ghost var start := State();
      var todo := peers.Keys;
      ghost var found: Option<Id> := None;
      while todo != {}
        invariant todo <= peers.Keys
        invariant found.None? ==> State() == start && forall id :: id in start.peers && id !in todo ==> !W.MustRevoke(start, id, now)
        invariant found.Some? ==> found.value in start.peers && W.MustRevoke(start, found.value, now)
                                  && State() == W.RevokePeer(start, found.value, true, posting)
        decreases todo
      {
        var id :| id in todo;
        todo := todo - {id};
        if found.Some? {
          NoMoreToRevoke(start, found.value, id, now, posting);
        }
        var revoked := EnforceOn(id, now);
        if revoked {
          found := Some(id);
        }
      }
      OnlyOneToRevoke(start, now);
    }

    /** input_message, for a text already parsed; the times are its readings of the clock. */
    method InputMessage(id: Id, message: W.ViewerMessage, display: bool, t0: int, t1: int, t2: int)
      requires S.SingleControl(State())
      modifies this`posts, this`keys, this`buttons, this`peers, this`commands, this`stopped
      ensures State() == W.InputMessage(old(State()), id, message, display, t0, t1, t2, posting)
    {
      hide W.Handle, W.ReleaseHeld;
      if id !in peers || peers[id].removing {
        return;
      }
      if message != W.Unparsed && !display {
        LiftAndStop();
        return;
      }
      if message != W.Unparsed {
        HandleMessage(id, message, t0, t1, t2);
      }
      commands := commands + [W.ControlState(id, peers[id].control)];
    }

    method HandleMessage(id: Id, message: W.ViewerMessage, t0: int, t1: int, t2: int)
      requires S.SingleControl(State()) && id in peers && !peers[id].removing
      modifies this`posts, this`keys, this`buttons, this`peers, this`commands
      ensures State() == W.Handle(old(State()), id, message, t0, t1, t2, posting)
    {
      hide W.RevokePeer, W.ReleaseHeld, W.PostInput;
      var allowed := permission.AllowedPeer(id, t0 / 1000);
      if peers[id].control && !allowed {
        RevokePeer(id, false);
      }
      assert S.SingleControl(State());
      match message
      case Unparsed =>
      case Ping => peers := peers[id := peers[id].(lastPing := t1)];
      case ReleaseAll => RevokePeer(id, false);
      case Control(enabled) => TakeControl(id, enabled, t1, t2);
      case Act(input) => Perform(id, input, t0, t1);
    }

    /** The "control" message, with the loop that would take control from everyone else. */
    method TakeControl(id: Id, enabled: bool, t1: int, t2: int)
      requires S.SingleControl(State()) && id in peers
      modifies this`posts, this`keys, this`buttons, this`peers, this`commands
      ensures State() == W.TakeControl(old(State()), id, enabled, t1, t2, posting)
    {
      hide W.RevokePeer, W.ReleaseHeld;
      RevokePeer(id, false);
      var allowed := permission.AllowedPeer(id, t1 / 1000);
      peers := peers[id := peers[id].(control := allowed && enabled, lastPing := t2)];
      if peers[id].control {
        ghost var done := State();
        var todo := peers.Keys;
        while todo != {}
          invariant todo <= peers.Keys && State() == done
          decreases todo
        {
          var other :| other in todo;
          todo := todo - {other};
          if other != id && peers[other].control {
            assert false; // here the source would revoke `other`
          }
        }
      }
    }

    method Perform(id: Id, input: Option<W.Input>, t0: int, t1: int)
      requires id in peers
      modifies this`posts, this`keys, this`buttons, this`peers, this`commands
      ensures State() == W.Perform(old(State()), id, input, t0, t1, posting)
    {
      hide W.RevokePeer, W.PostInput;
      if !peers[id].control {
        return;
      }
      var peer := peers[id];
      if t1 - peer.rateWindow > W.SECOND {
        peer := peer.(rateWindow := t1, rateCount := 0);
      }
      peer := peer.(rateCount := peer.rateCount + 1);
      peers := peers[id := peer];
      if peer.rateCount > W.MAX_RATE {
        RevokePeer(id, false);
      } else if input.Some? {
        PostInput(input.value, W.Viewer(peer.serial, id, t0, t1));
      }
    }

    /** control-permission. */
    method ControlPermission(id: Id, allow: bool, leaseMs: real, t0: int, t1: int)
      requires S.SingleControl(State())
      modifies this, permission, permission.lease
      ensures State() == W.Permit(old(State()), id, allow, leaseMs, t0, t1, posting)
    {
      hide W.Leased, W.ReleaseHeld, W.Enforce, S.OneControl, S.SingleControl;
      S.SingleIsOne(State());
      if !(1 <= |id| <= 64) || leaseMs < 1.0 || leaseMs > 5000.0 {
        LiftAndStop();
      } else {
        ChangeLease(id, allow, t0 / 1000, leaseMs.Floor);
        EnforcePermission(t1);
      }
    }

    method ChangeLease(id: Id, allow: bool, now: int, duration: int)
      requires S.OneControl(State())
      modifies this`posts, this`keys, this`buttons, this`peers, this`commands, permission, permission.lease
      ensures S.OneControl(State()) && State() == W.Leased(old(State()), id, allow, now, duration, posting)
    {
      hide W.RevokePeer, Grant, Revoke, S.OneControl;
      if allow {
        GrantLease(id, now, duration);
      } else {
        Withdraw(id);
      }
    }

    method GrantLease(id: Id, now: int, duration: int)
      requires S.OneControl(State())
      modifies permission, permission.lease
      ensures S.OneControl(State())
      ensures var w := old(State());
        var known := w.videoEnabled && id in w.peers && !w.peers[id].removing;
        State() == w.(permission := Grant(id, known, now, duration))
    {
      hide Grant;
      var known := videoEnabled && id in peers && !peers[id].removing;
      permission.GrantPeer(id, known, now, duration);
    }

    method Withdraw(id: Id)
      requires S.OneControl(State())
      modifies this`posts, this`keys, this`buttons, this`peers, this`commands, permission, permission.lease
      ensures S.OneControl(State())
      ensures var w := old(State()).(permission := Revoke(old(State()).permission, id));
        State() == if id in w.peers then W.RevokePeer(w, id, true, posting) else w
    {
      hide W.RevokePeer, S.OneControl;
      ghost var start := State();
      permission.RevokePeer(id);
      RevokeKeepsOne(start, State().permission, id, true, posting);
      if id in peers {
        RevokePeer(id, true);
      }
    }

    // ---- Viewers

    method IsWaiting(id: Id) returns (found: bool)
      ensures found <==> W.Waiting(waiting, id)
    {
      for i := 0 to |waiting|
        invariant forall k :: 0 <= k < i ==> waiting[k].0 != id
      {
        if waiting[i].0 == id {
          return true;
        }
      }
      return false;
    }

    method AddPeer(id: Id, sdp: string)
      modifies this`server, this`waiting, this`peers, this`nextSerial, this`commands
      ensures State() == W.AddViewer(old(State()), id, sdp)
    {
      hide W.ValidPeerId, W.Waiting;
      var isWaiting := IsWaiting(id);
      if !started || id in peers || isWaiting {
        server := server + [W.Failed(id, None)];
      } else if !ready {
        if |waiting| >= W.MAX_WAITING {
          server := server + [W.Failed(id, None)];
        } else {
          waiting := waiting + [(id, sdp)];
        }
      } else if !W.ValidPeerId(id) {
        server := server + [W.Failed(id, None)];
      } else {
        peers := peers[id := W.NewPeer(nextSerial)];
        nextSerial := nextSerial + 1;
        commands := commands + [W.AddPeer(id, sdp)];
      }
    }

    /** The erase-remove of remove_peer. */
    method StopWaiting(id: Id)
      modifies this`waiting
      ensures waiting == W.Without(old(waiting), id)
    {
      hide W.Without;
      var kept: seq<(Id, string)> := [];
      WithoutNothing(waiting, id);
      for i := 0 to |waiting|
        invariant waiting == old(waiting) && kept == W.Without(waiting[..i], id)
      {
        WithoutOne(waiting, i, id);
        if waiting[i].0 != id {
          kept := kept + [waiting[i]];
        }
      }
      assert waiting[..|waiting|] == waiting;
      waiting := kept;
    }

    method RemovePeer(id: Id, notify: bool)
      modifies this, permission, permission.lease
      ensures State() == W.RemoveViewer(old(State()), id, notify, posting)
    {
      hide W.BeginRemoval, W.Waiting, W.Without;
      var isWaiting := IsWaiting(id);
      if isWaiting {
        StopWaiting(id);
        if notify {
          server := server + [W.Closed(id, None)];
        }
        return;
      }
      if id !in peers {
        if notify {
          server := server + [W.Closed(id, None)];
        }
        return;
      }
      peers := peers[id := peers[id].(notifyClosed := peers[id].notifyClosed || notify)];
      if !peers[id].removing {
        BeginRemoval(id);
      }
    }

    method BeginRemoval(id: Id)
      requires id in peers
      modifies this, permission, permission.lease
      ensures State() == W.BeginRemoval(old(State()), id, posting)
    {
      hide W.RevokePeer;
      permission.RevokePeer(id);
      RevokePeer(id, true);
      peers := peers[id := peers[id].(removing := true)];
      commands := commands + [W.RemovePeer(id)];
    }

    /** net_message, for a line already parsed. */
    method NetMessage(message: W.NetMessage)
      modifies this, permission, permission.lease
      ensures State() == W.FromNet(old(State()), message, posting)
    {
      hide W.RevokePeer, W.ReleaseHeld, W.AddViewer;
      if !started {
        return;
      }
      match message
      case NetReady => NetIsReady();
      case NetAnswer(id, sdp) =>
        if id in peers && !peers[id].removing && !peers[id].answered && 0 < |sdp| <= W.MAX_SDP {
          peers := peers[id := peers[id].(answered := true)];
          server := server + [W.Answered(id, peers[id].serial, sdp)];
        }
      case NetFailed(id) =>
        if id in peers && !peers[id].removing {
          permission.RevokePeer(id);
          RevokePeer(id, false);
          server := server + [W.Failed(id, Some(peers[id].serial))];
          peers := peers - {id};
        }
      case NetClosed(id) =>
        if id in peers {
          if peers[id].control {
            ReleaseHeld();
          }
          var notify, serial := peers[id].notifyClosed, peers[id].serial;
          peers := peers - {id};
          if notify {
            server := server + [W.Closed(id, Some(serial))];
          }
        }
      case ChannelClosed(id) =>
        if id in peers {
          RevokePeer(id, false);
        }
      case NetOther =>
      case NetFatal => stopped := true;
    }

    /** net-ready: the viewers who waited are taken out first, then added in order. */
    method NetIsReady()
      requires started
      modifies this`ready, this`stopped, this`waiting, this`server, this`peers, this`nextSerial, this`commands
      ensures State() == W.FromNet(old(State()), W.NetReady, posting)
    {
      hide W.AddViewer;
      if ready {
        stopped := true;
        return;
      }
      ready := true;
      var viewers := waiting;
      waiting := [];
      ghost var start := State();
      for i := 0 to |viewers|
        invariant W.AddAll(start, viewers) == W.AddAll(State(), viewers[i..])
      {
        assert viewers[i..][1..] == viewers[i + 1..] && viewers[i..][0] == viewers[i];
        AddPeer(viewers[i].0, viewers[i].1);
      }
    }

    // ---- The main loop

    /** A key that is held must not stay down when the source ends. */
    method LiftAndStop()
      modifies this`posts, this`keys, this`buttons, this`stopped
      ensures State() == W.Stop(W.ReleaseHeld(old(State()), posting))
    {
      hide W.ReleaseHeld;
      ReleaseHeld();
      stopped := true;
    }

    /** command: the source is started, and viewers come and go. */
    method Command(e: W.Event)
      requires !stopped && (e.Start? || e.Add? || e.Remove?)
      modifies this, permission, permission.lease
      ensures State() == W.Apply(old(State()), e, posting)
    {
      hide W.AddViewer, W.RemoveViewer;
      match e
      case Start(video) =>
        if started {
          stopped := true;
        } else {
          started, videoEnabled := true, video;
          commands := commands + [W.Configure];
        }
      case Add(id, sdp) => if 1 <= |id| <= 64 { AddPeer(id, sdp); } else { stopped := true; }
      case Remove(id) =>
        if 1 <= |id| <= 64 {
          server := server + [W.RemoveAsked(id)];
          RemovePeer(id, true);
        } else {
          stopped := true;
        }
    }

    /** The one-second timer. */
    method Timer(display: bool, now: int)
      requires S.SingleControl(State())
      modifies this`posts, this`keys, this`buttons, this`peers, this`commands, this`stopped
      ensures State() == if display then W.Enforce(old(State()), now, posting)
                         else W.Stop(W.ReleaseHeld(old(State()), posting))
    {
      hide W.ReleaseHeld, W.Enforce;
      S.SingleIsOne(State());
      if !display {
        LiftAndStop();
      } else {
        EnforcePermission(now);
      }
    }

    /** One event of the main loop: a command, a message, input or the timer; or the end of the loop. */
    method Dispatch(e: W.Event)
      requires S.SingleControl(State())
      modifies this, permission, permission.lease
      ensures State() == W.Apply(old(State()), e, posting)
    {
      hide W.ReleaseHeld, W.AddViewer, W.RemoveViewer, W.FromNet, W.Permit, W.InputMessage, W.Enforce, S.SingleControl;
      if stopped {
        if e.Exit? {
          ReleaseHeld();
        }
        return;
      }
      match e
      case PermitEvent(id, allow, leaseMs, t0, t1) => ControlPermission(id, allow, leaseMs, t0, t1);
      case Net(message) => NetMessage(message);
      case InputEvent(id, text, display, t0, t1, t2) => InputMessage(id, text, display, t0, t1, t2);
      case Tick(display, t0) => Timer(display, t0);
      case Fatal => stopped := true;
      case Exit => LiftAndStop();
      case _ => Command(e);
    }

    /** session: whatever happens, the worker is in the state that the run theorems are about. */
    method Session(events: seq<W.Event>)
      requires State() == W.INITIAL
      modifies this, permission, permission.lease
      ensures State() == W.Run(events, posting)
    {
      hide W.Apply, W.Run, S.SingleControl, S.HeldExact, S.Lifted;
      RunNothing(posting);
      assert events[..0] == [];
      for i := 0 to |events|
        invariant State() == W.Run(events[..i], posting)
      {
        S.InvAlways(events[..i], posting);
        RunNext(events, i, posting);
        Dispatch(events[i]);
      }
      assert events[..|events|] == events;
    }
  }

  lemma RunNothing(ok: W.Oracle)
    ensures W.Run([], ok) == W.INITIAL
  {
  }

  lemma RunNext(events: seq<W.Event>, i: nat, ok: W.Oracle)
    requires i < |events|
    ensures W.Run(events[..i + 1], ok) == W.Apply(W.Run(events[..i], ok), events[i], ok)
  {
    assert events[..i + 1][..i] == events[..i];
  }

  lemma WithoutNothing(waiting: seq<(Id, string)>, id: Id)
    ensures W.Without(waiting[..0], id) == []
  {
  }

  lemma {:induction false} WithoutOne(waiting: seq<(Id, string)>, i: nat, id: Id)
    requires i < |waiting|
    ensures W.Without(waiting[..i + 1], id) == W.Without(waiting[..i], id) + if waiting[i].0 == id then [] else [waiting[i]]
  {
    if i == 0 {
      assert waiting[..1][1..] == [] && waiting[..0] == [];
    } else {
      var rest := waiting[1..];
      WithoutOne(rest, i - 1, id);
      assert waiting[..i + 1][1..] == rest[..i] && waiting[..i][1..] == rest[..i - 1];
      assert rest[i - 1] == waiting[i];
    }
  }

  lemma RevokeKeepsOne(w: W.State, permission: Permission, id: Id, notify: bool, ok: W.Oracle)
    requires S.OneControl(w)
    ensures S.OneControl(w.(permission := permission))
    ensures id in w.peers ==> S.OneControl(W.RevokePeer(w.(permission := permission), id, notify, ok))
  {
    hide W.RevokePeer;
  }

  lemma OnlyOneToRevoke(w: W.State, now: int)
    requires S.OneControl(w)
    ensures forall a :: W.MustRevoke(w, a, now) ==> a in w.peers
    ensures forall a, b :: W.MustRevoke(w, a, now) && W.MustRevoke(w, b, now) ==> a == b
  {
  }

  /** With one controller, and it revoked, there is nobody left to revoke. */
  lemma NoMoreToRevoke(w: W.State, id: Id, other: Id, now: int, ok: W.Oracle)
    requires S.OneControl(w) && id in w.peers && W.MustRevoke(w, id, now)
    ensures !W.MustRevoke(W.RevokePeer(w, id, true, ok), other, now)
  {
    hide W.RevokePeer;
  }
}
