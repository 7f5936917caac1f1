/** What the worker sends media-net: the configuration once and first, and only valid ids. */
module WorkerConduct {
  import opened Bytes
  import opened Permission
  import opened Worker
  import opened WorkerLife

  /** A command, as number k on the pipe, that media-net accepts. */
  predicate Proper(c: NetCommand, k: nat) {
    match c
    case Configure => k == 0
    case AddPeer(id, _) => ValidPeerId(id)
    case RemovePeer(id) => ValidPeerId(id)
    case ControlState(id, _) => ValidPeerId(id)
  }

  ghost predicate AllProper(commands: seq<NetCommand>) {
    forall k :: 0 <= k < |commands| ==> Proper(commands[k], k)
  }

  ghost predicate ValidIds(peers: map<Id, Peer>) {
    forall id :: id in peers ==> ValidPeerId(id)
  }

  /** The worker's side: nothing before the configuration, and only valid ids after it. */
  ghost predicate Conduct(w: State) {
    AllProper(w.commands) && ValidIds(w.peers) && (!w.started ==> w.commands == [] && w.peers == map[])
  }

  lemma ProperChatter(a: seq<NetCommand>, b: seq<NetCommand>, peers: map<Id, Peer>)
    requires AllProper(a) && ValidIds(peers) && OnlyChatter(a, b, peers.Keys)
    ensures AllProper(b) && (peers == map[] ==> b == a)
  {
    if |b| > |a| {
      assert b[|a|].id in peers.Keys;
    } else {
      assert b == a;
    }
  }

  lemma SilentConduct(w: State, w': State)
    requires Conduct(w) && Silent(w, w')
    ensures Conduct(w')
  {
    hide AllProper, OnlyChatter, ValidPeerId;
    ProperChatter(w.commands, w'.commands, w.peers);
    forall id | id in w'.peers ensures ValidPeerId(id) {
      assert id in w.peers.Keys;
    }
  }

  lemma ProperAppend(commands: seq<NetCommand>, c: NetCommand)
    requires AllProper(commands) && Proper(c, |commands|)
    ensures AllProper(commands + [c])
  {
  }

  lemma AddConduct(w: State, id: Id, sdp: string)
    requires Conduct(w)
    ensures Conduct(AddViewer(w, id, sdp)) && AddViewer(w, id, sdp).started == w.started
    ensures AddViewer(w, id, sdp).stopped == w.stopped
  {
    hide AllProper, Waiting, ValidPeerId;
    if ValidPeerId(id) {
      ProperAppend(w.commands, AddPeer(id, sdp));
    }
  }

  lemma {:induction false} AddAllConduct(w: State, viewers: seq<(Id, string)>)
    requires Conduct(w)
    ensures Conduct(AddAll(w, viewers)) && AddAll(w, viewers).stopped == w.stopped
    decreases |viewers|
  {
    hide Conduct, AddViewer;
    if viewers != [] {
      AddConduct(w, viewers[0].0, viewers[0].1);
      AddAllConduct(AddViewer(w, viewers[0].0, viewers[0].1), viewers[1..]);
    }
  }

  lemma RemoveConduct(w: State, id: Id, ok: Oracle)
    requires Conduct(w)
    ensures Conduct(RemoveViewer(Tell(w, RemoveAsked(id)), id, true, ok))
  {
    hide AllProper, Waiting, Without, ValidPeerId, BeginRemoval;
    if id in w.peers {
      ProperAppend(w.commands, ControlState(id, false));
      ProperAppend(w.commands + [ControlState(id, false)], RemovePeer(id));
    }
  }

  lemma StopConduct(w: State)
    requires Conduct(w)
    ensures Conduct(Stop(w))
  {
  }

  lemma StartConduct(w: State, video: bool)
    requires Conduct(w) && !w.started
    ensures Conduct(Send(w.(started := true, videoEnabled := video), Configure))
  {
    ProperAppend(w.commands, Configure);
  }

  lemma NetConduct(w: State, message: NetMessage, ok: Oracle)
    requires Conduct(w)
    requires message.NetReady? || message.NetAnswer? || message.NetFailed? || message.NetClosed?
    requires w.started && message.NetReady? ==> !w.ready
    ensures Conduct(FromNet(w, message, ok)) && FromNet(w, message, ok).stopped == w.stopped
  {
    hide AllProper, ValidPeerId, FailPeer, ClosePeer, AddAll;
    match message
    case NetReady =>
      if w.started {
        AddAllConduct(w.(ready := true, waiting := []), w.waiting);
      }
    case NetAnswer(id, sdp) =>
    case NetFailed(id) =>
    case NetClosed(id) =>
  }

  lemma KeepServer(w: State, e: Event, ok: Oracle)
    requires Conduct(w) && !w.stopped && !e.Net?
    ensures Conduct(Apply(w, e, ok))
  {
    hide Conduct, Silent, AddViewer, RemoveViewer, FromNet;
    if !Lively(e) {
      OthersAreSilent(w, e, ok);
      SilentConduct(w, Apply(w, e, ok));
    } else {
      StopConduct(w);
      match e
      case Start(video) => if !w.started { StartConduct(w, video); }
      case Add(id, sdp) => AddConduct(w, id, sdp);
      case Remove(id) => RemoveConduct(w, id, ok);
    }
  }

  /** Only a second readiness, or a fatal message, of media-net ends a worker that has started. */
  lemma KeepHearing(w: State, message: NetMessage, ok: Oracle)
    requires Conduct(w) && !w.stopped
    ensures var w' := Apply(w, Net(message), ok);
      Conduct(w') && (w'.stopped <==> w.started && (message.NetFatal? || (message.NetReady? && w.ready)))
  {
    hide Conduct, Silent, RevokePeer, AddAll;
    StopConduct(w);
    if message.NetReady? && w.ready {
    } else if message.NetReady? || message.NetAnswer? || message.NetFailed? || message.NetClosed? {
      NetConduct(w, message, ok);
    } else {
      OthersAreSilent(w, Net(message), ok);
      SilentConduct(w, Apply(w, Net(message), ok));
    }
  }

  lemma NextIsProper(w: State, k: nat)
    requires Conduct(w) && k < |w.commands|
    ensures Proper(w.commands[k], k)
  {
  }
}
