/** What the server is told about each viewer, whatever media-net sends. */
module ViewerReports {
  import opened Bytes
  import opened Permission
  import opened Worker
  import opened WorkerLife

  /** A report that ends the life of a viewer. */
  predicate Ends(e: ServerEvent, serial: nat) {
    (e.Failed? || e.Closed?) && e.who == Some(serial)
  }

  predicate Answers(e: ServerEvent, serial: nat) {
    e.Answered? && e.serial == serial
  }

  predicate About(e: ServerEvent, serial: nat) {
    Ends(e, serial) || Answers(e, serial)
  }

  /** Per viewer: at most one answer, at most one end, and nothing after the end. */
  ghost predicate InOrder(server: seq<ServerEvent>) {
    forall i, j, serial: nat :: 0 <= i < j < |server| && About(server[i], serial) && About(server[j], serial) ==>
      Answers(server[i], serial) && Ends(server[j], serial)
  }

  ghost predicate Told(server: seq<ServerEvent>, peers: map<Id, Peer>, nextSerial: nat) {
    && InOrder(server)
    && (forall k, serial: nat :: 0 <= k < |server| && About(server[k], serial) ==> serial < nextSerial)
    && (forall id :: id in peers ==> peers[id].serial < nextSerial)
    && (forall a, b :: a in peers && b in peers && a != b ==> peers[a].serial != peers[b].serial)
    && (forall id, k :: id in peers && 0 <= k < |server| ==>
          && !Ends(server[k], peers[id].serial)
          && (Answers(server[k], peers[id].serial) ==> peers[id].answered))
  }

  function Asked(server: seq<ServerEvent>, id: Id): nat {
    if server == [] then 0
    else Asked(server[..|server| - 1], id) + if server[|server| - 1] == RemoveAsked(id) then 1 else 0
  }

  predicate IsClosed(e: ServerEvent, id: Id) {
    e.Closed? && e.id == id
  }

  function ClosedCount(server: seq<ServerEvent>, id: Id): nat {
    if server == [] then 0
    else ClosedCount(server[..|server| - 1], id) + if IsClosed(server[|server| - 1], id) then 1 else 0
  }

  /** The viewer's removal still has to be reported. */
  predicate Owed(peers: map<Id, Peer>, id: Id) {
    id in peers && peers[id].notifyClosed
  }

  /** Every removal asked for is followed by a report, or the report is still owed. */
  ghost predicate RemovalsReported(server: seq<ServerEvent>, peers: map<Id, Peer>) {
    forall i, id :: 0 <= i < |server| && server[i] == RemoveAsked(id) ==>
      Owed(peers, id) || exists j :: i < j < |server| && IsClosed(server[j], id)
  }

  ghost predicate Balanced(server: seq<ServerEvent>, peers: map<Id, Peer>) {
    && (forall id :: ClosedCount(server, id) + (if Owed(peers, id) then 1 else 0) <= Asked(server, id))
    && (forall id :: Owed(peers, id) ==> peers[id].removing)
  }

  /** Viewers wait only until media-net is ready, and are peers only from then on. */
  predicate WaitingFirst(w: State) {
    (w.ready ==> w.waiting == []) && (!w.ready ==> w.peers == map[])
  }

  ghost predicate Inv(w: State) {
    && Told(w.server, w.peers, w.nextSerial) && RemovalsReported(w.server, w.peers) && Balanced(w.server, w.peers)
    && WaitingFirst(w)
  }

  lemma Append(server: seq<ServerEvent>, e: ServerEvent, id: Id)
    ensures Asked(server + [e], id) == Asked(server, id) + if e == RemoveAsked(id) then 1 else 0
    ensures ClosedCount(server + [e], id) == ClosedCount(server, id) + if IsClosed(e, id) then 1 else 0
  {
    assert (server + [e])[..|server|] == server;
  }

  /** A report that is no removal request; the peers may change as it requires. */
  lemma CountsAfter(server: seq<ServerEvent>, e: ServerEvent, peers: map<Id, Peer>, peers': map<Id, Peer>)
    requires RemovalsReported(server, peers) && Balanced(server, peers) && !e.RemoveAsked?
    requires forall id :: Owed(peers', id) ==> Owed(peers, id) && peers'[id].removing && !IsClosed(e, id)
    requires forall id :: Owed(peers, id) ==> Owed(peers', id) || IsClosed(e, id)
    requires forall id :: IsClosed(e, id) ==> Owed(peers, id) && !Owed(peers', id)
    ensures RemovalsReported(server + [e], peers') && Balanced(server + [e], peers')
  {
    var after := server + [e];
    forall id ensures ClosedCount(after, id) + (if Owed(peers', id) then 1 else 0) <= Asked(after, id) {
      Append(server, e, id);
    }
    forall i, id | 0 <= i < |after| && after[i] == RemoveAsked(id)
      ensures Owed(peers', id) || exists j :: i < j < |after| && IsClosed(after[j], id)
    {
      assert server[i] == RemoveAsked(id);
      if !Owed(peers, id) {
        var j :| i < j < |server| && IsClosed(server[j], id);
        assert IsClosed(after[j], id);
      } else if !Owed(peers', id) {
        assert IsClosed(after[|server|], id);
      }
    }
  }

  /** A removal request, answered at once (closed) or owed. */
  lemma CountsAfterAsk(server: seq<ServerEvent>, id: Id, closed: bool, peers: map<Id, Peer>, peers': map<Id, Peer>)
    requires RemovalsReported(server, peers) && Balanced(server, peers)
    requires forall other :: other != id ==> (Owed(peers', other) <==> Owed(peers, other))
    requires forall other :: Owed(peers', other) ==> peers'[other].removing
    requires Owed(peers', id) <==> !closed
    requires closed ==> !Owed(peers, id)
    ensures var after := server + [RemoveAsked(id)] + if closed then [Closed(id, None)] else [];
      RemovalsReported(after, peers') && Balanced(after, peers')
  {
    var asked := server + [RemoveAsked(id)];
    var after := asked + if closed then [Closed(id, None)] else [];
    assert !closed ==> after == asked;
    forall other ensures ClosedCount(after, other) + (if Owed(peers', other) then 1 else 0) <= Asked(after, other) {
      Append(server, RemoveAsked(id), other);
      Append(asked, Closed(id, None), other);
    }
    forall i, other | 0 <= i < |after| && after[i] == RemoveAsked(other)
      ensures Owed(peers', other) || exists j :: i < j < |after| && IsClosed(after[j], other)
    {
      if closed && other == id {
        assert IsClosed(after[|asked|], id);
      } else if i < |server| && !Owed(peers, other) {
        assert server[i] == RemoveAsked(other);
        var j :| i < j < |server| && IsClosed(server[j], other);
        assert IsClosed(after[j], other);
      }
    }
  }

  // ---- Keeping the invariant

  lemma KeepSilent(w: State, w': State)
    requires Inv(w) && Silent(w, w')
    ensures Inv(w')
  {
    hide Asked, ClosedCount, About, InOrder;
    forall id ensures Owed(w'.peers, id) <==> Owed(w.peers, id) {
    }
  }

  /** A report about no viewer in particular. */
  lemma KeepTell(w: State, e: ServerEvent)
    requires Inv(w) && (e.Failed? && e.who == None)
    ensures Inv(Tell(w, e))
  {
    hide Asked, ClosedCount;
    CountsAfter(w.server, e, w.peers, w.peers);
    ToldQuietly(w.server, e, w.peers, w.nextSerial);
  }

  lemma ToldQuietly(server: seq<ServerEvent>, e: ServerEvent, peers: map<Id, Peer>, nextSerial: nat)
    requires Told(server, peers, nextSerial) && forall serial: nat :: !About(e, serial)
    ensures Told(server + [e], peers, nextSerial)
  {
    var after := server + [e];
    forall id, k | id in peers && 0 <= k < |after|
      ensures !Ends(after[k], peers[id].serial) && (Answers(after[k], peers[id].serial) ==> peers[id].answered)
    {
      if k < |server| {
        assert after[k] == server[k];
      } else {
        assert !About(after[k], peers[id].serial);
      }
    }
  }

  lemma KeepAdd(w: State, id: Id, sdp: string)
    requires Inv(w)
    ensures Inv(AddViewer(w, id, sdp))
  {
    hide Told, RemovalsReported, Balanced, Waiting;
    KeepTell(w, Failed(id, None));
    if id !in w.peers {
      ToldNew(w.server, id, w.peers, w.nextSerial);
      CountsNew(w.server, id, w.peers, NewPeer(w.nextSerial));
    }
  }

  lemma ToldNew(server: seq<ServerEvent>, id: Id, peers: map<Id, Peer>, nextSerial: nat)
    requires Told(server, peers, nextSerial) && id !in peers
    ensures Told(server, peers[id := NewPeer(nextSerial)], nextSerial + 1)
  {
    hide InOrder, About;
    forall k | 0 <= k < |server| ensures !Ends(server[k], nextSerial) && !Answers(server[k], nextSerial) {
      assert !About(server[k], nextSerial);
      AboutMeans(server[k], nextSerial);
    }
  }

  lemma CountsNew(server: seq<ServerEvent>, id: Id, peers: map<Id, Peer>, peer: Peer)
    requires RemovalsReported(server, peers) && Balanced(server, peers) && id !in peers && !peer.notifyClosed
    ensures RemovalsReported(server, peers[id := peer]) && Balanced(server, peers[id := peer])
  {
    hide Asked, ClosedCount;
    forall other ensures Owed(peers[id := peer], other) <==> Owed(peers, other) {
    }
  }

  lemma AboutMeans(e: ServerEvent, serial: nat)
    ensures About(e, serial) <==> Ends(e, serial) || Answers(e, serial)
  {
  }

  lemma {:induction false} KeepAddAll(w: State, viewers: seq<(Id, string)>)
    requires Inv(w)
    ensures Inv(AddAll(w, viewers))
    decreases |viewers|
  {
    hide Inv, AddViewer;
    if viewers != [] {
      KeepAdd(w, viewers[0].0, viewers[0].1);
      KeepAddAll(AddViewer(w, viewers[0].0, viewers[0].1), viewers[1..]);
    }
  }

  /** The peer is gone, and with it the last thing said about it. */
  lemma ToldEnd(server: seq<ServerEvent>, e: ServerEvent, id: Id, peers: map<Id, Peer>, nextSerial: nat)
    requires Told(server, peers, nextSerial) && id in peers && Ends(e, peers[id].serial)
    ensures Told(server + [e], peers - {id}, nextSerial)
  {
    var after, s := server + [e], peers[id].serial;
    forall i, j, serial: nat | 0 <= i < j < |after| && About(after[i], serial) && About(after[j], serial)
      ensures Answers(after[i], serial) && Ends(after[j], serial)
    {
      assert after[i] == server[i];
      if j == |server| {
        assert serial == s;
      } else {
        assert after[j] == server[j];
      }
    }
    forall k, serial: nat | 0 <= k < |after| && About(after[k], serial) ensures serial < nextSerial {
      if k < |server| {
        assert after[k] == server[k];
      }
    }
  }

  lemma ToldAnswer(server: seq<ServerEvent>, id: Id, sdp: string, peers: map<Id, Peer>, nextSerial: nat)
    requires Told(server, peers, nextSerial) && id in peers && !peers[id].answered
    ensures Told(server + [Answered(id, peers[id].serial, sdp)], peers[id := peers[id].(answered := true)], nextSerial)
  {
    var after, s := server + [Answered(id, peers[id].serial, sdp)], peers[id].serial;
    forall i, j, serial: nat | 0 <= i < j < |after| && About(after[i], serial) && About(after[j], serial)
      ensures Answers(after[i], serial) && Ends(after[j], serial)
    {
      assert after[i] == server[i];
      if j == |server| {
        assert false;
      } else {
        assert after[j] == server[j];
      }
    }
    forall k, serial: nat | 0 <= k < |after| && About(after[k], serial) ensures serial < nextSerial {
      if k < |server| {
        assert after[k] == server[k];
      }
    }
    var peers' := peers[id := peers[id].(answered := true)];
    forall other, k | other in peers' && 0 <= k < |after|
      ensures !Ends(after[k], peers'[other].serial)
      ensures Answers(after[k], peers'[other].serial) ==> peers'[other].answered
    {
      if k < |server| {
        assert after[k] == server[k];
      }
    }
  }

  lemma ToldGone(server: seq<ServerEvent>, id: Id, peers: map<Id, Peer>, nextSerial: nat)
    requires Told(server, peers, nextSerial)
    ensures Told(server, peers - {id}, nextSerial)
  {
  }

  lemma KeepRemove(w: State, id: Id, ok: Oracle)
    requires Inv(w)
    ensures Inv(RemoveViewer(Tell(w, RemoveAsked(id)), id, true, ok))
  {
    hide Told, RemovalsReported, Balanced, Waiting, Without, BeginRemoval;
    var asked := w.server + [RemoveAsked(id)];
    ToldQuietly(w.server, RemoveAsked(id), w.peers, w.nextSerial);
    if Waiting(w.waiting, id) || id !in w.peers {
      ToldQuietly(asked, Closed(id, None), w.peers, w.nextSerial);
      if Waiting(w.waiting, id) {
        WaitingIsNoPeer(w, id);
      }
      OwedRemoving(w);
      CountsAfterAsk(w.server, id, true, w.peers, w.peers);
      StillWaiting(w, id);
    } else {
      KeepRemovePeer(w, id, ok);
    }
  }

  lemma StillWaiting(w: State, id: Id)
    requires WaitingFirst(w)
    ensures WaitingFirst(w.(waiting := Without(w.waiting, id)))
  {
  }

  lemma WaitingIsNoPeer(w: State, id: Id)
    requires WaitingFirst(w) && Waiting(w.waiting, id)
    ensures id !in w.peers
  {
  }

  lemma OwedRemoving(w: State)
    requires Balanced(w.server, w.peers)
    ensures forall id :: Owed(w.peers, id) ==> w.peers[id].removing
  {
  }

  lemma KeepRemovePeer(w: State, id: Id, ok: Oracle)
    requires Inv(w) && id in w.peers && !Waiting(w.waiting, id)
    ensures Inv(RemoveViewer(Tell(w, RemoveAsked(id)), id, true, ok))
  {
    hide Told, RemovalsReported, Balanced, RemoveViewer;
    var w' := RemoveViewer(Tell(w, RemoveAsked(id)), id, true, ok);
    RemovalNoted(w, id, ok);
    ToldQuietly(w.server, RemoveAsked(id), w.peers, w.nextSerial);
    OwedRemoving(w);
    assert w'.server + [] == w'.server;
    ToldSame(w'.server, w.peers, w'.peers, w.nextSerial);
    CountsAfterAsk(w.server, id, false, w.peers, w'.peers);
  }

  lemma RemovalNoted(w: State, id: Id, ok: Oracle)
    requires id in w.peers && !Waiting(w.waiting, id)
    ensures var w', p := RemoveViewer(Tell(w, RemoveAsked(id)), id, true, ok), w.peers[id];
      && w'.server == w.server + [RemoveAsked(id)] && w'.nextSerial == w.nextSerial
      && w'.waiting == w.waiting && w'.ready == w.ready
      && w'.peers == w.peers[id := p.(notifyClosed := true, removing := true, control := p.removing && p.control)]
  {
    hide Waiting, Without, BeginRemoval;
  }

  lemma ToldSame(server: seq<ServerEvent>, peers: map<Id, Peer>, peers': map<Id, Peer>, nextSerial: nat)
    requires Told(server, peers, nextSerial) && peers'.Keys == peers.Keys
    requires forall id :: id in peers ==> peers'[id].serial == peers[id].serial && peers'[id].answered == peers[id].answered
    ensures Told(server, peers', nextSerial)
  {
    hide InOrder, About;
  }

  lemma KeepAnswer(w: State, id: Id, sdp: string)
    requires Inv(w) && id in w.peers && !w.peers[id].answered
    ensures Inv(Tell(SetPeer(w, id, w.peers[id].(answered := true)), Answered(id, w.peers[id].serial, sdp)))
  {
    hide Told, RemovalsReported, Balanced;
    ToldAnswer(w.server, id, sdp, w.peers, w.nextSerial);
    OwedRemoving(w);
    CountsAfter(w.server, Answered(id, w.peers[id].serial, sdp), w.peers, w.peers[id := w.peers[id].(answered := true)]);
  }

  lemma KeepFail(w: State, id: Id, ok: Oracle)
    requires Inv(w) && id in w.peers && !w.peers[id].removing
    ensures Inv(FailPeer(w, id, ok))
  {
    hide Told, RemovalsReported, Balanced, RevokePeer;
    OwedRemoving(w);
    var e := Failed(id, Some(w.peers[id].serial));
    ToldEnd(w.server, e, id, w.peers, w.nextSerial);
    CountsAfter(w.server, e, w.peers, w.peers - {id});
    var w' := FailPeer(w, id, ok);
    assert w'.peers == w.peers - {id};
  }

  lemma KeepClose(w: State, id: Id, ok: Oracle)
    requires Inv(w) && id in w.peers
    ensures Inv(ClosePeer(w, id, ok))
  {
    hide Told, RemovalsReported, Balanced, ReleaseHeld;
    OwedRemoving(w);
    var e := Closed(id, Some(w.peers[id].serial));
    if w.peers[id].notifyClosed {
      ToldEnd(w.server, e, id, w.peers, w.nextSerial);
      CountsAfter(w.server, e, w.peers, w.peers - {id});
    } else {
      ToldGone(w.server, id, w.peers, w.nextSerial);
      CountsWithout(w.server, id, w.peers);
    }
  }

  lemma CountsWithout(server: seq<ServerEvent>, id: Id, peers: map<Id, Peer>)
    requires RemovalsReported(server, peers) && Balanced(server, peers) && !Owed(peers, id)
    ensures RemovalsReported(server, peers - {id}) && Balanced(server, peers - {id})
  {
    hide Asked, ClosedCount;
    forall other ensures Owed(peers - {id}, other) <==> Owed(peers, other) {
    }
  }

  lemma KeepNet(w: State, message: NetMessage, ok: Oracle)
    requires Inv(w) && (message.NetReady? || message.NetAnswer? || message.NetFailed? || message.NetClosed?)
    ensures Inv(FromNet(w, message, ok))
  {
    hide Told, RemovalsReported, Balanced, AddAll, FailPeer, ClosePeer;
    if !w.started {
      return;
    }
    match message
    case NetReady => KeepAddAll(w.(ready := true, waiting := []), w.waiting);
    case NetAnswer(id, sdp) => if id in w.peers && !w.peers[id].answered { KeepAnswer(w, id, sdp); }
    case NetFailed(id) => if id in w.peers && !w.peers[id].removing { KeepFail(w, id, ok); }
    case NetClosed(id) => if id in w.peers { KeepClose(w, id, ok); }
  }

  lemma KeepApply(w: State, e: Event, ok: Oracle)
    requires Inv(w)
    ensures Inv(Apply(w, e, ok))
  {
    hide Inv, Silent, FromNet, RemoveViewer, AddViewer, ReleaseHeld;
    if w.stopped || !Lively(e) {
      StoppedIsSilent(w, e, ok);
      KeepSilent(w, Apply(w, e, ok));
    } else {
      SilentItself(w);
      SilentStop(w);
      KeepSilent(w, Stop(w));
      match e
      case Start(video) => KeepStart(w, video);
      case Add(id, sdp) => KeepAdd(w, id, sdp);
      case Remove(id) => KeepRemove(w, id, ok);
      case Net(message) => KeepNet(w, message, ok);
    }
  }

  lemma KeepStart(w: State, video: bool)
    requires Inv(w)
    ensures Inv(Send(w.(started := true, videoEnabled := video), Configure))
  {
  }

  lemma SilentStop(w: State)
    ensures Silent(w, Stop(w))
  {
  }

  lemma StoppedIsSilent(w: State, e: Event, ok: Oracle)
    requires w.stopped || !Lively(e)
    ensures Silent(w, Apply(w, e, ok))
  {
    if !Lively(e) {
      OthersAreSilent(w, e, ok);
    }
  }

  lemma {:induction false} InvAlways(events: seq<Event>, ok: Oracle)
    ensures Inv(Run(events, ok))
  {
    hide Apply;
    if events != [] {
      InvAlways(events[..|events| - 1], ok);
      KeepApply(Run(events[..|events| - 1], ok), events[|events| - 1], ok);
    }
  }

  // ---- The results, for any messages from media-net

  /** The server gets at most one answer for a viewer, at most one end, and no answer after it. */
  lemma AnswersInOrder(events: seq<Event>, ok: Oracle, i: nat, j: nat, serial: nat)
    requires var server := Run(events, ok).server;
      i < j < |server| && About(server[i], serial) && About(server[j], serial)
    ensures Answers(Run(events, ok).server[i], serial) && Ends(Run(events, ok).server[j], serial)
  {
    InvAlways(events, ok);
  }

  /** Reports of a removal never outnumber the removals the server asked for. */
  lemma ClosedNeverOutnumber(events: seq<Event>, ok: Oracle, id: Id)
    ensures ClosedCount(Run(events, ok).server, id) <= Asked(Run(events, ok).server, id)
  {
    InvAlways(events, ok);
  }

  /** Each removal asked for is reported afterwards, unless the worker still waits for media-net. */
  lemma RemovalReported(events: seq<Event>, ok: Oracle, i: nat, id: Id)
    requires i < |Run(events, ok).server| && Run(events, ok).server[i] == RemoveAsked(id)
    ensures var w := Run(events, ok);
      (id in w.peers && w.peers[id].removing && w.peers[id].notifyClosed)
      || exists j :: i < j < |w.server| && w.server[j].Closed? && w.server[j].id == id
  {
    InvAlways(events, ok);
    var w := Run(events, ok);
    if !Owed(w.peers, id) {
      var j :| i < j < |w.server| && IsClosed(w.server[j], id);
      assert w.server[j].Closed?;
    }
  }
}
