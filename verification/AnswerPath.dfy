/**
 The way of a viewer's connection and its answer: media-net makes what the worker asks it for, and
 an answer arrives at the server from the moment gathering is complete, unless its viewer has ended
 meanwhile; nothing else is ever given for an answer.
 */
module AnswerPath {
  import opened Bytes
  import opened Permission
  import opened Worker
  import opened ViewerAnswers
  import opened ViewerFates
  import C = WorkerConduct
  import I = InputLaws
  import L = WorkerLife
  import M = MediaNet
  import O = MediaOutcomes
  import P = Protocol
  import V = ViewerReports

  // ---- media-net

  predicate Answers(r: M.Report, id: Id) {
    r.message.NetAnswer? && r.message.id == id
  }

  predicate AnsweredBy(out: seq<M.Report>, n: nat, id: Id) {
    exists k :: 0 <= k < n && k < |out| && Answers(out[k], id)
  }

  /** One step: an answer is for a connection that had none, and no other peer forgets its answer. */
  ghost predicate NetMoves(n: M.Network, n': M.Network, added: Option<Id>) {
    && n.out <= n'.out
    && (forall k :: |n.out| <= k < |n'.out| && n'.out[k].message.NetAnswer? ==>
          && k == |n.out| && n'.out[k].who.Some?
          && var id := n'.out[k].message.id;
             id in n.peers && !n.peers[id].answered && id in n'.peers && n'.peers[id].answered)
    && (forall id :: id in n'.peers ==>
          (id in n.peers && (n.peers[id].answered ==> n'.peers[id].answered)) || added == Some(id))
  }

  predicate NoAnswer(out: seq<M.Report>, out': seq<M.Report>) {
    out <= out' && forall k :: |out| <= k < |out'| ==> !out'[k].message.NetAnswer?
  }

  lemma MovesBoth(a: M.Network, b: M.Network, c: M.Network, added: Option<Id>)
    requires NetMoves(a, b, added) && NoAnswer(a.out, b.out) && NetMoves(b, c, None) && NoAnswer(b.out, c.out)
    ensures NetMoves(a, c, added) && NoAnswer(a.out, c.out)
  {
    assert forall k :: |a.out| <= k < |b.out| ==> c.out[k] == b.out[k];
  }

  lemma RemoveMoves(n: M.Network, id: Id)
    ensures NetMoves(n, M.Remove(n, id), None) && NoAnswer(n.out, M.Remove(n, id).out)
  {
  }

  lemma FailMoves(n: M.Network, id: Id)
    requires id in n.peers
    ensures NetMoves(n, M.FailPeer(n, id), None) && NoAnswer(n.out, M.FailPeer(n, id).out)
  {
    hide M.Remove;
    var n1 := M.Emit(n, NetFailed(id), Some(n.peers[id].index));
    RemoveMoves(n1, id);
    MovesBoth(n, n1, M.Remove(n1, id), None);
  }

  lemma AddMoves(n: M.Network, id: Id, outcome: M.Outcome)
    ensures NetMoves(n, M.Add(n, id, outcome), Some(id))
  {
    hide M.FailPeer;
    if n.configured && id !in n.peers && outcome.LinkFailed? {
      var n1 := M.Inserted(n, id, outcome.pads);
      FailMoves(n1, id);
      MovesBoth(n, n1, M.FailPeer(n1, id), Some(id));
    }
  }

  lemma UnlinkMoves(n: M.Network, ref: M.Ref)
    requires ref in n.unlinks
    ensures NetMoves(n, M.Unlinked(n, ref), None)
  {
  }

  lemma AnswerMoves(n: M.Network, ref: M.Ref, sdp: Option<string>)
    ensures NetMoves(n, M.AnswerTask(n, ref, sdp), None)
  {
  }

  /** Only a message about no viewer is said, or nothing. */
  lemma SaysMoves(n: M.Network, n': M.Network, message: NetMessage, added: Option<Id>)
    requires n'.peers == n.peers && (n'.out == n.out || n'.out == n.out + [M.Report(message, None)]) && !message.NetAnswer?
    ensures NetMoves(n, n', added)
  {
  }

  lemma StepMoves(n: M.Network, step: M.Step)
    ensures NetMoves(n, M.Apply(n, step), if step.CommandStep? && step.command.AddPeer? then Some(step.command.id) else None)
  {
    hide M.Remove, M.FailPeer, M.Add, M.Unlinked, M.AnswerTask, ValidPeerId, NetMoves;
    SaysMoves(n, n, NetFatal, None);
    if step.CommandStep? {
      CommandMoves(n, step.command, step.outcome);
      SaysMoves(n, n, NetFatal, if step.command.AddPeer? then Some(step.command.id) else None);
      return;
    }
    match step
    case AnswerStep(ref, sdp) => AnswerMoves(n, ref, sdp);
    case FailStep(ref) => if M.Finds(n, ref) { FailMoves(n, ref.id); }
    case UnlinkStep(ref) => if ref in n.unlinks { UnlinkMoves(n, ref); }
    case ChatterStep(message) => if !message.NetAnswer? { SaysMoves(n, M.Apply(n, step), message, None); }
    case LoadStep(complete) => SaysMoves(n, M.Apply(n, step), if complete then NetReady else NetFatal, None);
    case BusErrorStep => SaysMoves(n, M.Apply(n, step), NetFatal, None);
    case SilentEndStep => SaysMoves(n, M.Apply(n, step), NetFatal, None);
  }

  lemma CommandMoves(n: M.Network, command: NetCommand, outcome: M.Outcome)
    ensures NetMoves(n, M.Command(n, command, outcome), if command.AddPeer? then Some(command.id) else None)
  {
    hide M.Remove, M.Add, ValidPeerId, NetMoves;
    SaysMoves(n, M.Fatal(n), NetFatal, None);
    match command {
      case AddPeer(id, _) =>
        AddMoves(n, id, outcome);
        SaysMoves(n, M.Fatal(n), NetFatal, Some(id));
      case RemovePeer(id) => RemoveMoves(n, id);
      case Configure => SaysMoves(n, M.Command(n, command, outcome), NetFatal, None);
      case ControlState(_, _) => SaysMoves(n, n, NetFatal, None);
    }
  }

  /** The add-peer command for the viewer has reached media-net. */
  predicate Taken(commands: seq<NetCommand>, sent: nat, id: Id) {
    exists j :: 0 <= j < sent && j < |commands| && commands[j].AddPeer? && commands[j].id == id
  }

  predicate OncePerId(out: seq<M.Report>) {
    forall i, j :: 0 <= i < j < |out| && out[i].message.NetAnswer? && out[j].message.NetAnswer? ==>
      out[i].message.id != out[j].message.id
  }

  ghost predicate NetPart(commands: seq<NetCommand>, sent: nat, peers: map<Id, M.NetPeer>, out: seq<M.Report>) {
    && OncePerId(out)
    && (forall k :: 0 <= k < |out| && out[k].message.NetAnswer? ==>
          var id := out[k].message.id;
          out[k].who.Some? && Taken(commands, sent, id) && (id in peers ==> peers[id].answered))
    && (forall id :: id in peers ==> Taken(commands, sent, id))
  }

  lemma TakenMore(a: seq<NetCommand>, b: seq<NetCommand>, sent: nat, sent': nat, id: Id)
    requires Taken(a, sent, id) && a <= b && sent <= sent'
    ensures Taken(b, sent', id)
  {
    var j :| 0 <= j < sent && j < |a| && a[j].AddPeer? && a[j].id == id;
    assert b[j] == a[j];
  }

  lemma NetPartMore(a: seq<NetCommand>, b: seq<NetCommand>, sent: nat, sent': nat, peers: map<Id, M.NetPeer>, out: seq<M.Report>)
    requires NetPart(a, sent, peers, out) && a <= b && sent <= sent'
    ensures NetPart(b, sent', peers, out)
  {
    forall id | Taken(a, sent, id) ensures Taken(b, sent', id) {
      TakenMore(a, b, sent, sent', id);
    }
  }

  /** A step of media-net; whom it adds has never been answered. */
  lemma NetPartMoves(commands: seq<NetCommand>, sent: nat, n: M.Network, n': M.Network, added: Option<Id>)
    requires NetPart(commands, sent, n.peers, n.out) && NetMoves(n, n', added)
    requires added.Some? ==> Taken(commands, sent, added.value) && !AnsweredBy(n.out, |n.out|, added.value)
    ensures NetPart(commands, sent, n'.peers, n'.out)
  {
    hide Taken;
    forall k | 0 <= k < |n'.out| && n'.out[k].message.NetAnswer?
      ensures var id := n'.out[k].message.id;
        n'.out[k].who.Some? && Taken(commands, sent, id) && (id in n'.peers ==> n'.peers[id].answered)
    {
      if k < |n.out| {
        assert n'.out[k] == n.out[k] && Answers(n.out[k], n.out[k].message.id);
      }
    }
    forall i, j | 0 <= i < j < |n'.out| && n'.out[i].message.NetAnswer? && n'.out[j].message.NetAnswer?
      ensures n'.out[i].message.id != n'.out[j].message.id
    {
      assert i < |n.out| && n'.out[i] == n.out[i];
      if j < |n.out| {
        assert n'.out[j] == n.out[j];
      }
    }
  }

  // ---- The worker

  /** One event: peers keep who they are, and only `told` can be answered. */
  ghost predicate WorkerMoves(w: State, w': State, told: Option<Id>) {
    && w.commands <= w'.commands && w.server <= w'.server
    && (forall id :: id in w'.peers ==>
          if id in w.peers then
            && w'.peers[id].serial == w.peers[id].serial && (w.peers[id].removing ==> w'.peers[id].removing)
            && (w'.peers[id].answered ==> w.peers[id].answered || told == Some(id))
          else !w'.peers[id].answered)
    && (forall k :: |w.server| <= k < |w'.server| && w'.server[k].Answered? ==> told == Some(w'.server[k].id))
  }

  lemma SilentMoves(w: State, w': State)
    requires L.Silent(w, w')
    ensures WorkerMoves(w, w', None)
  {
    forall id | id in w'.peers ensures id in w.peers && L.SameLife(w.peers[id], w'.peers[id]) {
      assert id in w.peers.Keys;
    }
  }

  lemma AddViewerMoves(w: State, id: Id, sdp: string)
    ensures WorkerMoves(w, AddViewer(w, id, sdp), None)
    ensures forall other :: other in w.peers ==> other in AddViewer(w, id, sdp).peers
  {
    hide ValidPeerId, Waiting;
  }

  lemma MovesOnBoth(a: State, b: State, c: State)
    requires WorkerMoves(a, b, None) && WorkerMoves(b, c, None)
    requires forall id :: id in a.peers ==> id in b.peers
    ensures WorkerMoves(a, c, None)
  {
    assert forall k :: |a.server| <= k < |b.server| ==> c.server[k] == b.server[k];
  }

  lemma {:induction false} AddAllMoves(w: State, viewers: seq<(Id, string)>)
    ensures WorkerMoves(w, AddAll(w, viewers), None)
    decreases |viewers|
  {
    hide AddViewer;
    if viewers != [] {
      var w1 := AddViewer(w, viewers[0].0, viewers[0].1);
      AddViewerMoves(w, viewers[0].0, viewers[0].1);
      AddAllMoves(w1, viewers[1..]);
      MovesOnBoth(w, w1, AddAll(w, viewers));
    }
  }

  lemma RemoveMovesOn(w: State, id: Id, ok: Oracle)
    requires V.WaitingFirst(w)
    ensures WorkerMoves(w, RemoveViewer(Tell(w, RemoveAsked(id)), id, true, ok), None)
  {
    hide Waiting, Without, RemoveViewer;
    RemoveCommands(w, id, ok);
    if id in w.peers {
      if Waiting(w.waiting, id) {
        V.WaitingIsNoPeer(w, id);
      } else {
        V.RemovalNoted(w, id, ok);
      }
    } else {
      AbsentRemoved(w, id, ok);
    }
  }

  lemma RemoveCommands(w: State, id: Id, ok: Oracle)
    ensures w.commands <= RemoveViewer(Tell(w, RemoveAsked(id)), id, true, ok).commands
  {
    hide Waiting, Without, BeginRemoval;
  }

  lemma FromNetMoves(w: State, message: NetMessage, ok: Oracle)
    requires message.NetReady? || message.NetAnswer? || message.NetFailed? || message.NetClosed?
    ensures WorkerMoves(w, FromNet(w, message, ok), if message.NetAnswer? then Some(message.id) else None)
  {
    hide FailPeer, ClosePeer, AddAll;
    if message.NetReady? {
      var w1 := w.(ready := true, waiting := []);
      AddAllMoves(w1, w.waiting);
    }
  }

  lemma EventMoves(w: State, e: Event, ok: Oracle)
    requires V.WaitingFirst(w)
    ensures WorkerMoves(w, Apply(w, e, ok), if e.Net? && e.message.NetAnswer? then Some(e.message.id) else None)
  {
    hide WorkerMoves, L.Silent, FromNet, RemoveViewer, AddViewer, ReleaseHeld;
    if w.stopped || !L.Lively(e) {
      V.StoppedIsSilent(w, e, ok);
      SilentMoves(w, Apply(w, e, ok));
      MovesMore(w, Apply(w, e, ok), if e.Net? && e.message.NetAnswer? then Some(e.message.id) else None);
    } else {
      V.SilentStop(w);
      SilentMoves(w, Stop(w));
      match e
      case Start(video) => StartMoves(w, video);
      case Add(id, sdp) => AddViewerMoves(w, id, sdp);
      case Remove(id) => RemoveMovesOn(w, id, ok);
      case Net(message) => FromNetMoves(w, message, ok);
    }
  }

  lemma MovesMore(w: State, w': State, told: Option<Id>)
    requires WorkerMoves(w, w', None)
    ensures WorkerMoves(w, w', told)
  {
  }

  lemma StartMoves(w: State, video: bool)
    ensures WorkerMoves(w, Send(w.(started := true, videoEnabled := video), Configure), None)
  {
  }

  /** An answer that the worker passes on. */
  predicate Sized(sdp: string) {
    1 <= |sdp| <= 65536
  }

  predicate Heard(out: seq<M.Report>, heard: nat, id: Id, sdp: string) {
    exists k :: 0 <= k < heard && k < |out| && out[k].message == NetAnswer(id, sdp)
  }

  /** What was heard of a peer has been told; nothing else has. */
  ghost predicate WorkerPart(peers: map<Id, Peer>, server: seq<ServerEvent>, out: seq<M.Report>, heard: nat) {
    && (forall id :: id in peers && peers[id].answered ==> AnsweredBy(out, heard, id))
    && (forall k :: 0 <= k < heard && k < |out| && out[k].message.NetAnswer? ==>
          var id, sdp := out[k].message.id, out[k].message.sdp;
          Sized(sdp) && id in peers && !peers[id].removing ==> Answered(id, peers[id].serial, sdp) in server)
    && (forall e :: e in server && e.Answered? ==> Sized(e.sdp) && Heard(out, heard, e.id, e.sdp))
  }

  /** An event other than an answer. */
  lemma WorkerPartMoves(w: State, w': State, out: seq<M.Report>, heard: nat, heard': nat)
    requires WorkerPart(w.peers, w.server, out, heard) && WorkerMoves(w, w', None)
    requires heard' == heard || (heard' == heard + 1 && heard < |out| && !out[heard].message.NetAnswer?)
    requires forall id :: id in w'.peers && id !in w.peers ==> !AnsweredBy(out, |out|, id)
    ensures WorkerPart(w'.peers, w'.server, out, heard')
  {
    forall id | AnsweredBy(out, heard, id) ensures AnsweredBy(out, heard', id) {
      var k :| 0 <= k < heard && k < |out| && Answers(out[k], id);
      assert k < heard';
    }
    forall k | 0 <= k < heard' && k < |out| && out[k].message.NetAnswer?
      ensures var id, sdp := out[k].message.id, out[k].message.sdp;
        Sized(sdp) && id in w'.peers && !w'.peers[id].removing ==> Answered(id, w'.peers[id].serial, sdp) in w'.server
    {
      assert Answers(out[k], out[k].message.id);
    }
    forall e | e in w'.server && e.Answered? ensures Sized(e.sdp) && Heard(out, heard', e.id, e.sdp) {
      var k :| 0 <= k < |w'.server| && w'.server[k] == e;
      assert k < |w.server| && e in w.server;
    }
  }

  /** The worker takes an answer: the first for its viewer. */
  lemma WorkerPartAnswers(w: State, out: seq<M.Report>, heard: nat, ok: Oracle)
    requires WorkerPart(w.peers, w.server, out, heard) && OncePerId(out) && w.started && !w.stopped
    requires heard < |out| && out[heard].message.NetAnswer?
    ensures var w' := FromNet(w, out[heard].message, ok); WorkerPart(w'.peers, w'.server, out, heard + 1)
  {
    var id, sdp, w' := out[heard].message.id, out[heard].message.sdp, FromNet(w, out[heard].message, ok);
    assert Answers(out[heard], id);
    forall e | e in w'.server && e.Answered? ensures Sized(e.sdp) && Heard(out, heard + 1, e.id, e.sdp) {
      var k :| 0 <= k < |w'.server| && w'.server[k] == e;
      if k < |w.server| {
        assert e in w.server;
      } else {
        assert out[heard].message == NetAnswer(e.id, e.sdp);
      }
    }
  }

  /** More is said that has not been heard. */
  lemma WorkerPartSaid(peers: map<Id, Peer>, server: seq<ServerEvent>, out: seq<M.Report>, out': seq<M.Report>, heard: nat)
    requires WorkerPart(peers, server, out, heard) && out <= out' && heard <= |out|
    ensures WorkerPart(peers, server, out', heard)
  {
    forall id | AnsweredBy(out, heard, id) ensures AnsweredBy(out', heard, id) {
      var k :| 0 <= k < heard && k < |out| && Answers(out[k], id);
      assert out'[k] == out[k];
    }
    forall k | 0 <= k < heard ensures out'[k] == out[k] {
    }
    forall e | e in server && e.Answered? ensures Heard(out', heard, e.id, e.sdp) {
      var k :| 0 <= k < heard && k < |out| && out[k].message == NetAnswer(e.id, e.sdp);
      assert out'[k] == out[k];
    }
  }

  // ---- Both

  ghost predicate AnswerInv(s: P.System) {
    NetPart(s.w.commands, s.sent, s.n.peers, s.n.out) && WorkerPart(s.w.peers, s.w.server, s.n.out, s.heard)
  }

  lemma {:induction false} TakenIsSent(commands: seq<NetCommand>, j: nat)
    requires j < |commands| && commands[j].AddPeer?
    ensures Waiting(Sent(commands), commands[j].id)
  {
    var i := WhereSent(commands, j);
    assert Sent(commands)[i].0 == commands[j].id;
  }

  lemma SentTwice(commands: seq<NetCommand>, j: nat, k: nat)
    requires j < k < |commands| && commands[j].AddPeer? && commands[k].AddPeer? && commands[j].id == commands[k].id
    ensures !Distinct(Sent(commands))
  {
    var a := WhereSent(commands, j);
    var b := WhereSent(commands, k);
    var c := WhereSent(commands[..k], j);
    assert commands[..k][..j] == commands[..j];
    assert a < b;
  }

  /** Whoever is answered has been sent on, so it is nobody who becomes a peer now. */
  lemma NewIsUnanswered(s: P.System, e: Event, ok: Oracle, offers: map<Id, string>, id: Id)
    requires P.Inv(s) && FateInv(s, offers) && AnswerInv(s) && !s.w.stopped && !Apply(s.w, e, ok).stopped
    requires e.Add? ==> e.id !in s.used
    requires e.Net? && e.message.NetClosed? && e.message.id in s.w.peers ==> s.w.peers[e.message.id].notifyClosed
    requires id in Apply(s.w, e, ok).peers && id !in s.w.peers
    ensures !AnsweredBy(s.n.out, |s.n.out|, id)
  {
    hide P.Inv, Apply, Sent, ValidPeerId, OncePerId, WorkerPart, ReportedSince;
    UsedMeans(s);
    EventFates(s.w, e, ok);
    SendsOnAre(s, e, offers, if e.Add? then offers[e.id := e.sdp] else offers);
    if AnsweredBy(s.n.out, |s.n.out|, id) {
      var k :| 0 <= k < |s.n.out| && Answers(s.n.out[k], id);
      assert Taken(s.w.commands, s.sent, id);
      var j :| 0 <= j < s.sent && j < |s.w.commands| && s.w.commands[j].AddPeer? && s.w.commands[j].id == id;
      TakenIsSent(s.w.commands, j);
    }
  }

  lemma ServerAnswers(s: P.System, e: Event, ok: Oracle, offers: map<Id, string>)
    requires P.Inv(s) && FateInv(s, offers) && AnswerInv(s) && !s.w.stopped && !Apply(s.w, e, ok).stopped
    requires !e.Net? && (e.Add? ==> e.id !in s.used)
    ensures var w' := Apply(s.w, e, ok);
      NetPart(w'.commands, s.sent, s.n.peers, s.n.out) && WorkerPart(w'.peers, w'.server, s.n.out, s.heard)
  {
    hide P.Inv, FateInv, Apply, NetPart, WorkerPart, AnsweredBy;
    var w' := Apply(s.w, e, ok);
    UsedMeans(s);
    EventMoves(s.w, e, ok);
    MovesOn(s.w, w', None);
    NetPartMore(s.w.commands, w'.commands, s.sent, s.sent, s.n.peers, s.n.out);
    forall id | id in w'.peers && id !in s.w.peers ensures !AnsweredBy(s.n.out, |s.n.out|, id) {
      NewIsUnanswered(s, e, ok, offers, id);
    }
    WorkerPartMoves(s.w, w', s.n.out, s.heard, s.heard);
  }

  lemma MovesOn(w: State, w': State, told: Option<Id>)
    requires WorkerMoves(w, w', told)
    ensures w.commands <= w'.commands
  {
  }

  lemma HearAnswers(s: P.System, ok: Oracle, offers: map<Id, string>)
    requires P.Inv(s) && FateInv(s, offers) && AnswerInv(s) && !s.w.stopped && s.w.started && s.heard < |s.n.out|
    requires !Apply(s.w, Net(s.n.out[s.heard].message), ok).stopped
    ensures var w' := Apply(s.w, Net(s.n.out[s.heard].message), ok);
      NetPart(w'.commands, s.sent, s.n.peers, s.n.out) && WorkerPart(w'.peers, w'.server, s.n.out, s.heard + 1)
  {
    hide P.Inv, FateInv, Apply, NetPart, WorkerPart, AnsweredBy, WorkerMoves, FromNet;
    var message := s.n.out[s.heard].message;
    var e, w' := Net(message), Apply(s.w, Net(message), ok);
    UsedMeans(s);
    EventMoves(s.w, e, ok);
    MovesOn(s.w, w', if message.NetAnswer? then Some(message.id) else None);
    NetPartMore(s.w.commands, w'.commands, s.sent, s.sent, s.n.peers, s.n.out);
    if message.NetAnswer? {
      NetPartOnce(s);
      WorkerPartAnswers(s.w, s.n.out, s.heard, ok);
      P.HearingIsApply(s, ok);
    } else {
      if message.NetClosed? {
        ClosedIsOwed(s, offers);
      }
      forall id | id in w'.peers && id !in s.w.peers ensures !AnsweredBy(s.n.out, |s.n.out|, id) {
        NewIsUnanswered(s, e, ok, offers, id);
      }
      WorkerPartMoves(s.w, w', s.n.out, s.heard, s.heard + 1);
    }
  }

  lemma NetPartOnce(s: P.System)
    requires AnswerInv(s)
    ensures OncePerId(s.n.out)
  {
  }

  /** media-net handles the next command, for a viewer that is new to it if it is an add-peer. */
  lemma DeliverAnswers(s: P.System, outcome: M.Outcome, offers: map<Id, string>)
    requires P.Inv(s) && FateInv(s, offers) && AnswerInv(s) && !s.w.stopped && s.sent < |s.w.commands|
    ensures var n' := M.Apply(s.n, M.CommandStep(s.w.commands[s.sent], outcome));
      NetPart(s.w.commands, s.sent + 1, n'.peers, n'.out) && WorkerPart(s.w.peers, s.w.server, n'.out, s.heard)
  {
    hide FateInv, M.Apply, WorkerPart, P.Inv, OncePerId;
    var c, step := s.w.commands[s.sent], M.CommandStep(s.w.commands[s.sent], outcome);
    var n' := M.Apply(s.n, step);
    StepMoves(s.n, step);
    NetPartMore(s.w.commands, s.w.commands, s.sent, s.sent + 1, s.n.peers, s.n.out);
    if c.AddPeer? && AnsweredBy(s.n.out, |s.n.out|, c.id) {
      var k :| 0 <= k < |s.n.out| && Answers(s.n.out[k], c.id);
      assert Taken(s.w.commands, s.sent, c.id);
      var j :| 0 <= j < s.sent && j < |s.w.commands| && s.w.commands[j].AddPeer? && s.w.commands[j].id == c.id;
      SentTwice(s.w.commands, j, s.sent);
      SentDistinct(s, offers);
    }
    NetPartMoves(s.w.commands, s.sent + 1, s.n, n', if c.AddPeer? then Some(c.id) else None);
    HeardIn(s);
    WorkerPartSaid(s.w.peers, s.w.server, s.n.out, n'.out, s.heard);
  }

  lemma SentDistinct(s: P.System, offers: map<Id, string>)
    requires FateInv(s, offers)
    ensures Distinct(Sent(s.w.commands))
  {
  }

  lemma HeardIn(s: P.System)
    requires P.Inv(s) && !s.w.stopped
    ensures s.heard <= |s.n.out|
  {
    hide V.Inv, C.Conduct, M.Inv;
  }

  lemma TaskAnswers(s: P.System, step: M.Step)
    requires P.Inv(s) && AnswerInv(s) && !s.w.stopped && !step.CommandStep?
    ensures var n' := M.Apply(s.n, step);
      NetPart(s.w.commands, s.sent, n'.peers, n'.out) && WorkerPart(s.w.peers, s.w.server, n'.out, s.heard)
  {
    hide P.Inv, M.Apply, NetPart, WorkerPart;
    var n' := M.Apply(s.n, step);
    StepMoves(s.n, step);
    NetPartMoves(s.w.commands, s.sent, s.n, n', None);
    HeardIn(s);
    WorkerPartSaid(s.w.peers, s.w.server, s.n.out, n'.out, s.heard);
  }

  lemma AnswerStep(s: P.System, step: P.Step, ok: Oracle, offers: map<Id, string>)
    requires P.Inv(s) && FateInv(s, offers) && AnswerInv(s) && !s.w.stopped && !P.Apply(s, step, ok).w.stopped
    ensures AnswerInv(P.Apply(s, step, ok))
  {
    hide P.Inv, FateInv, Apply, M.Apply, NetPart, WorkerPart;
    match step
    case Server(e) => if !e.Net? && !(e.Add? && e.id in s.used) { ServerAnswers(s, e, ok, offers); }
    case Hear => if s.w.started && s.heard < |s.n.out| { HearAnswers(s, ok, offers); }
    case Deliver(outcome) =>
      if !s.n.stopped && s.n.ready && s.sent < |s.w.commands| { DeliverAnswers(s, outcome, offers); }
    case Task(task) => if !task.CommandStep? && !task.UnlinkStep? { TaskAnswers(s, task); }
    case Unlink(ref) => TaskAnswers(s, M.UnlinkStep(ref));
  }

  lemma {:induction false} AnswerAlways(steps: seq<P.Step>, ok: Oracle)
    ensures P.Run(steps, ok).w.stopped || AnswerInv(P.Run(steps, ok))
  {
    hide P.Inv, P.Apply, FateInv, AnswerInv;
    if steps == [] {
      AnswerAtStart();
    } else {
      var last := |steps| - 1;
      AnswerAlways(steps[..last], ok);
      FateAlways(steps[..last], ok);
      P.InvAlways(steps[..last], ok);
      if P.Run(steps[..last], ok).w.stopped {
        StoppedApply(P.Run(steps[..last], ok), steps[last], ok);
      } else if !P.Run(steps, ok).w.stopped {
        AnswerStep(P.Run(steps[..last], ok), steps[last], ok, Offers(steps[..last], ok));
      }
    }
  }

  lemma AnswerAtStart()
    ensures AnswerInv(P.INITIAL)
  {
  }

  // ---- The configuration comes first

  ghost predicate ConfiguredFirst(s: P.System) {
    && (s.w.started <==> s.w.commands != []) && (s.w.commands != [] ==> s.w.commands[0] == Configure)
    && (s.sent >= 1 ==> s.n.configured)
  }

  /** What an event adds to the commands of a worker that has or has not been configured. */
  lemma EventConfigures(w: State, e: Event, ok: Oracle)
    requires V.WaitingFirst(w) && C.Conduct(w) && C.Conduct(Apply(w, e, ok)) && !w.stopped
    requires (w.started <==> w.commands != []) && (w.commands != [] ==> w.commands[0] == Configure)
    ensures var w' := Apply(w, e, ok);
      (w'.started <==> w'.commands != []) && (w'.commands != [] ==> w'.commands[0] == Configure)
  {
    hide Apply, V.WaitingFirst, C.AllProper, C.ValidIds;
    var w' := Apply(w, e, ok);
    EventMoves(w, e, ok);
    MovesOn(w, w', if e.Net? && e.message.NetAnswer? then Some(e.message.id) else None);
    I.EventStarts(w, e, ok);
    if w.commands != [] {
      assert w'.commands[0] == w.commands[0];
    }
  }

  lemma CommandConfigures(n: M.Network, c: NetCommand, outcome: M.Outcome)
    requires !n.stopped && n.ready
    ensures M.Apply(n, M.CommandStep(c, outcome)).configured == (n.configured || c.Configure?)
  {
    hide M.Remove, M.FailPeer, ValidPeerId;
    match c
    case AddPeer(id, _) =>
      if n.configured && id !in n.peers && outcome.LinkFailed? {
        P.FailKeeps(M.Inserted(n, id, outcome.pads), id);
      }
    case RemovePeer(id) => P.RemoveKeeps(n, id);
    case _ =>
  }

  lemma ConductOf(s: P.System)
    requires P.Inv(s) && !s.w.stopped
    ensures C.Conduct(s.w) && s.sent <= |s.w.commands|
  {
    hide V.Inv, C.Conduct, M.Inv;
  }

  lemma ConfiguredStep(s: P.System, step: P.Step, ok: Oracle)
    requires P.Inv(s) && ConfiguredFirst(s) && !s.w.stopped
    requires P.Inv(P.Apply(s, step, ok)) && !P.Apply(s, step, ok).w.stopped
    ensures ConfiguredFirst(P.Apply(s, step, ok))
  {
    hide P.Inv, Apply, M.Apply, C.Conduct;
    var s' := P.Apply(s, step, ok);
    UsedMeans(s);
    ConductOf(s);
    ConductOf(s');
    match step
    case Server(e) => if !e.Net? && !(e.Add? && e.id in s.used) { EventConfigures(s.w, e, ok); }
    case Hear => if s.w.started && s.heard < |s.n.out| { EventConfigures(s.w, Net(s.n.out[s.heard].message), ok); }
    case Deliver(outcome) =>
      if !s.n.stopped && s.n.ready && s.sent < |s.w.commands| { CommandConfigures(s.n, s.w.commands[s.sent], outcome); }
    case Task(task) => if !task.CommandStep? { P.TaskKeeps(s.n, task); }
    case Unlink(ref) => P.TaskKeeps(s.n, M.UnlinkStep(ref));
  }

  lemma {:induction false} ConfiguredAlways(steps: seq<P.Step>, ok: Oracle)
    ensures P.Run(steps, ok).w.stopped || ConfiguredFirst(P.Run(steps, ok))
  {
    hide P.Inv, P.Apply, ConfiguredFirst;
    if steps == [] {
      StartsUnconfigured();
    } else {
      var last := |steps| - 1;
      ConfiguredAlways(steps[..last], ok);
      P.InvAlways(steps[..last], ok);
      P.InvAlways(steps, ok);
      if P.Run(steps[..last], ok).w.stopped {
        StoppedApply(P.Run(steps[..last], ok), steps[last], ok);
      } else if !P.Run(steps, ok).w.stopped {
        ConfiguredStep(P.Run(steps[..last], ok), steps[last], ok);
      }
    }
  }

  lemma StartsUnconfigured()
    ensures ConfiguredFirst(P.INITIAL)
  {
  }

  /** A viewer that the worker sends on is made, with the pads it was accepted with. */
  lemma DeliveredIsMade(steps: seq<P.Step>, ok: Oracle, pads: M.Pads)
    requires var s := P.Run(steps, ok);
      !s.w.stopped && !s.n.stopped && s.n.ready && s.sent < |s.w.commands| && s.w.commands[s.sent].AddPeer?
    ensures var s, n' := P.Run(steps, ok), P.Run(steps + [P.Deliver(M.Accepted(pads))], ok).n;
      var id := s.w.commands[s.sent].id;
      id !in s.n.peers && n'.peers == s.n.peers[id := M.NetPeer(s.n.nextIndex, pads, false, false, 0)] && n'.out == s.n.out
  {
    hide P.Run, FateInv, WorkerPart, OncePerId, P.Inv, C.Conduct;
    var s := P.Run(steps, ok);
    P.OneMore(steps, P.Deliver(M.Accepted(pads)), ok);
    P.InvAlways(steps, ok);
    ConductOf(s);
    C.NextIsProper(s.w, s.sent);
    ConfiguredAlways(steps, ok);
    AnswerAlways(steps, ok);
    FateAlways(steps, ok);
    var id := s.w.commands[s.sent].id;
    if id in s.n.peers {
      assert Taken(s.w.commands, s.sent, id);
      var j :| 0 <= j < s.sent && j < |s.w.commands| && s.w.commands[j].AddPeer? && s.w.commands[j].id == id;
      SentTwice(s.w.commands, j, s.sent);
      SentDistinct(s, Offers(steps, ok));
    }
  }

  // ---- media-net's own run inside the system's

  /** What the steps of the system are to media-net. */
  ghost function NetSteps(steps: seq<P.Step>, ok: Oracle): seq<M.Step> {
    if steps == [] then []
    else
      var before, step := steps[..|steps| - 1], steps[|steps| - 1];
      NetSteps(before, ok) + NetStep(P.Run(before, ok), step)
  }

  function NetStep(s: P.System, step: P.Step): seq<M.Step> {
    if s.w.stopped then []
    else
      match step
      case Deliver(outcome) =>
        if s.n.stopped || !s.n.ready || s.sent >= |s.w.commands| then []
        else [M.CommandStep(s.w.commands[s.sent], outcome)]
      case Task(task) => if task.CommandStep? || task.UnlinkStep? then [] else [task]
      case Unlink(ref) => [M.UnlinkStep(ref)]
      case _ => []
  }

  lemma {:induction false} NetRuns(steps: seq<P.Step>, ok: Oracle)
    ensures M.Run(NetSteps(steps, ok)) == P.Run(steps, ok).n
  {
    hide Apply, M.Apply;
    if steps != [] {
      var before := steps[..|steps| - 1];
      NetRuns(before, ok);
      var more := NetStep(P.Run(before, ok), steps[|steps| - 1]);
      if more == [] {
        assert NetSteps(before, ok) + more == NetSteps(before, ok);
      } else {
        var all := NetSteps(before, ok) + more;
        assert all[..|all| - 1] == NetSteps(before, ok) && all[|all| - 1] == more[0];
      }
    }
  }

  // ---- The results

  /**
   Once nothing is under way, the answer of a viewer for which gathering was complete has been told
   to the server, with the text it was gathered with, unless it was too short or too long to be
   passed on, or the viewer has been reported failed or closed.
   */
  lemma AnswersArrive(steps: seq<P.Step>, ok: Oracle, ref: M.Ref, sdp: string)
    requires P.Quiet(P.Run(steps, ok))
    requires O.Gathered(NetSteps(steps, ok), ref) == Some(sdp) && 1 <= |sdp| <= 65536
    ensures var w := P.Run(steps, ok).w;
      if ref.id in w.peers then Answered(ref.id, w.peers[ref.id].serial, sdp) in w.server
      else exists k :: 0 <= k < |w.server| && EndsId(w.server[k], ref.id)
  {
    hide P.Run, O.Gathered, NetSteps, FateInv, P.Inv;
    var s := P.Run(steps, ok);
    NetRuns(steps, ok);
    O.AnsweredIff(NetSteps(steps, ok), ref, sdp);
    AnswerAlways(steps, ok);
    var k :| 0 <= k < |s.n.out| && s.n.out[k] == M.Report(NetAnswer(ref.id, sdp), Some(ref.index));
    P.SidesAgree(steps, ok);
    if ref.id !in s.w.peers {
      TakenIsUsed(steps, ok, ref.id);
      NobodyIsLost(steps, ok, ref.id);
    }
  }

  lemma TakenIsUsed(steps: seq<P.Step>, ok: Oracle, id: Id)
    requires var s := P.Run(steps, ok); !s.w.stopped && Taken(s.w.commands, s.sent, id)
    ensures id in P.Run(steps, ok).used && !Waiting(P.Run(steps, ok).w.waiting, id)
  {
    hide P.Run, Sent;
    var s := P.Run(steps, ok);
    FateAlways(steps, ok);
    var j :| 0 <= j < s.sent && j < |s.w.commands| && s.w.commands[j].AddPeer? && s.w.commands[j].id == id;
    TakenIsSent(s.w.commands, j);
    OfferedIds(Sent(s.w.commands), Offers(steps, ok));
  }

  /** At any time, what the server has been told as an answer is what was gathered for that viewer. */
  lemma AnswersAreGathered(steps: seq<P.Step>, ok: Oracle, k: nat) returns (ref: M.Ref)
    requires !P.Run(steps, ok).w.stopped && k < |P.Run(steps, ok).w.server| && P.Run(steps, ok).w.server[k].Answered?
    ensures var e := P.Run(steps, ok).w.server[k];
      ref.id == e.id && O.Gathered(NetSteps(steps, ok), ref) == Some(e.sdp) && 1 <= |e.sdp| <= 65536
  {
    hide P.Run, O.Gathered, NetSteps;
    var s := P.Run(steps, ok);
    var e := s.w.server[k];
    NetRuns(steps, ok);
    AnswerAlways(steps, ok);
    assert e in s.w.server;
    var i :| 0 <= i < |s.n.out| && s.n.out[i].message == NetAnswer(e.id, e.sdp);
    ref := M.Ref(e.id, s.n.out[i].who.value);
    assert s.n.out[i] == M.Report(NetAnswer(e.id, e.sdp), Some(ref.index));
    O.AnsweredIff(NetSteps(steps, ok), ref, e.sdp);
  }

  // ---- One run

  /** A viewer is added before media-net is ready, and media-net is. */
  function Opening(id: Id, offer: string, video: bool): seq<P.Step> {
    [P.Server(Start(video)), P.Server(Add(id, offer)), P.Task(M.LoadStep(true)), P.Hear]
  }

  /** media-net is configured, makes the connection, and has its answer. */
  function Answering(id: Id, sdp: string, pads: M.Pads): seq<P.Step> {
    [P.Deliver(M.Accepted(0)), P.Deliver(M.Accepted(pads)), P.Task(M.AnswerStep(M.Ref(id, 0), Some(sdp))), P.Hear]
  }

  ghost function After4(s: P.System, steps: seq<P.Step>, ok: Oracle): P.System
    requires |steps| == 4
  {
    P.Apply(P.Apply(P.Apply(P.Apply(s, steps[0], ok), steps[1], ok), steps[2], ok), steps[3], ok)
  }

  lemma RunFour(before: seq<P.Step>, steps: seq<P.Step>, ok: Oracle)
    requires |steps| == 4
    ensures P.Run(before + steps, ok) == After4(P.Run(before, ok), steps, ok)
  {
    hide P.Run, P.Apply;
    var one := before + [steps[0]];
    P.OneMore(before, steps[0], ok);
    P.OneMore(one, steps[1], ok);
    P.OneMore(one + [steps[1]], steps[2], ok);
    P.OneMore(one + [steps[1]] + [steps[2]], steps[3], ok);
    assert before + steps == one + [steps[1]] + [steps[2]] + [steps[3]];
  }

  /** The worker has sent the viewer on, and media-net has only said that it is ready. */
  function Opened(id: Id, offer: string, video: bool): P.System {
    P.System(
      INITIAL.(started := true, ready := true, videoEnabled := video, peers := map[id := NewPeer(0)], nextSerial := 1,
               commands := [Configure, AddPeer(id, offer)]),
      M.LAUNCHED.(ready := true, out := [M.Report(NetReady, None)]), 0, 1, {id})
  }

  lemma OpeningOpens(id: Id, offer: string, video: bool, ok: Oracle)
    requires ValidPeerId(id)
    ensures After4(P.INITIAL, Opening(id, offer, video), ok) == Opened(id, offer, video)
  {
    var steps := Opening(id, offer, video);
    var s1 := P.Apply(P.INITIAL, steps[0], ok);
    assert s1.w.started && s1.w.commands == [Configure];
    var s2 := P.Apply(s1, steps[1], ok);
    assert s2.w.waiting == [(id, offer)] && s2.w.peers == map[];
    var s3 := P.Apply(s2, steps[2], ok);
    assert s3.n.out == [M.Report(NetReady, None)];
    var s4 := P.Apply(s3, steps[3], ok);
    AddAllOne(s3.w.(ready := true, waiting := []), id, offer);
    assert s4.w.commands == [Configure, AddPeer(id, offer)];
  }

  lemma AddAllOne(w: State, id: Id, offer: string)
    ensures AddAll(w, [(id, offer)]) == AddViewer(w, id, offer)
  {
    hide AddViewer;
    AddIsAll(w, id, offer);
  }

  lemma AnsweringAnswers(id: Id, offer: string, sdp: string, video: bool, pads: M.Pads, ok: Oracle)
    requires ValidPeerId(id) && 1 <= |sdp| <= 65536
    ensures var s := After4(Opened(id, offer, video), Answering(id, sdp, pads), ok);
      s.w.server == [Answered(id, 0, sdp)] && s.w.peers.Keys == s.n.peers.Keys == {id} && P.Quiet(s)
  {
    hide ValidPeerId;
    var steps := Answering(id, sdp, pads);
    var s1 := P.Apply(Opened(id, offer, video), steps[0], ok);
    assert s1.n.configured && !s1.n.stopped && s1.sent == 1;
    var s2 := P.Apply(s1, steps[1], ok);
    assert s2.n.peers == map[id := M.NetPeer(0, pads, false, false, 0)] && s2.sent == 2;
    var s3 := P.Apply(s2, steps[2], ok);
    assert s3.n.out == [M.Report(NetReady, None), M.Report(NetAnswer(id, sdp), Some(0))];
  }

  /** So run, the two processes answer their first viewer, and come to rest. */
  lemma FirstViewer(id: Id, offer: string, sdp: string, video: bool, pads: M.Pads, ok: Oracle)
    requires ValidPeerId(id) && 1 <= |sdp| <= 65536
    ensures var s := P.Run(Opening(id, offer, video) + Answering(id, sdp, pads), ok);
      s.w.server == [Answered(id, 0, sdp)] && s.w.peers.Keys == s.n.peers.Keys == {id} && P.Quiet(s)
  {
    hide After4, Opened, ValidPeerId;
    RunFour([], Opening(id, offer, video), ok);
    assert [] + Opening(id, offer, video) == Opening(id, offer, video);
    OpeningOpens(id, offer, video, ok);
    RunFour(Opening(id, offer, video), Answering(id, sdp, pads), ok);
    AnsweringAnswers(id, offer, sdp, video, pads, ok);
  }
}
