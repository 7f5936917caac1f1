/**
 No viewer is lost between the server and media-net: whoever the server adds waits, is a peer, or
 has been reported failed or closed; and each peer was sent to media-net once, with its own offer.
 */
module ViewerFates {
  import opened Bytes
  import opened Permission
  import opened Worker
  import opened ViewerAnswers
  import C = WorkerConduct
  import L = WorkerLife
  import M = MediaNet
  import P = Protocol
  import V = ViewerReports

  // ---- The viewers sent to media-net

  /** The ids and offers of the add-peer commands, in order. */
  function Sent(commands: seq<NetCommand>): seq<(Id, string)> {
    if commands == [] then []
    else
      var c := commands[|commands| - 1];
      Sent(commands[..|commands| - 1]) + if c.AddPeer? then [(c.id, c.sdp)] else []
  }

  lemma SentSnoc(commands: seq<NetCommand>, c: NetCommand)
    ensures Sent(commands + [c]) == Sent(commands) + if c.AddPeer? then [(c.id, c.sdp)] else []
  {
    assert (commands + [c])[..|commands|] == commands;
  }

  lemma {:induction false} SentChatter(a: seq<NetCommand>, b: seq<NetCommand>, ids: set<Id>)
    requires L.OnlyChatter(a, b, ids)
    ensures Sent(b) == Sent(a)
    decreases |b|
  {
    if |b| > |a| {
      SentChatter(a, b[..|b| - 1], ids);
      assert b[|b| - 1].ControlState?;
    } else {
      assert a == b;
    }
  }

  /** Those of the viewers whose ids media-net accepts. */
  function Valid(viewers: seq<(Id, string)>): seq<(Id, string)> {
    if viewers == [] then []
    else (if ValidPeerId(viewers[0].0) then [viewers[0]] else []) + Valid(viewers[1..])
  }

  lemma {:induction false} ValidAre(viewers: seq<(Id, string)>)
    ensures forall v :: v in Valid(viewers) <==> v in viewers && ValidPeerId(v.0)
    ensures Distinct(viewers) ==> Distinct(Valid(viewers))
  {
    if viewers != [] {
      hide ValidPeerId, Distinct;
      var rest := viewers[1..];
      ValidAre(rest);
      assert viewers == [viewers[0]] + rest;
      if Distinct(viewers) {
        RestIsDistinct(viewers);
        if ValidPeerId(viewers[0].0) {
          forall v | v in Valid(rest) ensures v.0 != viewers[0].0 {
          }
          FirstDistinct(viewers[0], Valid(rest));
        } else {
          assert [] + Valid(rest) == Valid(rest);
        }
      }
    }
  }

  lemma RestIsDistinct(viewers: seq<(Id, string)>)
    requires viewers != [] && Distinct(viewers)
    ensures Distinct(viewers[1..]) && forall v :: v in viewers[1..] ==> v.0 != viewers[0].0
  {
    var rest := viewers[1..];
    assert forall i :: 0 <= i < |rest| ==> rest[i] == viewers[i + 1];
  }

  lemma FirstDistinct(v: (Id, string), rest: seq<(Id, string)>)
    requires Distinct(rest) && forall u :: u in rest ==> u.0 != v.0
    ensures Distinct([v] + rest)
  {
    forall j | 0 <= j < |rest| ensures rest[j].0 != v.0 {
      assert rest[j] in rest;
    }
  }

  /** The viewers that an event sends on: the one that is added, or all that waited. */
  function SendsOn(w: State, e: Event): seq<(Id, string)> {
    if w.stopped || !w.started then []
    else
      match e
      case Add(id, sdp) => if w.ready && ValidPeerId(id) then [(id, sdp)] else []
      case Net(message) => if message.NetReady? && !w.ready then Valid(w.waiting) else []
      case _ => []
  }

  /** What an event does to the viewers: these are sent on, and nobody vanishes without a report. */
  ghost predicate Fates(w: State, w': State, added: set<Id>, sent: seq<(Id, string)>) {
    && Sent(w'.commands) == Sent(w.commands) + sent
    && (forall id :: id in w'.peers ==> id in w.peers || Waiting(sent, id))
    && (forall v :: v in sent ==> v.0 in w'.peers)
    && (forall id :: (!Unknown(w, id) || id in added) && Unknown(w', id) ==> ReportedSince(w, w', id))
    && (forall v :: v in w'.waiting ==> v in w.waiting || v.0 in added)
  }

  ghost predicate ReportedSince(w: State, w': State, id: Id) {
    exists k :: |w.server| <= k < |w'.server| && EndsId(w'.server[k], id)
  }

  // ---- Adding

  lemma AddFates(w: State, id: Id, sdp: string)
    requires Unknown(w, id) && WaitInv(w)
    ensures Fates(w, AddViewer(w, id, sdp), {id}, if w.started && w.ready && ValidPeerId(id) then [(id, sdp)] else [])
    ensures forall v :: v in AddViewer(w, id, sdp).waiting ==> v in w.waiting || v == (id, sdp)
  {
    hide ValidPeerId, Sent;
    var w' := AddViewer(w, id, sdp);
    SentSnoc(w.commands, AddPeer(id, sdp));
    if w.started && !w.ready && |w.waiting| < MAX_WAITING {
      assert w'.waiting[|w.waiting|].0 == id;
    }
    if Unknown(w', id) {
      assert w'.server[|w.server|] == Failed(id, None);
      assert EndsId(w'.server[|w.server|], id);
    }
    forall other | !Unknown(w, other) ensures !Unknown(w', other) {
      if Waiting(w.waiting, other) {
        var k :| 0 <= k < |w.waiting| && w.waiting[k].0 == other;
        assert w'.waiting[k] == w.waiting[k];
      }
    }
    assert Waiting([(id, sdp)], id) by { assert [(id, sdp)][0].0 == id; }
  }

  /** What adding one of those who waited does. */
  lemma AddOne(w: State, v: (Id, string))
    requires w.started && w.ready && w.waiting == [] && v.0 !in w.peers
    ensures var w' := AddViewer(w, v.0, v.1);
      && w'.started && w'.ready && w'.waiting == []
      && if ValidPeerId(v.0) then
           w'.commands == w.commands + [AddPeer(v.0, v.1)] && w'.peers.Keys == w.peers.Keys + {v.0} && w'.server == w.server
         else w'.commands == w.commands && w'.peers == w.peers && w'.server == w.server + [Failed(v.0, None)]
  {
    hide ValidPeerId;
  }

  lemma {:induction false} AddAllSends(w: State, viewers: seq<(Id, string)>)
    requires w.started && w.ready && w.waiting == [] && Distinct(viewers)
    requires forall i :: 0 <= i < |viewers| ==> viewers[i].0 !in w.peers
    ensures var w' := AddAll(w, viewers);
      && Sent(w'.commands) == Sent(w.commands) + Valid(viewers) && w.server <= w'.server && w'.waiting == []
      && (forall id :: id in w'.peers <==> id in w.peers || Waiting(Valid(viewers), id))
    decreases |viewers|
  {
    hide ValidPeerId, Sent, AddViewer, Waiting;
    if viewers == [] {
      assert Sent(w.commands) + [] == Sent(w.commands);
      NobodyIn();
    } else {
      var v, rest := viewers[0], viewers[1..];
      var w1 := AddViewer(w, v.0, v.1);
      AddOne(w, v);
      SentSnoc(w.commands, AddPeer(v.0, v.1));
      forall i | 0 <= i < |rest| ensures rest[i].0 !in w1.peers.Keys && rest[i].0 !in w1.peers {
        assert rest[i] == viewers[i + 1];
      }
      assert forall i, j :: 0 <= i < j < |rest| ==> rest[i] == viewers[i + 1] && rest[j] == viewers[j + 1];
      AddAllSends(w1, rest);
      assert Sent(w.commands) + [v] + Valid(rest) == Sent(w.commands) + ([v] + Valid(rest));
      assert [] + Valid(rest) == Valid(rest);
      FirstOrRest(v, Valid(rest));
      assert forall id :: id in w1.peers <==> id in w1.peers.Keys;
    }
  }

  lemma NobodyIn()
    ensures forall id :: !Waiting([], id)
  {
  }

  lemma {:induction false} AddAllReported(w: State, viewers: seq<(Id, string)>, v: (Id, string))
    requires w.started && w.ready && w.waiting == [] && Distinct(viewers)
    requires forall i :: 0 <= i < |viewers| ==> viewers[i].0 !in w.peers
    requires v in viewers && !ValidPeerId(v.0)
    ensures ReportedSince(w, AddAll(w, viewers), v.0)
    decreases |viewers|
  {
    hide ValidPeerId, Sent, AddViewer;
    var first, rest := viewers[0], viewers[1..];
    var w1, w' := AddViewer(w, first.0, first.1), AddAll(w, viewers);
    AddOne(w, first);
    forall i | 0 <= i < |rest| ensures rest[i].0 !in w1.peers.Keys && rest[i].0 !in w1.peers {
      assert rest[i] == viewers[i + 1];
    }
    assert forall i, j :: 0 <= i < j < |rest| ==> rest[i] == viewers[i + 1] && rest[j] == viewers[j + 1];
    AddAllSends(w1, rest);
    if v == first {
      assert w'.server[|w.server|] == w1.server[|w.server|];
      assert EndsId(w'.server[|w.server|], v.0);
    } else {
      assert v in rest;
      AddAllReported(w1, rest, v);
      var k :| |w1.server| <= k < |w'.server| && EndsId(w'.server[k], v.0);
      assert |w.server| <= k;
    }
  }

  lemma FirstOrRest(v: (Id, string), rest: seq<(Id, string)>)
    ensures forall id :: Waiting([v] + rest, id) <==> id == v.0 || Waiting(rest, id)
  {
    forall id ensures Waiting([v] + rest, id) <==> id == v.0 || Waiting(rest, id) {
      if id == v.0 {
        assert ([v] + rest)[0].0 == id;
      }
      if Waiting(rest, id) {
        var k :| 0 <= k < |rest| && rest[k].0 == id;
        assert ([v] + rest)[k + 1].0 == id;
      }
    }
  }

  lemma InWaiting(viewers: seq<(Id, string)>, v: (Id, string))
    requires v in viewers
    ensures Waiting(viewers, v.0)
  {
  }

  lemma ReadyFates(w: State, ok: Oracle)
    requires w.started && !w.ready && !w.stopped && WaitInv(w)
    ensures Fates(w, FromNet(w, NetReady, ok), {}, Valid(w.waiting))
  {
    hide ValidPeerId, Sent, AddAll, ReportedSince;
    var w1 := w.(ready := true, waiting := []);
    AddAllSends(w1, w.waiting);
    ValidAre(w.waiting);
    var w' := FromNet(w, NetReady, ok);
    assert w' == AddAll(w1, w.waiting);
    forall v | v in Valid(w.waiting) ensures v.0 in w'.peers {
      InWaiting(Valid(w.waiting), v);
    }
    forall id | !Unknown(w, id) && Unknown(w', id) ensures ReportedSince(w, w', id) {
      var k :| 0 <= k < |w.waiting| && w.waiting[k].0 == id;
      WaiterFate(w, k, ok);
    }
  }

  lemma WaiterFate(w: State, k: nat, ok: Oracle)
    requires w.started && !w.ready && !w.stopped && WaitInv(w) && k < |w.waiting|
    ensures var w' := FromNet(w, NetReady, ok);
      w.waiting[k].0 in w'.peers || ReportedSince(w, w', w.waiting[k].0)
  {
    hide ValidPeerId, Sent, AddAll;
    var v, w1 := w.waiting[k], w.(ready := true, waiting := []);
    AddAllSends(w1, w.waiting);
    ValidAre(w.waiting);
    if ValidPeerId(v.0) {
      InWaiting(Valid(w.waiting), v);
    } else {
      AddAllReported(w1, w.waiting, v);
    }
  }

  // ---- The other events

  lemma SilentFates(w: State, w': State)
    requires L.Silent(w, w')
    ensures Fates(w, w', {}, [])
  {
    hide Sent, L.OnlyChatter, Waiting;
    SentChatter(w.commands, w'.commands, w.peers.Keys);
    forall id ensures id in w.peers <==> id in w'.peers {
      assert id in w.peers.Keys <==> id in w'.peers.Keys;
    }
    assert Sent(w.commands) + [] == Sent(w.commands);
  }

  lemma StartFates(w: State, video: bool)
    ensures Fates(w, Send(w.(started := true, videoEnabled := video), Configure), {}, [])
  {
    hide Sent, Waiting;
    SentSnoc(w.commands, Configure);
    assert Sent(w.commands) + [] == Sent(w.commands);
  }

  lemma RemoveFates(w: State, id: Id, ok: Oracle)
    requires WaitInv(w)
    ensures Fates(w, RemoveViewer(Tell(w, RemoveAsked(id)), id, true, ok), {}, [])
  {
    hide Sent, RemoveViewer, Waiting, Without;
    WaitersAreNoPeers(w);
    var w' := RemoveViewer(Tell(w, RemoveAsked(id)), id, true, ok);
    if id in w.peers {
      V.RemovalNoted(w, id, ok);
      RemovalSends(w, id, ok);
    } else {
      AbsentRemoved(w, id, ok);
      AbsentSends(w, id, ok);
      assert w'.server[|w.server| + 1] == Closed(id, None) && EndsId(w'.server[|w.server| + 1], id);
      WithoutOthers(w.waiting, id);
    }
    assert Sent(w.commands) + [] == Sent(w.commands);
  }

  lemma {:induction false} WithoutOthers(waiting: seq<(Id, string)>, id: Id)
    ensures forall v :: v in Without(waiting, id) <==> v in waiting && v.0 != id
    ensures forall other :: other != id && Waiting(waiting, other) ==> Waiting(Without(waiting, id), other)
  {
    if waiting != [] {
      WithoutOthers(waiting[1..], id);
      assert waiting == [waiting[0]] + waiting[1..];
      FirstOrRest(waiting[0], waiting[1..]);
      FirstOrRest(waiting[0], Without(waiting[1..], id));
    }
  }

  lemma RemovalSends(w: State, id: Id, ok: Oracle)
    requires id in w.peers && !Waiting(w.waiting, id)
    ensures Sent(RemoveViewer(Tell(w, RemoveAsked(id)), id, true, ok).commands) == Sent(w.commands)
  {
    hide Sent, Waiting, Without, BeginRemoval;
    SentSnoc(w.commands, ControlState(id, false));
    SentSnoc(w.commands + [ControlState(id, false)], RemovePeer(id));
  }

  lemma AbsentSends(w: State, id: Id, ok: Oracle)
    requires id !in w.peers
    ensures RemoveViewer(Tell(w, RemoveAsked(id)), id, true, ok).commands == w.commands
  {
    hide Waiting, Without;
  }

  /** media-net closes a peer only after a removal, which is then reported. */
  lemma NetFates(w: State, message: NetMessage, ok: Oracle)
    requires message.NetAnswer? || message.NetFailed? || message.NetClosed?
    requires message.NetClosed? && message.id in w.peers ==> w.peers[message.id].notifyClosed
    ensures Fates(w, FromNet(w, message, ok), {}, [])
  {
    hide Sent, Waiting, FailPeer, ClosePeer;
    var w' := FromNet(w, message, ok);
    assert w'.commands == w.commands && Sent(w.commands) + [] == Sent(w.commands);
    if |w'.server| > |w.server| && !message.NetAnswer? {
      assert EndsId(w'.server[|w.server|], message.id);
    }
  }

  lemma EventFates(w: State, e: Event, ok: Oracle)
    requires WaitInv(w) && !w.stopped && (e.Add? ==> Unknown(w, e.id)) && !Apply(w, e, ok).stopped
    requires e.Net? && e.message.NetClosed? && e.message.id in w.peers ==> w.peers[e.message.id].notifyClosed
    ensures Fates(w, Apply(w, e, ok), if e.Add? then {e.id} else {}, SendsOn(w, e))
  {
    hide Fates, WaitInv, Unknown, L.Silent, FromNet, RemoveViewer, AddViewer, ReleaseHeld;
    if !L.Lively(e) {
      L.OthersAreSilent(w, e, ok);
      SilentFates(w, Apply(w, e, ok));
    } else {
      match e
      case Start(video) => StartFates(w, video);
      case Add(id, sdp) => AddFates(w, id, sdp);
      case Remove(id) => RemoveFates(w, id, ok);
      case Net(message) => NetEventFates(w, message, ok);
    }
  }

  lemma NetEventFates(w: State, message: NetMessage, ok: Oracle)
    requires WaitInv(w) && !w.stopped && !FromNet(w, message, ok).stopped
    requires message.NetReady? || message.NetAnswer? || message.NetFailed? || message.NetClosed?
    requires message.NetClosed? && message.id in w.peers ==> w.peers[message.id].notifyClosed
    ensures Fates(w, FromNet(w, message, ok), {}, SendsOn(w, Net(message)))
  {
    hide Fates, WaitInv;
    if !w.started {
      SilentFates(w, w) by { L.SilentItself(w); }
    } else if message.NetReady? {
      ReadyFates(w, ok);
    } else {
      NetFates(w, message, ok);
    }
  }

  // ---- Removals are owed a report

  predicate RemovalsOwed(w: State) {
    forall id :: id in w.peers && w.peers[id].removing ==> w.peers[id].notifyClosed
  }

  lemma OwedLike(w: State, w': State)
    requires RemovalsOwed(w) && L.Silent(w, w')
    ensures RemovalsOwed(w')
  {
    hide L.OnlyChatter;
    forall id | id in w'.peers ensures id in w.peers && L.SameLife(w.peers[id], w'.peers[id]) {
      assert id in w.peers.Keys;
    }
  }

  lemma {:induction false} OwedAddAll(w: State, viewers: seq<(Id, string)>)
    requires RemovalsOwed(w)
    ensures RemovalsOwed(AddAll(w, viewers))
    decreases |viewers|
  {
    hide ValidPeerId, Waiting;
    if viewers != [] {
      OwedAddAll(AddViewer(w, viewers[0].0, viewers[0].1), viewers[1..]);
    }
  }

  lemma OwedRemove(w: State, id: Id, ok: Oracle)
    requires RemovalsOwed(w)
    ensures RemovalsOwed(RemoveViewer(Tell(w, RemoveAsked(id)), id, true, ok))
  {
    hide Waiting, Without, BeginRemoval;
  }

  lemma OwedNet(w: State, message: NetMessage, ok: Oracle)
    requires RemovalsOwed(w) && (message.NetReady? || message.NetAnswer? || message.NetFailed? || message.NetClosed?)
    ensures RemovalsOwed(FromNet(w, message, ok))
  {
    hide FailPeer, ClosePeer, AddAll;
    OwedAddAll(w.(ready := true, waiting := []), w.waiting);
  }

  lemma OwedApply(w: State, e: Event, ok: Oracle)
    requires RemovalsOwed(w)
    ensures RemovalsOwed(Apply(w, e, ok))
  {
    hide L.Silent, FromNet, RemoveViewer, AddViewer, ReleaseHeld;
    if w.stopped || !L.Lively(e) {
      V.StoppedIsSilent(w, e, ok);
      OwedLike(w, Apply(w, e, ok));
    } else {
      match e
      case Start(video) =>
      case Add(id, sdp) => OwedAddAll(w, [(id, sdp)]); AddIsAll(w, id, sdp);
      case Remove(id) => OwedRemove(w, id, ok);
      case Net(message) => OwedNet(w, message, ok);
    }
  }

  lemma AddIsAll(w: State, id: Id, sdp: string)
    ensures AddAll(w, [(id, sdp)]) == AddViewer(w, id, sdp)
  {
    hide AddViewer;
    var viewers := [(id, sdp)];
    assert viewers[1..] == [];
    assert AddAll(AddViewer(w, id, sdp), viewers[1..]) == AddViewer(w, id, sdp);
  }

  // ---- The two processes together

  /** The offers the server made, by id. */
  ghost function Offers(steps: seq<P.Step>, ok: Oracle): map<Id, string> {
    if steps == [] then map[]
    else
      var before, step := steps[..|steps| - 1], steps[|steps| - 1];
      var s := P.Run(before, ok);
      if !s.w.stopped && step.Server? && step.e.Add? && step.e.id !in s.used then Offers(before, ok)[step.e.id := step.e.sdp]
      else Offers(before, ok)
  }

  predicate Reported(w: State, id: Id) {
    exists k :: 0 <= k < |w.server| && EndsId(w.server[k], id)
  }

  predicate Offered(viewers: seq<(Id, string)>, offers: map<Id, string>) {
    forall v :: v in viewers ==> v.0 in offers && offers[v.0] == v.1
  }

  ghost predicate FateInv(s: P.System, offers: map<Id, string>) {
    && offers.Keys == s.used && RemovalsOwed(s.w) && Distinct(s.w.waiting)
    && Offered(s.w.waiting, offers) && Offered(Sent(s.w.commands), offers) && Distinct(Sent(s.w.commands))
    && (forall id :: Waiting(Sent(s.w.commands), id) ==> !Waiting(s.w.waiting, id))
    && (forall id :: id in s.w.peers ==> Waiting(Sent(s.w.commands), id))
    && (forall id :: id in s.used ==> !Unknown(s.w, id) || Reported(s.w, id))
  }

  lemma SentOn(w: State, w': State, offers: map<Id, string>, offers': map<Id, string>, sent: seq<(Id, string)>)
    requires Offered(Sent(w.commands), offers) && Distinct(Sent(w.commands)) && Sent(w'.commands) == Sent(w.commands) + sent
    requires forall id :: id in offers ==> id in offers' && offers'[id] == offers[id]
    requires Offered(sent, offers') && Distinct(sent)
    requires forall id :: Waiting(sent, id) ==> !Waiting(Sent(w.commands), id)
    ensures Offered(Sent(w'.commands), offers') && Distinct(Sent(w'.commands))
    ensures forall id :: Waiting(Sent(w'.commands), id) <==> Waiting(Sent(w.commands), id) || Waiting(sent, id)
  {
    hide Sent;
    var a, all := Sent(w.commands), Sent(w'.commands);
    forall i, j | 0 <= i < j < |all| ensures all[i].0 != all[j].0 {
      if i < |a| <= j {
        assert Waiting(sent, sent[j - |a|].0);
      }
    }
    forall id ensures Waiting(all, id) <==> Waiting(a, id) || Waiting(sent, id) {
      if Waiting(a, id) {
        var k :| 0 <= k < |a| && a[k].0 == id;
        assert all[k].0 == id;
      }
      if Waiting(sent, id) {
        var k :| 0 <= k < |sent| && sent[k].0 == id;
        assert all[|a| + k].0 == id;
      }
    }
  }

  lemma ReportedMore(w: State, w': State, id: Id)
    requires w.server <= w'.server && (Reported(w, id) || ReportedSince(w, w', id))
    ensures Reported(w', id)
  {
    if Reported(w, id) {
      var k :| 0 <= k < |w.server| && EndsId(w.server[k], id);
      assert w'.server[k] == w.server[k];
    }
  }

  /** One event of the worker in the system: who is added is new. */
  lemma KeepFates(s: P.System, e: Event, ok: Oracle, offers: map<Id, string>)
    requires P.Inv(s) && FateInv(s, offers) && !s.w.stopped && !Apply(s.w, e, ok).stopped
    requires e.Add? ==> e.id !in s.used
    requires e.Net? && e.message.NetClosed? && e.message.id in s.w.peers ==> s.w.peers[e.message.id].notifyClosed
    ensures var s' := s.(w := Apply(s.w, e, ok), used := if e.Add? then s.used + {e.id} else s.used);
      FateInv(s', if e.Add? then offers[e.id := e.sdp] else offers)
  {
    hide P.Inv, Sent, Apply, ValidPeerId, Reports, Waiting, Reported, ReportedSince;
    var w, w' := s.w, Apply(s.w, e, ok);
    var offers' := if e.Add? then offers[e.id := e.sdp] else offers;
    UsedMeans(s);
    EventReports(w, e, ok);
    EventFates(w, e, ok);
    OwedApply(w, e, ok);
    ReportsGrow(w, w');
    WaitersFirst(s, e, ok);
    SendsOnAre(s, e, offers, offers');
    SentOn(w, w', offers, offers', SendsOn(w, e));
    WaitersOffered(w, w', e, ok, offers, offers');
    forall id | Waiting(Sent(w'.commands), id) ensures !Waiting(w'.waiting, id) {
      StillNotWaiting(s, e, ok, offers, id);
    }
    forall id | id in offers'.Keys ensures !Unknown(w', id) || Reported(w', id) {
      if Unknown(w', id) {
        ReportedMore(w, w', id);
      }
    }
  }

  lemma WaitersFirst(s: P.System, e: Event, ok: Oracle)
    requires P.Inv(s) && !s.w.stopped
    ensures V.WaitingFirst(Apply(s.w, e, ok))
  {
    hide Apply, P.Views, V.Told, V.RemovalsReported, V.Balanced;
    V.KeepApply(s.w, e, ok);
  }

  lemma ReportsGrow(w: State, w': State)
    requires Reports(w, w')
    ensures w.server <= w'.server
  {
  }

  /** Those who are sent on made the offers that are sent, and were not sent on before. */
  lemma SendsOnAre(s: P.System, e: Event, offers: map<Id, string>, offers': map<Id, string>)
    requires FateInv(s, offers) && (e.Add? ==> e.id !in s.used)
    requires offers' == if e.Add? then offers[e.id := e.sdp] else offers
    ensures Offered(SendsOn(s.w, e), offers') && Distinct(SendsOn(s.w, e))
    ensures forall id :: Waiting(SendsOn(s.w, e), id) ==> !Waiting(Sent(s.w.commands), id)
    ensures forall v :: v in SendsOn(s.w, e) ==> v in s.w.waiting || (e.Add? && v == (e.id, e.sdp))
  {
    hide Sent, ValidPeerId;
    ValidAre(s.w.waiting);
    OfferedIds(Sent(s.w.commands), offers);
    forall id | Waiting(SendsOn(s.w, e), id) ensures !Waiting(Sent(s.w.commands), id) {
      var k :| 0 <= k < |SendsOn(s.w, e)| && SendsOn(s.w, e)[k].0 == id;
      var v := SendsOn(s.w, e)[k];
      assert v in SendsOn(s.w, e);
      if v in s.w.waiting {
        InWaiting(s.w.waiting, v);
      }
    }
  }

  lemma OfferedIds(viewers: seq<(Id, string)>, offers: map<Id, string>)
    requires Offered(viewers, offers)
    ensures forall id :: Waiting(viewers, id) ==> id in offers.Keys
  {
    forall id | Waiting(viewers, id) ensures id in offers.Keys {
      var k :| 0 <= k < |viewers| && viewers[k].0 == id;
      assert viewers[k] in viewers;
    }
  }

  lemma WaitersOffered(w: State, w': State, e: Event, ok: Oracle, offers: map<Id, string>, offers': map<Id, string>)
    requires Offered(w.waiting, offers) && w' == Apply(w, e, ok) && !w.stopped
    requires e.Add? ==> e.id !in offers && Unknown(w, e.id) && WaitInv(w)
    requires Fates(w, w', if e.Add? then {e.id} else {}, SendsOn(w, e))
    requires offers' == if e.Add? then offers[e.id := e.sdp] else offers
    ensures Offered(w'.waiting, offers')
  {
    hide Sent, AddViewer, Unknown, WaitInv, ReportedSince;
    if e.Add? {
      AddFates(w, e.id, e.sdp);
    } else {
      hide Apply;
    }
  }

  /** Whoever has been sent on does not wait. */
  lemma StillNotWaiting(s: P.System, e: Event, ok: Oracle, offers: map<Id, string>, id: Id)
    requires FateInv(s, offers) && !s.w.stopped && (e.Add? ==> e.id !in s.used)
    requires Fates(s.w, Apply(s.w, e, ok), if e.Add? then {e.id} else {}, SendsOn(s.w, e))
    requires Follows(s.w, Apply(s.w, e, ok), Adds(e)) && V.WaitingFirst(Apply(s.w, e, ok))
    requires Waiting(Sent(Apply(s.w, e, ok).commands), id)
    ensures !Waiting(Apply(s.w, e, ok).waiting, id)
  {
    hide Sent, Apply, ReportedSince;
    OfferedIds(Sent(s.w.commands), offers);
    var w' := Apply(s.w, e, ok);
    var sent := SendsOn(s.w, e);
    var all := Sent(s.w.commands) + sent;
    var k :| 0 <= k < |all| && all[k].0 == id;
    if k >= |Sent(s.w.commands)| {
      assert all[k] == sent[k - |Sent(s.w.commands)|] && all[k] in sent;
    } else {
      assert all[k] in Sent(s.w.commands) && Sent(s.w.commands)[k].0 == id;
      if Waiting(w'.waiting, id) {
        var j :| 0 <= j < |w'.waiting| && w'.waiting[j].0 == id;
        var v := w'.waiting[j];
        assert v in w'.waiting;
        if v in s.w.waiting {
          InWaiting(s.w.waiting, v);
        }
      }
    }
  }

  /** A peer whose end is reported next, and not its failure, is being removed. */
  lemma ClosedIsOwed(s: P.System, offers: map<Id, string>)
    requires P.Inv(s) && !s.w.stopped && FateInv(s, offers) && s.w.started && s.heard < |s.n.out|
    requires s.n.out[s.heard].message.NetClosed?
    ensures var id := s.n.out[s.heard].message.id; id in s.w.peers ==> s.w.peers[id].notifyClosed
  {
    hide P.M.Inv, V.Inv, C.Conduct, P.Joined, Sent, P.CommandsFor, P.ReportsFor;
    var id := s.n.out[s.heard].message.id;
    P.ViewsMeans(s);
    P.ReportsTail(s.n.out, s.heard, id);
    var v := P.ViewOf(s.w, s.n, s.sent, s.heard, id);
    assert P.Good(v) && v.reports[0] == P.HasClosed;
  }

  lemma {:induction false} FateAlways(steps: seq<P.Step>, ok: Oracle)
    ensures P.Run(steps, ok).w.stopped || FateInv(P.Run(steps, ok), Offers(steps, ok))
  {
    hide P.Inv, P.Apply, FateInv;
    if steps == [] {
      FateAtStart(ok);
    } else {
      var last := |steps| - 1;
      FateAlways(steps[..last], ok);
      P.InvAlways(steps[..last], ok);
      FateStep(steps, ok);
    }
  }

  lemma FateAtStart(ok: Oracle)
    ensures FateInv(P.INITIAL, map[])
  {
  }

  lemma FateStep(steps: seq<P.Step>, ok: Oracle)
    requires steps != [] && P.Inv(P.Run(steps[..|steps| - 1], ok))
    requires P.Run(steps[..|steps| - 1], ok).w.stopped || FateInv(P.Run(steps[..|steps| - 1], ok), Offers(steps[..|steps| - 1], ok))
    ensures P.Run(steps, ok).w.stopped || FateInv(P.Run(steps, ok), Offers(steps, ok))
  {
    hide P.Inv, FateInv, Apply, M.Apply;
    var step := steps[|steps| - 1];
    var s, offers := P.Run(steps[..|steps| - 1], ok), Offers(steps[..|steps| - 1], ok);
    var s' := P.Apply(s, step, ok);
    if s.w.stopped || s'.w.stopped {
      return;
    }
    match step
    case Server(e) =>
      if !e.Net? && !(e.Add? && e.id in s.used) {
        KeepFates(s, e, ok, offers);
      }
    case Hear =>
      if s.w.started && s.heard < |s.n.out| {
        var message := s.n.out[s.heard].message;
        if message.NetClosed? {
          ClosedIsOwed(s, offers);
        }
        KeepFates(s, Net(message), ok, offers);
        FateLike(s.(w := s'.w), s', offers);
      }
    case Deliver(_) => FateLike(s, s', offers);
    case Task(_) => FateLike(s, s', offers);
    case Unlink(_) => FateLike(s, s', offers);
  }

  lemma FateLike(s: P.System, s': P.System, offers: map<Id, string>)
    requires FateInv(s, offers) && s'.w == s.w && s'.used == s.used
    ensures FateInv(s', offers)
  {
  }

  // ---- The results

  /** While the worker is up, whoever was added waits, is a peer, or has been reported failed or closed. */
  lemma NobodyIsLost(steps: seq<P.Step>, ok: Oracle, id: Id)
    requires !P.Run(steps, ok).w.stopped && id in P.Run(steps, ok).used
    ensures var w := P.Run(steps, ok).w;
      id in w.peers || Waiting(w.waiting, id) || exists k :: 0 <= k < |w.server| && EndsId(w.server[k], id)
  {
    hide P.Run, Sent;
    FateAlways(steps, ok);
  }

  /** Where a viewer was sent on. */
  lemma {:induction false} WhereSent(commands: seq<NetCommand>, k: nat) returns (i: nat)
    requires k < |commands| && commands[k].AddPeer?
    ensures i == |Sent(commands[..k])| && i < |Sent(commands)| && Sent(commands)[i] == (commands[k].id, commands[k].sdp)
    ensures Sent(commands[..k]) <= Sent(commands)
    decreases |commands|
  {
    var last := |commands| - 1;
    if k == last {
      i := |Sent(commands[..k])|;
    } else {
      i := WhereSent(commands[..last], k);
      assert commands[..last][..k] == commands[..k];
    }
  }

  lemma {:induction false} SentAt(commands: seq<NetCommand>, i: nat) returns (k: nat)
    requires i < |Sent(commands)|
    ensures k < |commands| && commands[k] == AddPeer(Sent(commands)[i].0, Sent(commands)[i].1)
  {
    var last := |commands| - 1;
    if i < |Sent(commands[..last])| {
      k := SentAt(commands[..last], i);
    } else {
      k := last;
    }
  }

  /** Two add-peer commands are for different viewers. */
  lemma SentOnce(steps: seq<P.Step>, ok: Oracle, j: nat, k: nat)
    requires !P.Run(steps, ok).w.stopped && j < k < |P.Run(steps, ok).w.commands|
    requires var commands := P.Run(steps, ok).w.commands; commands[j].AddPeer? && commands[k].AddPeer?
    ensures P.Run(steps, ok).w.commands[j].id != P.Run(steps, ok).w.commands[k].id
  {
    hide P.Run;
    FateAlways(steps, ok);
    var commands := P.Run(steps, ok).w.commands;
    var a := WhereSent(commands, j);
    var b := WhereSent(commands, k);
    var c := WhereSent(commands[..k], j);
    assert commands[..k][..j] == commands[..j];
    assert a < b;
  }

  /** Each peer has been sent to media-net, exactly once, with the offer that the server made for it. */
  lemma PeersAreSentOnce(steps: seq<P.Step>, ok: Oracle, id: Id) returns (k: nat)
    requires !P.Run(steps, ok).w.stopped && id in P.Run(steps, ok).w.peers
    ensures var commands := P.Run(steps, ok).w.commands;
      && id in Offers(steps, ok) && k < |commands| && commands[k] == AddPeer(id, Offers(steps, ok)[id])
      && forall j :: 0 <= j < |commands| && commands[j].AddPeer? && commands[j].id == id ==> j == k
  {
    hide P.Run, Sent;
    FateAlways(steps, ok);
    var commands := P.Run(steps, ok).w.commands;
    var i :| 0 <= i < |Sent(commands)| && Sent(commands)[i].0 == id;
    k := SentAt(commands, i);
    assert Sent(commands)[i] in Sent(commands);
    forall j | 0 <= j < |commands| && commands[j].AddPeer? && commands[j].id == id ensures j == k {
      if j < k {
        SentOnce(steps, ok, j, k);
      } else if k < j {
        SentOnce(steps, ok, k, j);
      }
    }
  }

  /** An added viewer is taken: it waits while there is room, or is a peer, unless its id is malformed. */
  lemma AddedIsTaken(steps: seq<P.Step>, ok: Oracle, id: Id, sdp: string)
    requires var s := P.Run(steps, ok);
      !s.w.stopped && s.w.started && id !in s.used && 1 <= |id| <= 64
    ensures var w, w' := P.Run(steps, ok).w, P.Run(steps + [P.Server(Add(id, sdp))], ok).w;
      && (w.ready && ValidPeerId(id) ==> id in w'.peers)
      && (!w.ready && |w.waiting| < 64 ==> |w'.waiting| == |w.waiting| + 1 && w'.waiting[|w.waiting|] == (id, sdp))
  {
    hide P.Run, P.Inv, ValidPeerId;
    P.OneMore(steps, P.Server(Add(id, sdp)), ok);
    P.InvAlways(steps, ok);
    UsedMeans(P.Run(steps, ok));
  }

  /** When media-net is ready, everyone who waited is a peer, unless its id is malformed. */
  lemma WaitersAreAdded(steps: seq<P.Step>, ok: Oracle, v: (Id, string))
    requires var s := P.Run(steps, ok);
      && !s.w.stopped && s.w.started && s.heard < |s.n.out| && s.n.out[s.heard].message.NetReady?
      && v in s.w.waiting && ValidPeerId(v.0)
    ensures v.0 in P.Run(steps + [P.Hear], ok).w.peers
  {
    hide P.Run, P.Inv, ValidPeerId, Waiting;
    var s := P.Run(steps, ok);
    P.OneMore(steps, P.Hear, ok);
    P.InvAlways(steps, ok);
    UsedMeans(s);
    FateAlways(steps, ok);
    DistinctWaits(s, Offers(steps, ok));
    ReadyIsNew(s);
    WaiterIsAdded(s.w, v, ok);
    P.HearingIsApply(s, ok);
  }

  lemma DistinctWaits(s: P.System, offers: map<Id, string>)
    requires FateInv(s, offers)
    ensures Distinct(s.w.waiting)
  {
  }

  lemma WaiterIsAdded(w: State, v: (Id, string), ok: Oracle)
    requires w.started && !w.ready && !w.stopped && WaitInv(w) && v in w.waiting && ValidPeerId(v.0)
    ensures v.0 in FromNet(w, NetReady, ok).peers
  {
    hide Sent, FromNet, ValidPeerId;
    ReadyFates(w, ok);
    ValidAre(w.waiting);
    assert v in Valid(w.waiting);
  }

  lemma ReadyIsNew(s: P.System)
    requires P.Inv(s) && !s.w.stopped && s.heard < |s.n.out| && s.n.out[s.heard].message.NetReady?
    ensures !s.w.ready
  {
    P.ReadyHeard(s.n.out, s.heard, s.n.ready, s.w.ready);
  }
}
