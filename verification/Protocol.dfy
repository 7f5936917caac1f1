/**
 The worker and media-net together, joined by two first-in first-out control pipes: the server
 drives one side, GStreamer the other, and messages cross on the way.
 */
module Protocol {
  import opened Bytes
  import opened Permission
  import W = Worker
  import L = WorkerLife
  import V = ViewerReports
  import M = MediaNet
  import C = WorkerConduct

  /**
   The pipe to media-net holds the commands from number `sent` on, the pipe back the reports from
   number `heard` on. `used` are the ids the server has added: it never adds one twice. When
   media-net has ended, what it said can still arrive.
   */
  datatype System = System(w: W.State, n: M.Network, sent: nat, heard: nat, used: set<Id>)

  const INITIAL := System(W.INITIAL, M.LAUNCHED, 0, 0, {})

  datatype Step =
    | Server(e: W.Event)           // the server, viewers' input and the worker's clock
    | Deliver(outcome: M.Outcome)  // media-net handles the next command
    | Hear                         // the worker handles the next report
    | Task(task: M.Step)           // media-net loads, gets a callback, or ends by itself
    | Unlink(ref: M.Ref)           // a pad of a leaving viewer has been unlinked

  ghost function Apply(s: System, step: Step, ok: W.Oracle): System {
    if s.w.stopped then s
    else
      match step
      case Server(e) =>
        if e.Net? || (e.Add? && e.id in s.used) then s
        else s.(w := W.Apply(s.w, e, ok), used := if e.Add? then s.used + {e.id} else s.used)
      case Deliver(outcome) =>
        if s.n.stopped || !s.n.ready || s.sent >= |s.w.commands| then s
        else s.(n := M.Apply(s.n, M.CommandStep(s.w.commands[s.sent], outcome)), sent := s.sent + 1)
      case Hear =>
        if !s.w.started || s.heard >= |s.n.out| then s
        else s.(w := W.Apply(s.w, W.Net(s.n.out[s.heard].message), ok), heard := s.heard + 1)
      case Task(task) => if task.CommandStep? || task.UnlinkStep? then s else s.(n := M.Apply(s.n, task))
      case Unlink(ref) => s.(n := M.Apply(s.n, M.UnlinkStep(ref)))
  }

  ghost function Run(steps: seq<Step>, ok: W.Oracle): System {
    if steps == [] then INITIAL else Apply(Run(steps[..|steps| - 1], ok), steps[|steps| - 1], ok)
  }

  // ---- One viewer's share of the system

  datatype Side = Absent | Live | Leaving
  datatype Cmd = ToAdd | ToRemove
  datatype Rep = HasFailed | HasClosed

  /** The worker's record, the commands under way, media-net's record, the reports under way. */
  datatype View = View(worker: Side, commands: seq<Cmd>, net: Side, reports: seq<Rep>)

  function WorkerSide(peers: map<Id, W.Peer>, id: Id): Side {
    if id !in peers then Absent else if peers[id].removing then Leaving else Live
  }

  function NetSide(peers: map<Id, M.NetPeer>, id: Id): Side {
    if id !in peers then Absent else if peers[id].removing then Leaving else Live
  }

  function CommandsFor(commands: seq<W.NetCommand>, id: Id): seq<Cmd> {
    if commands == [] then []
    else
      var c := commands[|commands| - 1];
      CommandsFor(commands[..|commands| - 1], id)
      + if c.AddPeer? && c.id == id then [ToAdd] else if c.RemovePeer? && c.id == id then [ToRemove] else []
  }

  function ReportsFor(out: seq<M.Report>, id: Id): seq<Rep> {
    if out == [] then []
    else
      var m := out[|out| - 1].message;
      ReportsFor(out[..|out| - 1], id)
      + if m.NetFailed? && m.id == id then [HasFailed] else if m.NetClosed? && m.id == id then [HasClosed] else []
  }

  function ViewOf(w: W.State, n: M.Network, sent: nat, heard: nat, id: Id): View
    requires sent <= |w.commands| && heard <= |n.out|
  {
    View(WorkerSide(w.peers, id), CommandsFor(w.commands[sent..], id),
         NetSide(n.peers, id), ReportsFor(n.out[heard..], id))
  }

  const CLEAN := View(Absent, [], Absent, [])

  /** Every state that one viewer can be in, from its adding to the last report about it. */
  predicate Good(v: View) {
    match v.worker
    case Live =>
      || (v.commands == [ToAdd] && v.net == Absent && v.reports == [])
      || (v.commands == [] && v.net == Live && v.reports == [])
      || (v.commands == [] && v.net == Leaving && v.reports == [HasFailed])
      || (v.commands == [] && v.net == Absent && v.reports in [[HasFailed], [HasFailed, HasClosed]])
    case Leaving =>
      || (v.commands == [ToAdd, ToRemove] && v.net == Absent && v.reports == [])
      || (v.commands == [ToRemove] && v.net == Live && v.reports == [])
      || (v.commands in [[], [ToRemove]] && v.net == Leaving && v.reports in [[], [HasFailed]])
      || (v.commands == [ToRemove] && v.net == Absent
          && v.reports in [[], [HasFailed], [HasClosed], [HasFailed, HasClosed]])
      || (v.commands == [] && v.net == Absent
          && v.reports in [[HasClosed], [HasFailed, HasClosed], [HasClosed, HasClosed], [HasFailed, HasClosed, HasClosed]])
    case Absent =>
      || (v.commands == [] && v.net == Leaving && v.reports == [])
      || (v.commands == [] && v.net == Absent && v.reports in [[], [HasClosed]])
      || (v.commands == [ToRemove] && v.net == Absent && v.reports == [])
  }

  // ---- What each side can do to it

  function Added(v: View): View {
    v.(worker := Live, commands := v.commands + [ToAdd])
  }

  function Removing(v: View): View {
    v.(worker := Leaving, commands := v.commands + [ToRemove])
  }

  /** The worker takes the first report about the viewer. */
  function Heard(v: View): View
    requires v.reports != []
  {
    v.(reports := v.reports[1..],
       worker := if v.reports[0] == HasClosed || v.worker == Live then Absent else v.worker)
  }

  function NetRemoved(v: View, pads: nat): View {
    match v.net
    case Absent => v.(reports := v.reports + [HasClosed])
    case Leaving => v
    case Live => if pads == 0 then v.(net := Absent, reports := v.reports + [HasClosed]) else v.(net := Leaving)
  }

  function NetFailedView(v: View, pads: nat): View {
    if v.net != Live then v else NetRemoved(v.(reports := v.reports + [HasFailed]), pads)
  }

  lemma GoodAdded(v: View)
    requires v == CLEAN
    ensures Good(Added(v))
  {
  }

  lemma GoodRemoving(v: View)
    requires Good(v) && v.worker == Live
    ensures Good(Removing(v))
  {
    assert [ToAdd] + [ToRemove] == [ToAdd, ToRemove];
    assert [] + [ToRemove] == [ToRemove];
  }

  lemma GoodHeard(v: View)
    requires Good(v) && v.reports != []
    ensures Good(Heard(v))
  {
    assert [HasFailed][1..] == [] && [HasClosed][1..] == [];
    assert [HasFailed, HasClosed][1..] == [HasClosed] && [HasClosed, HasClosed][1..] == [HasClosed];
    assert [HasFailed, HasClosed, HasClosed][1..] == [HasClosed, HasClosed];
  }

  lemma Joins()
    ensures [] + [HasFailed] == [HasFailed] && [] + [HasClosed] == [HasClosed]
    ensures [HasFailed] + [HasClosed] == [HasFailed, HasClosed]
    ensures [HasClosed] + [HasClosed] == [HasClosed, HasClosed]
    ensures [HasFailed, HasClosed] + [HasClosed] == [HasFailed, HasClosed, HasClosed]
  {
  }

  /** media-net takes the first command for the viewer. */
  lemma GoodRemovedAtNet(v: View, pads: nat)
    requires Good(v) && v.commands != [] && v.commands[0] == ToRemove
    ensures Good(NetRemoved(v.(commands := v.commands[1..]), pads))
  {
    Joins();
    assert [ToRemove][1..] == [];
  }

  lemma GoodAddedAtNet(v: View, pads: nat)
    requires Good(v) && v.commands != [] && v.commands[0] == ToAdd
    ensures v.net == Absent && v.reports == []
    ensures var v1 := v.(commands := v.commands[1..]);
      && Good(v1.(reports := [HasFailed]))
      && Good(v1.(net := Live))
      && Good(NetFailedView(v1.(net := Live), pads))
  {
    Joins();
    assert [ToAdd][1..] == [] && [ToAdd, ToRemove][1..] == [ToRemove];
  }

  lemma GoodFailedAtNet(v: View, pads: nat)
    requires Good(v)
    ensures Good(NetFailedView(v, pads))
  {
    Joins();
  }

  lemma GoodDestroyed(v: View)
    requires Good(v) && v.net == Leaving
    ensures Good(v.(net := Absent, reports := v.reports + [HasClosed]))
  {
    Joins();
  }

  // ---- Projections

  lemma {:induction false} CommandsJoin(a: seq<W.NetCommand>, b: seq<W.NetCommand>, id: Id)
    ensures CommandsFor(a + b, id) == CommandsFor(a, id) + CommandsFor(b, id)
  {
    if b == [] {
      assert a + b == a;
    } else {
      var last := |b| - 1;
      CommandsJoin(a, b[..last], id);
      assert (a + b)[..|a + b| - 1] == a + b[..last];
    }
  }

  lemma {:induction false} ReportsJoin(a: seq<M.Report>, b: seq<M.Report>, id: Id)
    ensures ReportsFor(a + b, id) == ReportsFor(a, id) + ReportsFor(b, id)
  {
    if b == [] {
      assert a + b == a;
    } else {
      var last := |b| - 1;
      ReportsJoin(a, b[..last], id);
      assert (a + b)[..|a + b| - 1] == a + b[..last];
    }
  }

  function CommandOf(c: W.NetCommand, id: Id): seq<Cmd> {
    if c.AddPeer? && c.id == id then [ToAdd] else if c.RemovePeer? && c.id == id then [ToRemove] else []
  }

  function ReportOf(r: M.Report, id: Id): seq<Rep> {
    if r.message.NetFailed? && r.message.id == id then [HasFailed]
    else if r.message.NetClosed? && r.message.id == id then [HasClosed]
    else []
  }

  lemma CommandsAppend(commands: seq<W.NetCommand>, c: W.NetCommand, sent: nat, id: Id)
    requires sent <= |commands|
    ensures CommandsFor((commands + [c])[sent..], id) == CommandsFor(commands[sent..], id) + CommandOf(c, id)
  {
    assert (commands + [c])[sent..] == commands[sent..] + [c];
    assert (commands[sent..] + [c])[..|commands[sent..]|] == commands[sent..];
  }

  lemma ReportsAppend(out: seq<M.Report>, r: M.Report, heard: nat, id: Id)
    requires heard <= |out|
    ensures ReportsFor((out + [r])[heard..], id) == ReportsFor(out[heard..], id) + ReportOf(r, id)
  {
    assert (out + [r])[heard..] == out[heard..] + [r];
    assert (out[heard..] + [r])[..|out[heard..]|] == out[heard..];
  }

  lemma CommandsTail(commands: seq<W.NetCommand>, sent: nat, id: Id)
    requires sent < |commands|
    ensures CommandsFor(commands[sent..], id) == CommandOf(commands[sent], id) + CommandsFor(commands[sent + 1..], id)
  {
    assert commands[sent..] == [commands[sent]] + commands[sent + 1..];
    CommandsJoin([commands[sent]], commands[sent + 1..], id);
    assert [commands[sent]][..0] == [];
  }

  lemma ReportsTail(out: seq<M.Report>, heard: nat, id: Id)
    requires heard < |out|
    ensures ReportsFor(out[heard..], id) == ReportOf(out[heard], id) + ReportsFor(out[heard + 1..], id)
  {
    assert out[heard..] == [out[heard]] + out[heard + 1..];
    ReportsJoin([out[heard]], out[heard + 1..], id);
    assert [out[heard]][..0] == [];
  }

  lemma {:induction false} ChatterIsNothing(a: seq<W.NetCommand>, b: seq<W.NetCommand>, ids: set<Id>, sent: nat, id: Id)
    requires L.OnlyChatter(a, b, ids) && sent <= |a|
    ensures CommandsFor(b[sent..], id) == CommandsFor(a[sent..], id)
    decreases |b|
  {
    hide CommandsFor;
    if |b| > |a| {
      var last := |b| - 1;
      ChatterIsNothing(a, b[..last], ids, sent, id);
      assert b == b[..last] + [b[last]];
      CommandsAppend(b[..last], b[last], sent, id);
    } else {
      assert a == b;
    }
  }

  // ---- The invariant

  predicate HasReady(out: seq<M.Report>, n: nat) {
    exists k :: 0 <= k < n && k < |out| && out[k].message.NetReady?
  }

  /** What was said since is not about readiness. */
  predicate NotReady(out: seq<M.Report>, out': seq<M.Report>) {
    out <= out' && forall k :: |out| <= k < |out'| ==> !out'[k].message.NetReady?
  }

  ghost predicate Views(s: System) {
    && s.sent <= |s.w.commands| && s.heard <= |s.n.out|
    && (forall id :: Good(ViewOf(s.w, s.n, s.sent, s.heard, id)))
    && (forall id :: id !in s.used || W.Waiting(s.w.waiting, id) ==> ViewOf(s.w, s.n, s.sent, s.heard, id) == CLEAN)
  }

  /** media-net reports once that it is ready, and the worker knows as soon as it has heard it. */
  ghost predicate ReadyInv(out: seq<M.Report>, heard: nat, netReady: bool, workerReady: bool) {
    && (forall i, j :: 0 <= i < j < |out| ==> !out[i].message.NetReady? || !out[j].message.NetReady?)
    && (netReady <==> HasReady(out, |out|)) && (workerReady <==> HasReady(out, heard))
  }

  ghost predicate Joined(s: System) {
    && ReadyInv(s.n.out, s.heard, s.n.ready, s.w.ready) && (s.n.configured ==> s.sent >= 1)
    && (forall id :: id in s.w.peers || W.Waiting(s.w.waiting, id) ==> id in s.used)
  }

  ghost predicate Inv(s: System) {
    s.w.stopped || (V.Inv(s.w) && C.Conduct(s.w) && M.Inv(s.n) && Views(s) && Joined(s))
  }

  lemma ReadyKept(out: seq<M.Report>, out': seq<M.Report>, heard: nat, netReady: bool, workerReady: bool)
    requires ReadyInv(out, heard, netReady, workerReady) && NotReady(out, out') && heard <= |out|
    ensures ReadyInv(out', heard, netReady, workerReady)
  {
    if HasReady(out, |out|) {
      var k :| 0 <= k < |out| && out[k].message.NetReady?;
      assert out'[k] == out[k];
    }
    if HasReady(out, heard) {
      var k :| 0 <= k < heard && k < |out| && out[k].message.NetReady?;
      assert out'[k] == out[k];
    }
    forall i, j | 0 <= i < j < |out'| ensures !out'[i].message.NetReady? || !out'[j].message.NetReady? {
      if j < |out| {
        assert out'[i] == out[i] && out'[j] == out[j];
      }
    }
  }

  lemma ReadyHeard(out: seq<M.Report>, heard: nat, netReady: bool, workerReady: bool)
    requires ReadyInv(out, heard, netReady, workerReady) && heard < |out|
    ensures ReadyInv(out, heard + 1, netReady, workerReady || out[heard].message.NetReady?)
    ensures out[heard].message.NetReady? ==> !workerReady
  {
    if HasReady(out, heard) {
      var k :| 0 <= k < heard && k < |out| && out[k].message.NetReady?;
      assert k < heard + 1;
    }
    if HasReady(out, heard + 1) {
      var k :| 0 <= k < heard + 1 && k < |out| && out[k].message.NetReady?;
      assert k == heard || HasReady(out, heard);
    }
  }

  lemma ReadySaid(out: seq<M.Report>, heard: nat, r: M.Report)
    requires ReadyInv(out, heard, false, false) && heard <= |out| && r.message.NetReady?
    ensures ReadyInv(out + [r], heard, true, false)
  {
    assert (out + [r])[|out|] == r;
    forall k | 0 <= k < |out| ensures !out[k].message.NetReady? {
      assert !HasReady(out, |out|);
    }
  }

  // ---- Steps of the worker

  lemma SilentViews(w: W.State, w': W.State, n: M.Network, sent: nat, heard: nat, id: Id)
    requires L.Silent(w, w') && sent <= |w.commands| && heard <= |n.out|
    ensures ViewOf(w', n, sent, heard, id) == ViewOf(w, n, sent, heard, id)
  {
    ChatterIsNothing(w.commands, w'.commands, w.peers.Keys, sent, id);
  }

  lemma KeepSilent(s: System, w': W.State)
    requires Views(s) && L.Silent(s.w, w')
    ensures Views(s.(w := w'))
  {
    hide Good, L.Silent, ViewOf;
    SilentWaiting(s.w, w');
    forall id {
      SilentViews(s.w, w', s.n, s.sent, s.heard, id);
    }
  }

  lemma SilentWaiting(w: W.State, w': W.State)
    requires L.Silent(w, w')
    ensures w'.waiting == w.waiting && w'.ready == w.ready && w'.peers.Keys == w.peers.Keys && w.commands <= w'.commands
  {
  }

  lemma AddView(w: W.State, n: M.Network, sent: nat, heard: nat, id: Id, sdp: string, other: Id)
    requires sent <= |w.commands| && heard <= |n.out|
    ensures ViewOf(W.AddViewer(w, id, sdp), n, sent, heard, other)
         == if other == id && id in W.AddViewer(w, id, sdp).peers && id !in w.peers
            then Added(ViewOf(w, n, sent, heard, other)) else ViewOf(w, n, sent, heard, other)
  {
    hide W.Waiting, W.ValidPeerId;
    CommandsAppend(w.commands, W.AddPeer(id, sdp), sent, other);
  }

  lemma AddWaits(w: W.State, id: Id, sdp: string, other: Id)
    ensures var w' := W.AddViewer(w, id, sdp);
      && (W.Waiting(w'.waiting, other) ==> W.Waiting(w.waiting, other) || (other == id && !w.ready))
      && (other in w'.peers ==> other in w.peers || other == id)
      && (W.Waiting(w'.waiting, id) ==> W.Waiting(w.waiting, id) || id !in w'.peers)
      && w'.ready == w.ready && w.commands <= w'.commands && w'.started == w.started
      && (w.ready ==> w'.waiting == w.waiting)
  {
    hide W.ValidPeerId;
  }

  /** A viewer the system knows nothing about is added, or refused, or has to wait. */
  lemma KeepAdd(s: System, id: Id, sdp: string)
    requires Views(s) && (s.w.ready ==> s.w.waiting == [])
    requires id in s.w.peers || ViewOf(s.w, s.n, s.sent, s.heard, id) == CLEAN
    ensures Views(s.(w := W.AddViewer(s.w, id, sdp), used := s.used + {id}))
  {
    hide Good, ViewOf, W.AddViewer, W.Waiting;
    var w' := W.AddViewer(s.w, id, sdp);
    AddWaits(s.w, id, sdp, id);
    forall other ensures Good(ViewOf(w', s.n, s.sent, s.heard, other)) {
      AddView(s.w, s.n, s.sent, s.heard, id, sdp, other);
      if other == id && id in w'.peers && id !in s.w.peers {
        GoodAdded(ViewOf(s.w, s.n, s.sent, s.heard, id));
      }
    }
    forall other | other !in s.used + {id} || W.Waiting(w'.waiting, other)
      ensures ViewOf(w', s.n, s.sent, s.heard, other) == CLEAN
    {
      AddView(s.w, s.n, s.sent, s.heard, id, sdp, other);
      AddWaits(s.w, id, sdp, other);
      WaitsUnlessReady(s, id, sdp, other);
    }
  }

  lemma WaitsUnlessReady(s: System, id: Id, sdp: string, other: Id)
    requires s.w.ready ==> s.w.waiting == []
    ensures var w' := W.AddViewer(s.w, id, sdp);
      W.Waiting(w'.waiting, other) ==> !s.w.ready && w'.peers == s.w.peers
    ensures var w' := W.AddViewer(s.w, id, sdp);
      W.Waiting(w'.waiting, other) && !W.Waiting(s.w.waiting, other) ==> other == id && id !in s.w.peers
  {
    hide W.ValidPeerId;
  }

  lemma {:induction false} KeepAddAll(s: System, viewers: seq<(Id, string)>)
    requires Views(s) && s.w.ready && s.w.waiting == []
    requires forall i :: 0 <= i < |viewers| ==>
               viewers[i].0 in s.used
               && (viewers[i].0 in s.w.peers || ViewOf(s.w, s.n, s.sent, s.heard, viewers[i].0) == CLEAN)
    ensures var w' := W.AddAll(s.w, viewers);
      && Views(s.(w := w')) && w'.ready && w'.waiting == []
      && (forall id :: id in w'.peers ==> id in s.w.peers || id in s.used)
    decreases |viewers|
  {
    hide Good, ViewOf, W.AddViewer;
    if viewers != [] {
      var (id, sdp) := viewers[0];
      var w1 := W.AddViewer(s.w, id, sdp);
      KeepAdd(s, id, sdp);
      assert s.used + {id} == s.used;
      AddWaits(s.w, id, sdp, id);
      var rest := viewers[1..];
      forall i | 0 <= i < |rest|
        ensures rest[i].0 in s.used
        ensures rest[i].0 in w1.peers || ViewOf(w1, s.n, s.sent, s.heard, rest[i].0) == CLEAN
      {
        assert rest[i] == viewers[i + 1];
        AddView(s.w, s.n, s.sent, s.heard, id, sdp, rest[i].0);
        AddKeepsPeers(s.w, id, sdp, rest[i].0);
      }
      KeepAddAll(s.(w := w1), rest);
      forall other {
        AddWaits(s.w, id, sdp, other);
      }
    }
  }

  lemma AddKeepsPeers(w: W.State, id: Id, sdp: string, other: Id)
    ensures other in w.peers ==> other in W.AddViewer(w, id, sdp).peers
  {
    hide W.ValidPeerId, W.Waiting;
  }

  lemma {:induction false} WithoutWaits(waiting: seq<(Id, string)>, id: Id, other: Id)
    ensures W.Waiting(W.Without(waiting, id), other) ==> W.Waiting(waiting, other)
  {
    if waiting != [] {
      WithoutWaits(waiting[1..], id, other);
      if W.Waiting(W.Without(waiting, id), other) {
        if W.Waiting(W.Without(waiting[1..], id), other) {
          var i :| 0 <= i < |waiting[1..]| && waiting[1..][i].0 == other;
          assert waiting[i + 1].0 == other;
        } else {
          assert waiting[0].0 == other;
        }
      }
    }
  }

  /** The server's removal as one viewer sees it. */
  lemma RemoveView(w: W.State, n: M.Network, sent: nat, heard: nat, id: Id, ok: W.Oracle, other: Id)
    requires sent <= |w.commands| && heard <= |n.out| && V.WaitingFirst(w)
    ensures var w', v := W.RemoveViewer(W.Tell(w, W.RemoveAsked(id)), id, true, ok), ViewOf(w, n, sent, heard, other);
      && w.commands <= w'.commands && w'.ready == w.ready && w'.peers.Keys == w.peers.Keys
      && (W.Waiting(w'.waiting, other) ==> W.Waiting(w.waiting, other))
      && ViewOf(w', n, sent, heard, other) == if other == id && v.worker == Live then Removing(v) else v
  {
    hide W.BeginRemoval, W.Waiting, W.Without, CommandsFor, ReportsFor;
    WithoutWaits(w.waiting, id, other);
    if W.Waiting(w.waiting, id) {
      V.WaitingIsNoPeer(w, id);
    } else if id in w.peers && !w.peers[id].removing {
      RemoveLiveView(w, n, sent, heard, id, ok, other);
    }
  }

  lemma RemoveLiveView(w: W.State, n: M.Network, sent: nat, heard: nat, id: Id, ok: W.Oracle, other: Id)
    requires sent <= |w.commands| && heard <= |n.out|
    requires !W.Waiting(w.waiting, id) && id in w.peers && !w.peers[id].removing
    ensures var w', v := W.RemoveViewer(W.Tell(w, W.RemoveAsked(id)), id, true, ok), ViewOf(w, n, sent, heard, other);
      && w.commands <= w'.commands && w'.ready == w.ready && w'.peers.Keys == w.peers.Keys && w'.waiting == w.waiting
      && ViewOf(w', n, sent, heard, other) == if other == id then Removing(v) else v
  {
    hide W.BeginRemoval, W.Waiting, W.Without, CommandsFor, ReportsFor;
    var chatter := w.commands + [W.ControlState(id, false)];
    CommandsAppend(w.commands, W.ControlState(id, false), sent, other);
    CommandsAppend(chatter, W.RemovePeer(id), sent, other);
    var w' := W.RemoveViewer(W.Tell(w, W.RemoveAsked(id)), id, true, ok);
    assert w'.commands == chatter + [W.RemovePeer(id)];
  }

  lemma KeepRemove(s: System, id: Id, ok: W.Oracle)
    requires Views(s) && V.WaitingFirst(s.w)
    ensures Views(s.(w := W.RemoveViewer(W.Tell(s.w, W.RemoveAsked(id)), id, true, ok)))
  {
    hide Good, ViewOf, W.RemoveViewer, W.Waiting, V.WaitingFirst;
    var w' := W.RemoveViewer(W.Tell(s.w, W.RemoveAsked(id)), id, true, ok);
    RemoveView(s.w, s.n, s.sent, s.heard, id, ok, id);
    forall other ensures Good(ViewOf(w', s.n, s.sent, s.heard, other)) {
      RemoveView(s.w, s.n, s.sent, s.heard, id, ok, other);
      if ViewOf(s.w, s.n, s.sent, s.heard, other).worker == Live {
        GoodRemoving(ViewOf(s.w, s.n, s.sent, s.heard, other));
      }
    }
    forall other | other !in s.used || W.Waiting(w'.waiting, other)
      ensures ViewOf(w', s.n, s.sent, s.heard, other) == CLEAN
    {
      RemoveView(s.w, s.n, s.sent, s.heard, id, ok, other);
    }
  }

  // ---- Hearing a report

  /** The message at the head of the pipe back, handled. */
  function AfterHearing(s: System, ok: W.Oracle): W.State
    requires s.heard < |s.n.out|
  {
    W.FromNet(s.w, s.n.out[s.heard].message, ok)
  }

  lemma HearView(s: System, ok: W.Oracle, id: Id)
    requires s.w.started && s.sent <= |s.w.commands| && s.heard < |s.n.out| && !s.n.out[s.heard].message.NetReady?
    ensures var w', v := AfterHearing(s, ok), ViewOf(s.w, s.n, s.sent, s.heard, id);
      && s.w.commands <= w'.commands && w'.waiting == s.w.waiting && w'.ready == s.w.ready
      && (id in w'.peers ==> id in s.w.peers)
      && (ReportOf(s.n.out[s.heard], id) != [] ==> v.reports != [])
      && ViewOf(w', s.n, s.sent, s.heard + 1, id) == (if ReportOf(s.n.out[s.heard], id) == [] then v else Heard(v))
  {
    hide W.FailPeer, W.ClosePeer, W.RevokePeer, W.AddAll, CommandsFor, ReportsFor;
    ReportsTail(s.n.out, s.heard, id);
    var w', message := AfterHearing(s, ok), s.n.out[s.heard].message;
    if message.NetFailed? || message.NetClosed? {
      assert w'.commands == s.w.commands;
    } else {
      HearSilently(s.w, message, ok);
      ChatterIsNothing(s.w.commands, w'.commands, s.w.peers.Keys, s.sent, id);
    }
  }

  lemma HearSilently(w: W.State, message: W.NetMessage, ok: W.Oracle)
    requires !message.NetReady? && !message.NetFailed? && !message.NetClosed?
    ensures var w' := W.FromNet(w, message, ok);
      && L.OnlyChatter(w.commands, w'.commands, w.peers.Keys) && w'.waiting == w.waiting && w'.ready == w.ready
      && w'.peers.Keys == w.peers.Keys && forall id :: id in w.peers ==> w'.peers[id].removing == w.peers[id].removing
  {
    hide W.RevokePeer;
  }

  lemma KeepHear(s: System, ok: W.Oracle)
    requires Views(s) && s.w.started && s.heard < |s.n.out| && !s.n.out[s.heard].message.NetReady?
    ensures Views(s.(w := AfterHearing(s, ok), heard := s.heard + 1))
  {
    hide Good, ViewOf, AfterHearing, W.Waiting;
    var w', next := AfterHearing(s, ok), s.heard + 1;
    HearView(s, ok, "");
    forall id ensures Good(ViewOf(w', s.n, s.sent, next, id)) {
      HearView(s, ok, id);
      var v := ViewOf(s.w, s.n, s.sent, s.heard, id);
      if ReportOf(s.n.out[s.heard], id) != [] {
        GoodHeard(v);
      }
    }
    forall id | id !in s.used || W.Waiting(w'.waiting, id) ensures ViewOf(w', s.n, s.sent, next, id) == CLEAN {
      HearView(s, ok, id);
    }
  }

  /** The one report that media-net is ready: everyone who waited is added, in order. */
  lemma KeepReady(s: System, ok: W.Oracle)
    requires Views(s) && s.w.started && !s.w.ready && s.heard < |s.n.out| && s.n.out[s.heard].message.NetReady?
    requires forall id :: W.Waiting(s.w.waiting, id) ==> id in s.used
    ensures var w' := AfterHearing(s, ok);
      && Views(s.(w := w', heard := s.heard + 1)) && w'.ready && w'.waiting == []
      && (forall id :: id in w'.peers ==> id in s.w.peers || id in s.used)
  {
    hide Good, ViewOf, W.AddAll;
    var w1 := s.w.(ready := true, waiting := []);
    var s1 := s.(w := w1, heard := s.heard + 1);
    forall id ensures ViewOf(w1, s.n, s.sent, s1.heard, id) == ViewOf(s.w, s.n, s.sent, s.heard, id) {
      ReadyView(s, id);
    }
    forall i | 0 <= i < |s.w.waiting|
      ensures s.w.waiting[i].0 in s1.used && ViewOf(w1, s.n, s.sent, s1.heard, s.w.waiting[i].0) == CLEAN
    {
      assert W.Waiting(s.w.waiting, s.w.waiting[i].0);
    }
    KeepAddAll(s1, s.w.waiting);
  }

  lemma ReadyView(s: System, id: Id)
    requires s.sent <= |s.w.commands| && s.heard < |s.n.out| && s.n.out[s.heard].message.NetReady?
    ensures ViewOf(s.w.(ready := true, waiting := []), s.n, s.sent, s.heard + 1, id) == ViewOf(s.w, s.n, s.sent, s.heard, id)
  {
    ReportsTail(s.n.out, s.heard, id);
    assert [] + ReportsFor(s.n.out[s.heard + 1..], id) == ReportsFor(s.n.out[s.heard + 1..], id);
  }

  // ---- Steps of media-net

  /** What an operation of media-net on one viewer leaves of every viewer's view. */
  lemma NetRemoveView(w: W.State, n: M.Network, sent: nat, heard: nat, id: Id, other: Id)
    requires sent <= |w.commands| && heard <= |n.out|
    ensures var n', v := M.Remove(n, id), ViewOf(w, n, sent, heard, other);
      && NotReady(n.out, n'.out)
      && ViewOf(w, n', sent, heard, other)
         == if other == id then NetRemoved(v, if id in n.peers then n.peers[id].pads else 0) else v
  {
    hide CommandsFor, ReportsFor, M.DestroyPeer;
    if id !in n.peers {
      NetEmitView(w, n, sent, heard, M.Report(W.NetClosed(id), None), other);
    } else if !n.peers[id].removing {
      var n1 := n.(peers := n.peers[id := M.RemovalOf(n, id)]);
      if n.peers[id].pads == 0 {
        NetDestroyView(w, n1, sent, heard, id, other);
      }
    }
  }

  lemma NetFailView(w: W.State, n: M.Network, sent: nat, heard: nat, id: Id, other: Id)
    requires sent <= |w.commands| && heard <= |n.out| && id in n.peers
    ensures var n', v := M.FailPeer(n, id), ViewOf(w, n, sent, heard, other);
      && NotReady(n.out, n'.out)
      && ViewOf(w, n', sent, heard, other) == if other == id then NetFailedView(v, n.peers[id].pads) else v
  {
    hide CommandsFor, ReportsFor, M.Remove;
    if !n.peers[id].removing {
      var r := M.Report(W.NetFailed(id), Some(n.peers[id].index));
      ReportsAppend(n.out, r, heard, other);
      NetRemoveView(w, n.(out := n.out + [r]), sent, heard, id, other);
    }
  }

  lemma NetEmitView(w: W.State, n: M.Network, sent: nat, heard: nat, r: M.Report, other: Id)
    requires sent <= |w.commands| && heard <= |n.out|
    ensures var n', v := M.Emit(n, r.message, r.who), ViewOf(w, n, sent, heard, other);
      && n.out <= n'.out && (!r.message.NetReady? ==> NotReady(n.out, n'.out))
      && ViewOf(w, n', sent, heard, other) == v.(reports := v.reports + ReportOf(r, other))
  {
    hide CommandsFor;
    ReportsAppend(n.out, r, heard, other);
  }

  /** What media-net says about no viewer, and whether it runs, changes no view. */
  lemma NetSaysView(w: W.State, n: M.Network, sent: nat, heard: nat, message: W.NetMessage, n': M.Network, other: Id)
    requires sent <= |w.commands| && heard <= |n.out|
    requires !message.NetFailed? && !message.NetClosed?
    requires n'.peers == n.peers && (n'.out == n.out || n'.out == n.out + [M.Report(message, None)])
    ensures ViewOf(w, n', sent, heard, other) == ViewOf(w, n, sent, heard, other)
    ensures n.out <= n'.out && (!message.NetReady? ==> NotReady(n.out, n'.out))
  {
    hide CommandsFor, ReportsFor;
    var v := ViewOf(w, n, sent, heard, other);
    NetEmitView(w, n, sent, heard, M.Report(message, None), other);
    assert v.reports + [] == v.reports;
  }

  lemma NetDestroyView(w: W.State, n: M.Network, sent: nat, heard: nat, id: Id, other: Id)
    requires sent <= |w.commands| && heard <= |n.out| && id in n.peers && n.peers[id].removing
    ensures var n', v := M.DestroyPeer(n, id), ViewOf(w, n, sent, heard, other);
      && NotReady(n.out, n'.out)
      && ViewOf(w, n', sent, heard, other)
         == if other == id then v.(net := Absent, reports := v.reports + [HasClosed]) else v
  {
    hide CommandsFor;
    ReportsAppend(n.out, M.Report(W.NetClosed(id), Some(n.peers[id].index)), heard, other);
  }

  /** A task or an unlink, as one viewer sees it. */
  lemma NetTaskGood(s: System, n': M.Network, task: M.Step, id: Id)
    requires Views(s) && M.Inv(s.n) && n' == M.Apply(s.n, task) && !s.n.stopped
    requires !task.CommandStep? && !task.LoadStep?
    ensures NotReady(s.n.out, n'.out)
    ensures var v' := ViewOf(s.w, n', s.sent, s.heard, id);
      Good(v') && (ViewOf(s.w, s.n, s.sent, s.heard, id) == CLEAN ==> v' == CLEAN)
  {
    hide Good, ViewOf, M.FailPeer, M.DestroyPeer, M.LogInv;
    var n, v := s.n, ViewOf(s.w, s.n, s.sent, s.heard, id);
    NetSideOf(s, id);
    match task
    case AnswerStep(ref, sdp) =>
      if M.Finds(n, ref) && sdp.Some? {
        NetEmitView(s.w, n, s.sent, s.heard, M.Report(W.NetAnswer(ref.id, sdp.value), Some(ref.index)), id);
        AnswerSideSame(s, ref, sdp.value, id);
        assert v.reports + [] == v.reports;
      }
    case FailStep(ref) =>
      if M.Finds(n, ref) {
        NetFailView(s.w, n, s.sent, s.heard, ref.id, id);
        GoodFailedAtNet(v, n.peers[ref.id].pads);
      }
    case ChatterStep(message) =>
      if message.ChannelClosed? || message.NetOther? {
        NetSaysView(s.w, n, s.sent, s.heard, message, n', id);
      }
    case UnlinkStep(ref) => if ref in n.unlinks { UnlinkGood(s, ref, id); }
    case BusErrorStep => NetSaysView(s.w, n, s.sent, s.heard, W.NetFatal, n', id);
    case SilentEndStep => NetSaysView(s.w, n, s.sent, s.heard, W.NetFatal, n', id);
  }

  lemma NetSideOf(s: System, id: Id)
    requires s.sent <= |s.w.commands| && s.heard <= |s.n.out|
    ensures ViewOf(s.w, s.n, s.sent, s.heard, id).net == NetSide(s.n.peers, id)
  {
  }

  lemma AnswerSideSame(s: System, ref: M.Ref, sdp: string, id: Id)
    requires s.sent <= |s.w.commands| && s.heard <= |s.n.out| && M.Finds(s.n, ref)
    ensures var n1 := M.Emit(s.n, W.NetAnswer(ref.id, sdp), Some(ref.index));
      ViewOf(s.w, n1.(peers := s.n.peers[ref.id := s.n.peers[ref.id].(answered := true)]), s.sent, s.heard, id)
      == ViewOf(s.w, n1, s.sent, s.heard, id)
  {
    hide CommandsFor, ReportsFor;
  }

  lemma UnlinkGood(s: System, ref: M.Ref, id: Id)
    requires Views(s) && M.Inv(s.n) && ref in s.n.unlinks
    ensures var n' := M.Unlinked(s.n, ref);
      NotReady(s.n.out, n'.out)
    ensures var v' := ViewOf(s.w, M.Unlinked(s.n, ref), s.sent, s.heard, id);
      Good(v') && (ViewOf(s.w, s.n, s.sent, s.heard, id) == CLEAN ==> v' == CLEAN)
  {
    hide Good, CommandsFor, ReportsFor, M.LogInv, M.DestroyPeer;
    var n := s.n;
    M.UnlinksLess(n.peers, n.unlinks, ref);
    var p := n.peers[ref.id].(pending := n.peers[ref.id].pending - 1);
    var n1 := n.(unlinks := n.unlinks[ref := n.unlinks[ref] - 1], peers := n.peers[ref.id := p]);
    assert n.peers[ref.id].removing;
    assert ViewOf(s.w, n1, s.sent, s.heard, id) == ViewOf(s.w, n, s.sent, s.heard, id);
    if p.pending == 0 {
      NetDestroyView(s.w, n1, s.sent, s.heard, ref.id, id);
      if id == ref.id {
        GoodDestroyed(ViewOf(s.w, n, s.sent, s.heard, id));
      }
    }
  }

  lemma KeepTask(s: System, task: M.Step)
    requires Views(s) && M.Inv(s.n) && !s.n.stopped
    requires !task.CommandStep? && !task.LoadStep?
    ensures Views(s.(n := M.Apply(s.n, task))) && NotReady(s.n.out, M.Apply(s.n, task).out)
  {
    hide Good, ViewOf, M.Apply, M.Inv, W.Waiting;
    NetTaskGood(s, M.Apply(s.n, task), task, "");
    forall id {
      NetTaskGood(s, M.Apply(s.n, task), task, id);
    }
  }

  lemma KeepLoad(s: System, complete: bool)
    requires Views(s) && !s.n.ready && !s.n.stopped
    ensures Views(s.(n := M.Load(s.n, complete)))
  {
    hide Good, ViewOf, W.Waiting;
    var n', message := M.Load(s.n, complete), if complete then W.NetReady else W.NetFatal;
    ViewsMeans(s);
    forall id ensures ViewOf(s.w, n', s.sent, s.heard, id) == ViewOf(s.w, s.n, s.sent, s.heard, id) {
      NetSaysView(s.w, s.n, s.sent, s.heard, message, n', id);
    }
  }

  /** Only its first command changes what the network half knows of a viewer. */
  lemma DeliverGood(s: System, outcome: M.Outcome, id: Id)
    requires Views(s) && M.Inv(s.n) && s.n.ready && !s.n.stopped
    requires s.sent < |s.w.commands| && C.Proper(s.w.commands[s.sent], s.sent)
    ensures var n' := M.Apply(s.n, M.CommandStep(s.w.commands[s.sent], outcome));
      && NotReady(s.n.out, n'.out) && n'.ready
    ensures var v' := ViewOf(s.w, M.Apply(s.n, M.CommandStep(s.w.commands[s.sent], outcome)), s.sent + 1, s.heard, id);
      Good(v') && (ViewOf(s.w, s.n, s.sent, s.heard, id) == CLEAN ==> v' == CLEAN)
  {
    hide Good, CommandsFor, ReportsFor, M.Add, M.Remove, M.Inv, W.ValidPeerId;
    var c, n, v := s.w.commands[s.sent], s.n, ViewOf(s.w, s.n, s.sent, s.heard, id);
    CommandsTail(s.w.commands, s.sent, id);
    assert Good(v);
    assert [] + CommandsFor(s.w.commands[s.sent + 1..], id) == CommandsFor(s.w.commands[s.sent + 1..], id);
    match c
    case Configure => NetSaysView(s.w, n, s.sent + 1, s.heard, W.NetFatal, M.Command(n, c, outcome), id);
    case ControlState(_, _) =>
    case AddPeer(other, _) => AddAtNet(s, other, outcome, id);
    case RemovePeer(other) =>
      NetRemoveView(s.w, n, s.sent + 1, s.heard, other, id);
      RemoveKeeps(n, other);
      if id == other {
        GoodRemovedAtNet(v, if id in n.peers then n.peers[id].pads else 0);
      }
  }

  lemma RemoveKeeps(n: M.Network, id: Id)
    ensures var n' := M.Remove(n, id); n'.ready == n.ready && n'.configured == n.configured && n'.stopped == n.stopped
  {
  }

  lemma AddAtNet(s: System, other: Id, outcome: M.Outcome, id: Id)
    requires Views(s) && s.sent < |s.w.commands|
    requires s.w.commands[s.sent].AddPeer? && s.w.commands[s.sent].id == other
    ensures var n', v' := M.Add(s.n, other, outcome), ViewOf(s.w, M.Add(s.n, other, outcome), s.sent + 1, s.heard, id);
      && NotReady(s.n.out, n'.out) && n'.ready == s.n.ready
      && Good(v') && (ViewOf(s.w, s.n, s.sent, s.heard, id) == CLEAN ==> v' == CLEAN)
  {
    hide Good, CommandsFor, ReportsFor, M.FailPeer;
    CommandsTail(s.w.commands, s.sent, id);
    var n, v := s.n, ViewOf(s.w, s.n, s.sent, s.heard, id);
    assert Good(v);
    var v1 := ViewOf(s.w, n, s.sent + 1, s.heard, id);
    NetEmitView(s.w, n, s.sent + 1, s.heard, M.Report(W.NetFailed(other), None), id);
    if id == other {
      assert v.commands == [ToAdd] + v1.commands && v.commands[1..] == v1.commands;
      GoodAddedAtNet(v, if outcome.Refused? || outcome.NotBuilt? then 0 else outcome.pads);
      assert [] + [HasFailed] == [HasFailed];
    } else {
      assert v1.reports + [] == v1.reports && [] + v1.commands == v1.commands;
    }
    if n.configured && other !in n.peers && !outcome.Refused? && !outcome.NotBuilt? {
      var n1 := M.Inserted(n, other, outcome.pads);
      assert ViewOf(s.w, n1, s.sent + 1, s.heard, id) == if id == other then v1.(net := Live) else v1;
      NetFailView(s.w, n1, s.sent + 1, s.heard, other, id);
      FailKeeps(n1, other);
    }
  }

  lemma KeepDeliver(s: System, outcome: M.Outcome)
    requires Views(s) && M.Inv(s.n) && s.n.ready && !s.n.stopped
    requires s.sent < |s.w.commands| && C.Proper(s.w.commands[s.sent], s.sent)
    ensures var n' := M.Apply(s.n, M.CommandStep(s.w.commands[s.sent], outcome));
      NotReady(s.n.out, n'.out) && n'.ready && Views(s.(n := n', sent := s.sent + 1))
  {
    hide Good, ViewOf, M.Apply, M.Inv, W.Waiting, C.Proper;
    var n', next := M.Apply(s.n, M.CommandStep(s.w.commands[s.sent], outcome)), s.sent + 1;
    DeliverGood(s, outcome, "");
    forall id ensures Good(ViewOf(s.w, n', next, s.heard, id)) {
      DeliverGood(s, outcome, id);
    }
    forall id | id !in s.used || W.Waiting(s.w.waiting, id) ensures ViewOf(s.w, n', next, s.heard, id) == CLEAN {
      DeliverGood(s, outcome, id);
    }
  }

  // ---- Every step

  lemma KeepServer(s: System, e: W.Event, ok: W.Oracle)
    requires Inv(s) && !s.w.stopped
    ensures Inv(Apply(s, Server(e), ok))
  {
    hide V.Inv, C.Conduct, M.Inv, Views, ReadyInv, W.Apply, W.Waiting, W.AddViewer, L.Silent;
    var s' := Apply(s, Server(e), ok);
    if e.Net? || (e.Add? && e.id in s.used) || s'.w.stopped {
      return;
    }
    V.KeepApply(s.w, e, ok);
    C.KeepServer(s.w, e, ok);
    WaitingFirstOf(s.w);
    if L.Lively(e) {
      ServerLively(s, e, ok);
    } else {
      L.OthersAreSilent(s.w, e, ok);
      SilentWaiting(s.w, s'.w);
      KeepSilent(s, s'.w);
    }
  }

  lemma WaitingFirstOf(w: W.State)
    requires V.Inv(w)
    ensures V.WaitingFirst(w)
  {
  }

  lemma ServerLively(s: System, e: W.Event, ok: W.Oracle)
    requires Views(s) && Joined(s) && V.WaitingFirst(s.w) && !s.w.stopped
    requires L.Lively(e) && !e.Net? && !(e.Add? && e.id in s.used) && !W.Apply(s.w, e, ok).stopped
    ensures var w' := W.Apply(s.w, e, ok);
      var s' := s.(w := w', used := if e.Add? then s.used + {e.id} else s.used);
      Views(s') && Joined(s')
  {
    hide Views, ReadyInv, W.Waiting, W.AddViewer, W.RemoveViewer, V.WaitingFirst, ViewOf;
    if e.Add? {
      CleanUnused(s, e.id);
      WaitsIfReady(s.w);
      KeepAdd(s, e.id, e.sdp);
      forall other {
        AddWaits(s.w, e.id, e.sdp, other);
      }
    } else if e.Start? {
      KeepStart(s, e.video);
    } else {
      KeepRemove(s, e.id, ok);
      ViewsMeans(s);
      var w' := W.RemoveViewer(W.Tell(s.w, W.RemoveAsked(e.id)), e.id, true, ok);
      assert w' == W.Apply(s.w, e, ok);
      RemoveView(s.w, s.n, s.sent, s.heard, e.id, ok, e.id);
      forall other | other in w'.peers || W.Waiting(w'.waiting, other) ensures other in s.used {
        RemoveView(s.w, s.n, s.sent, s.heard, e.id, ok, other);
      }
    }
  }

  lemma KeepStart(s: System, video: bool)
    requires Views(s)
    ensures Views(s.(w := W.Send(s.w.(started := true, videoEnabled := video), W.Configure)))
  {
    hide Good, ViewOf, W.Waiting;
    ViewsMeans(s);
    forall id {
      StartView(s, video, id);
    }
  }

  lemma StartView(s: System, video: bool, id: Id)
    requires s.sent <= |s.w.commands| && s.heard <= |s.n.out|
    ensures ViewOf(W.Send(s.w.(started := true, videoEnabled := video), W.Configure), s.n, s.sent, s.heard, id)
         == ViewOf(s.w, s.n, s.sent, s.heard, id)
  {
    CommandsAppend(s.w.commands, W.Configure, s.sent, id);
  }

  lemma ViewsMeans(s: System)
    requires Views(s)
    ensures s.sent <= |s.w.commands| && s.heard <= |s.n.out|
  {
  }

  lemma CleanUnused(s: System, id: Id)
    requires Views(s) && id !in s.used
    ensures s.sent <= |s.w.commands| && s.heard <= |s.n.out| && ViewOf(s.w, s.n, s.sent, s.heard, id) == CLEAN
  {
  }

  lemma WaitsIfReady(w: W.State)
    requires V.WaitingFirst(w)
    ensures w.ready ==> w.waiting == []
  {
  }

  lemma KeepHearing(s: System, ok: W.Oracle)
    requires Inv(s) && !s.w.stopped && s.w.started && s.heard < |s.n.out|
    ensures Inv(Apply(s, Hear, ok))
  {
    hide V.Inv, C.Conduct, M.Inv, Views, ReadyInv, AfterHearing, W.Waiting;
    var message, w' := s.n.out[s.heard].message, AfterHearing(s, ok);
    V.KeepApply(s.w, W.Net(message), ok);
    C.KeepHearing(s.w, message, ok);
    assert w' == W.Apply(s.w, W.Net(message), ok) by { HearingIsApply(s, ok); }
    ReadyHeard(s.n.out, s.heard, s.n.ready, s.w.ready);
    if message.NetReady? {
      KeepReady(s, ok);
      NobodyWaits(w');
    } else {
      KeepHear(s, ok);
      ViewsMeans(s);
      forall id {
        HearView(s, ok, id);
      }
      HearView(s, ok, "");
    }
  }

  lemma HearingIsApply(s: System, ok: W.Oracle)
    requires s.heard < |s.n.out| && !s.w.stopped
    ensures AfterHearing(s, ok) == W.Apply(s.w, W.Net(s.n.out[s.heard].message), ok)
  {
  }

  lemma NobodyWaits(w: W.State)
    requires w.waiting == []
    ensures forall id :: !W.Waiting(w.waiting, id)
  {
  }

  lemma KeepApply(s: System, step: Step, ok: W.Oracle)
    requires Inv(s)
    ensures Inv(Apply(s, step, ok))
  {
    hide V.Inv, C.Conduct, M.Inv, Views, ReadyInv, W.Apply, M.Apply, W.Waiting;
    if s.w.stopped {
      return;
    }
    match step
    case Server(e) => KeepServer(s, e, ok);
    case Deliver(outcome) =>
      if !s.n.stopped && s.n.ready && s.sent < |s.w.commands| {
        var n' := M.Apply(s.n, M.CommandStep(s.w.commands[s.sent], outcome));
        C.NextIsProper(s.w, s.sent);
        M.KeepApply(s.n, M.CommandStep(s.w.commands[s.sent], outcome));
        KeepDeliver(s, outcome);
        ViewsMeans(s);
        ReadyKept(s.n.out, n'.out, s.heard, s.n.ready, s.w.ready);
      }
    case Hear => if s.w.started && s.heard < |s.n.out| { KeepHearing(s, ok); }
    case Task(task) => if !task.CommandStep? && !task.UnlinkStep? { KeepNet(s, task); }
    case Unlink(ref) => KeepNet(s, M.UnlinkStep(ref));
  }

  /** Whatever media-net does but handle a command. */
  lemma KeepNet(s: System, task: M.Step)
    requires Inv(s) && !s.w.stopped && !task.CommandStep?
    ensures Inv(s.(n := M.Apply(s.n, task)))
  {
    hide V.Inv, C.Conduct, M.Inv, Views, ReadyInv, NotReady, M.Apply, W.Waiting;
    var n' := M.Apply(s.n, task);
    M.KeepApply(s.n, task);
    ViewsMeans(s);
    TaskKeeps(s.n, task);
    if s.n.stopped || (task.LoadStep? && s.n.ready) {
      assert s.(n := n') == s;
    } else if task.LoadStep? {
      KeepLoad(s, task.complete);
      LoadIs(s.n, task);
      NobodyReady(s.n.out, s.heard, s.w.ready);
      if task.complete {
        ReadySaid(s.n.out, s.heard, M.Report(W.NetReady, None));
      } else {
        ReadyKept(s.n.out, n'.out, s.heard, s.n.ready, s.w.ready);
      }
    } else {
      KeepTask(s, task);
      ReadyKept(s.n.out, n'.out, s.heard, s.n.ready, s.w.ready);
    }
  }

  lemma NobodyReady(out: seq<M.Report>, heard: nat, workerReady: bool)
    requires ReadyInv(out, heard, false, workerReady) && heard <= |out|
    ensures !workerReady
  {
    if HasReady(out, heard) {
      assert HasReady(out, |out|);
    }
  }

  lemma LoadIs(n: M.Network, task: M.Step)
    requires !n.stopped && !n.ready && task.LoadStep?
    ensures M.Apply(n, task) == M.Load(n, task.complete)
    ensures !task.complete ==> NotReady(n.out, M.Apply(n, task).out)
  {
  }

  lemma TaskKeeps(n: M.Network, task: M.Step)
    requires !task.CommandStep?
    ensures var n' := M.Apply(n, task);
      n'.configured == n.configured && (task.LoadStep? || n'.ready == n.ready)
      && (n.stopped || (task.LoadStep? && n.ready) ==> n' == n)
  {
    hide M.FailPeer;
    if task.FailStep? && M.Finds(n, task.ref) {
      FailKeeps(n, task.ref.id);
    }
  }

  lemma FailKeeps(n: M.Network, id: Id)
    requires id in n.peers
    ensures var n' := M.FailPeer(n, id); n'.ready == n.ready && n'.configured == n.configured && n'.stopped == n.stopped
  {
    hide M.Remove;
    RemoveKeeps(M.Emit(n, W.NetFailed(id), Some(n.peers[id].index)), id);
  }

  lemma InitialInv()
    ensures Inv(INITIAL)
  {
    M.StartInv();
    forall id ensures ViewOf(W.INITIAL, M.LAUNCHED, 0, 0, id) == CLEAN {
      assert W.INITIAL.commands[0..] == [];
      assert M.LAUNCHED.out[0..] == M.LAUNCHED.out && M.LAUNCHED.out[..0] == [];
      assert ReportsFor(M.LAUNCHED.out, id) == [];
    }
  }

  lemma {:induction false} InvAlways(steps: seq<Step>, ok: W.Oracle)
    ensures Inv(Run(steps, ok))
  {
    hide Inv, Apply;
    if steps == [] {
      InitialInv();
    } else {
      InvAlways(steps[..|steps| - 1], ok);
      KeepApply(Run(steps[..|steps| - 1], ok), steps[|steps| - 1], ok);
    }
  }

  // ---- The results

  /** Nothing is under way: both pipes are empty and no unlink is still to come. */
  predicate Quiet(s: System) {
    !s.w.stopped && !s.n.stopped && s.sent == |s.w.commands| && s.heard == |s.n.out| && s.n.unlinks == multiset{}
  }

  /**
   Whatever crossed on the way - failures and removals, answers, closes of viewers that were
   already forgotten - once nothing is under way both sides know exactly the same viewers, and
   none of them is half removed.
   */
  lemma SidesAgree(steps: seq<Step>, ok: W.Oracle)
    requires Quiet(Run(steps, ok))
    ensures var s := Run(steps, ok);
      && s.w.peers.Keys == s.n.peers.Keys
      && forall id :: id in s.w.peers ==> !s.w.peers[id].removing && !s.n.peers[id].removing
  {
    hide V.Inv, M.LogInv, Run;
    InvAlways(steps, ok);
    var s := Run(steps, ok);
    forall id ensures WorkerSide(s.w.peers, id) == NetSide(s.n.peers, id) != Leaving {
      QuietView(s, id);
    }
    forall id ensures id in s.w.peers <==> id in s.n.peers {
      assert WorkerSide(s.w.peers, id) == NetSide(s.n.peers, id);
    }
    forall id | id in s.w.peers ensures !s.w.peers[id].removing && !s.n.peers[id].removing {
      assert WorkerSide(s.w.peers, id) == NetSide(s.n.peers, id) != Leaving;
    }
  }

  lemma QuietView(s: System, id: Id)
    requires Quiet(s) && Views(s) && M.UnlinksInv(s.n.peers, s.n.unlinks)
    ensures WorkerSide(s.w.peers, id) == NetSide(s.n.peers, id) != Leaving
  {
    var v := ViewOf(s.w, s.n, s.sent, s.heard, id);
    assert s.w.commands[s.sent..] == [] && s.n.out[s.heard..] == [];
    assert v.commands == [] && v.reports == [];
    assert v.net != Leaving;
    assert Good(v);
  }

  /** ... and by then every removal the server asked for has been reported to it afterwards. */
  lemma EveryRemovalReported(steps: seq<Step>, ok: W.Oracle, i: nat, id: Id)
    requires Quiet(Run(steps, ok))
    requires i < |Run(steps, ok).w.server| && Run(steps, ok).w.server[i] == W.RemoveAsked(id)
    ensures var w := Run(steps, ok).w;
      exists j :: i < j < |w.server| && w.server[j].Closed? && w.server[j].id == id
  {
    hide M.Inv, Run, Views;
    SidesAgree(steps, ok);
    InvAlways(steps, ok);
    var w := Run(steps, ok).w;
    RemovalsOf(w);
    assert V.Owed(w.peers, id) || exists j :: i < j < |w.server| && V.IsClosed(w.server[j], id);
    assert !V.Owed(w.peers, id);
    var j :| i < j < |w.server| && V.IsClosed(w.server[j], id);
    assert w.server[j].Closed?;
  }

  lemma RemovalsOf(w: W.State)
    requires V.Inv(w)
    ensures V.RemovalsReported(w.server, w.peers) && V.Balanced(w.server, w.peers)
  {
  }

  // ---- Progress

  /** A step in which something that is under way arrives. */
  predicate Arrives(s: System, step: Step) {
    match step
    case Deliver(_) => s.n.ready && s.sent < |s.w.commands|
    case Hear => s.w.started && s.heard < |s.n.out|
    case Unlink(ref) => ref in s.n.unlinks
    case _ => false
  }

  /** How much is under way: an upper bound on the arrivals until nothing is. */
  function UnderWay(s: System): int {
    6 * (|s.w.commands| - s.sent) + 2 * |s.n.unlinks| + (|s.n.out| - s.heard) + 7 * |s.w.waiting|
  }

  lemma RemoveCost(n: M.Network, id: Id)
    ensures var n' := M.Remove(n, id); 2 * |n'.unlinks| + |n'.out| <= 2 * |n.unlinks| + |n.out| + 4
  {
  }

  lemma CommandCost(n: M.Network, c: W.NetCommand, outcome: M.Outcome)
    ensures var n' := M.Apply(n, M.CommandStep(c, outcome)); 2 * |n'.unlinks| + |n'.out| <= 2 * |n.unlinks| + |n.out| + 5
  {
    hide M.Remove, W.ValidPeerId;
    match c
    case AddPeer(id, _) =>
      if n.configured && id !in n.peers && !outcome.Refused? && !outcome.NotBuilt? {
        RemoveCost(M.Emit(M.Inserted(n, id, outcome.pads), W.NetFailed(id), Some(n.nextIndex)), id);
      }
    case RemovePeer(id) => RemoveCost(n, id);
    case _ =>
  }

  lemma {:induction false} AddAllCost(w: W.State, viewers: seq<(Id, string)>)
    requires w.ready
    ensures var w' := W.AddAll(w, viewers); |w'.commands| <= |w.commands| + |viewers| && w'.waiting == w.waiting
    decreases |viewers|
  {
    hide W.ValidPeerId, W.Waiting;
    if viewers != [] {
      AddAllCost(W.AddViewer(w, viewers[0].0, viewers[0].1), viewers[1..]);
    }
  }

  lemma HearCost(w: W.State, message: W.NetMessage, ok: W.Oracle)
    ensures var w' := W.FromNet(w, message, ok);
      6 * |w'.commands| + 7 * |w'.waiting| <= 6 * |w.commands| + 7 * |w.waiting|
  {
    hide W.RevokePeer, W.FailPeer, W.ClosePeer, W.AddAll;
    if message.NetReady? && w.started && !w.ready {
      AddAllCost(w.(ready := true, waiting := []), w.waiting);
    }
  }

  /** Each arrival leaves strictly less under way, so arrivals alone always reach quiet. */
  lemma ArrivalsRunOut(s: System, step: Step, ok: W.Oracle)
    requires !s.w.stopped && !s.n.stopped && Arrives(s, step)
    ensures UnderWay(Apply(s, step, ok)) < UnderWay(s)
  {
    hide M.Apply, W.FromNet;
    match step
    case Deliver(outcome) => CommandCost(s.n, s.w.commands[s.sent], outcome);
    case Hear =>
      HearCost(s.w, s.n.out[s.heard].message, ok);
      HearingIsApply(s, ok);
    case Unlink(ref) => UnlinkCost(s.n, ref);
  }

  lemma UnlinkCost(n: M.Network, ref: M.Ref)
    requires ref in n.unlinks && !n.stopped
    ensures var n' := M.Apply(n, M.UnlinkStep(ref)); 2 * |n'.unlinks| + |n'.out| < 2 * |n.unlinks| + |n.out|
  {
  }

  /** In a started system, either nothing is under way or something can arrive. */
  lemma QuietOrArrives(steps: seq<Step>, ok: W.Oracle) returns (step: Step)
    requires var s := Run(steps, ok); s.w.started && !s.w.stopped && s.n.ready && !s.n.stopped
    ensures Quiet(Run(steps, ok)) || (Arrives(Run(steps, ok), step) && step != Deliver(M.Refused))
    ensures UnderWay(Run(steps, ok)) >= 0
  {
    hide V.Inv, C.Conduct, M.Inv, Run;
    InvAlways(steps, ok);
    var s := Run(steps, ok);
    ViewsMeans(s);
    if s.sent < |s.w.commands| {
      step := Deliver(M.Accepted(0));
    } else if s.heard < |s.n.out| {
      step := Hear;
    } else if s.n.unlinks != multiset{} {
      var ref :| ref in s.n.unlinks;
      step := Unlink(ref);
    } else {
      step := Hear;
    }
  }

  lemma OneMore(steps: seq<Step>, step: Step, ok: W.Oracle)
    ensures Run(steps + [step], ok) == Apply(Run(steps, ok), step, ok)
  {
    hide Apply;
    assert (steps + [step])[..|steps|] == steps;
  }

  lemma StaysStarted(s: System, step: Step, ok: W.Oracle)
    requires s.w.started && Arrives(s, step)
    ensures Apply(s, step, ok).w.started
  {
    hide M.Apply, W.FromNet, W.ReleaseHeld;
    if step.Hear? && !s.w.stopped {
      FromNetStarted(s.w, s.n.out[s.heard].message, ok);
      HearingIsApply(s, ok);
    }
  }

  lemma {:induction false} AddAllStarted(w: W.State, viewers: seq<(Id, string)>)
    ensures W.AddAll(w, viewers).started == w.started
    decreases |viewers|
  {
    hide W.ValidPeerId, W.Waiting;
    if viewers != [] {
      AddAllStarted(W.AddViewer(w, viewers[0].0, viewers[0].1), viewers[1..]);
    }
  }

  lemma FromNetStarted(w: W.State, message: W.NetMessage, ok: W.Oracle)
    ensures W.FromNet(w, message, ok).started == w.started
  {
    hide W.RevokePeer, W.FailPeer, W.ClosePeer, W.AddAll;
    AddAllStarted(w.(ready := true, waiting := []), w.waiting);
  }
}
