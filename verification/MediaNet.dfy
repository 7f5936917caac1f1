/**
 The network half of the peer protocol (media-net.cpp): viewers' connections, the tasks that
 GStreamer threads queue for them, and their asynchronous removal.
 */
module MediaNet {
  import opened Bytes
  import opened Permission
  import opened Worker

  /** The tee pads that feed a viewer: at most one of each fan-out. */
  type Pads = n: nat | n <= 2

  /** One viewer's connection. */
  datatype NetPeer = NetPeer(index: nat, pads: Pads, answered: bool, removing: bool, pending: int)

  /** What callbacks carry instead of a peer. */
  datatype Ref = Ref(id: Id, index: nat)

  /** A message to the worker, with the incarnation it is about (history). */
  datatype Report = Report(message: NetMessage, who: Option<nat>)

  /**
   `unlinks` are the unlink completions still to come. The indices of all incarnations there ever
   were, `born`, and everything emitted so far, `out`, are history.
   */
  datatype Network = Network(
    ready: bool, configured: bool, stopped: bool, peers: map<Id, NetPeer>, nextIndex: nat,
    born: set<nat>, unlinks: multiset<Ref>, out: seq<Report>)

  const LAUNCHED := Network(false, false, false, map[], 0, {}, multiset{}, [])

  /**
   How GStreamer and the offer decide about a new viewer, or about a configuration (refused or
   not): foreign to this model. A viewer can be refused before or after it is given an index.
   */
  datatype Outcome = Refused | NotBuilt | LinkFailed(pads: Pads) | Accepted(pads: Pads)

  function Emit(n: Network, message: NetMessage, who: Option<nat>): Network {
    n.(out := n.out + [Report(message, who)])
  }

  predicate Finds(n: Network, ref: Ref) {
    ref.id in n.peers && n.peers[ref.id].index == ref.index
  }

  function DestroyPeer(n: Network, id: Id): Network {
    if id !in n.peers then n
    else Emit(n, NetClosed(id), Some(n.peers[id].index)).(peers := n.peers - {id})
  }

  function Remove(n: Network, id: Id): Network {
    if id !in n.peers then Emit(n, NetClosed(id), None)
    else if n.peers[id].removing then n
    else
      var p := n.peers[id].(removing := true, pending := n.peers[id].pads);
      var ref := Ref(id, p.index);
      var n := n.(peers := n.peers[id := p]);
      if p.pads == 0 then DestroyPeer(n, id) else n.(unlinks := n.unlinks[ref := n.unlinks[ref] + p.pads])
  }

  function FailPeer(n: Network, id: Id): Network
    requires id in n.peers
  {
    if n.peers[id].removing then n else Remove(Emit(n, NetFailed(id), Some(n.peers[id].index)), id)
  }

  function Inserted(n: Network, id: Id, pads: Pads): Network {
    n.(peers := n.peers[id := NetPeer(n.nextIndex, pads, false, false, 0)], nextIndex := n.nextIndex + 1,
        born := n.born + {n.nextIndex})
  }

  function Add(n: Network, id: Id, outcome: Outcome): Network {
    if !n.configured || id in n.peers || outcome.Refused? then Emit(n, NetFailed(id), None)
    else if outcome.NotBuilt? then Emit(n, NetFailed(id), None).(nextIndex := n.nextIndex + 1)
    else
      var n := Inserted(n, id, outcome.pads);
      if outcome.LinkFailed? then FailPeer(n, id) else n
  }

  /** "fatal" to the worker, and out of the main loop. */
  function Fatal(n: Network): Network {
    Emit(n, NetFatal, None).(stopped := true)
  }

  /** A command from the worker; a malformed one, or a refused configuration, ends this process. */
  function Command(n: Network, command: NetCommand, outcome: Outcome): Network {
    match command
    case Configure =>
      var refused := n.configured || outcome.Refused?;
      var n := n.(configured := true);
      if refused then Fatal(n) else n
    case AddPeer(id, _) =>
      if ValidPeerId(id) then Add(n, id, outcome) else Fatal(n)
    case RemovePeer(id) =>
      if ValidPeerId(id) then Remove(n, id) else Fatal(n)
    case ControlState(id, _) => if ValidPeerId(id) then n else Fatal(n)
  }

  /** send_answer on the main loop; `sdp` is the description once gathering is complete. */
  function AnswerTask(n: Network, ref: Ref, sdp: Option<string>): Network {
    if !Finds(n, ref) || n.peers[ref.id].removing || n.peers[ref.id].answered || sdp.None? then n
    else
      Emit(n, NetAnswer(ref.id, sdp.value), Some(ref.index))
      .(peers := n.peers[ref.id := n.peers[ref.id].(answered := true)])
  }

  /** Any failure reported for an incarnation: no answer, a failed connection, a pipeline error. */
  function FailTask(n: Network, ref: Ref): Network {
    if !Finds(n, ref) || n.peers[ref.id].removing then n else FailPeer(n, ref.id)
  }

  /** One pad's unlink completes. */
  function Unlinked(n: Network, ref: Ref): Network
    requires ref in n.unlinks
  {
    var n := n.(unlinks := n.unlinks[ref := n.unlinks[ref] - 1]);
    if !Finds(n, ref) then n
    else
      var p := n.peers[ref.id].(pending := n.peers[ref.id].pending - 1);
      var n := n.(peers := n.peers[ref.id := p]);
      if p.pending == 0 then DestroyPeer(n, ref.id) else n
  }

  /** The end of loading: ready for commands, or not fit to run. */
  function Load(n: Network, complete: bool): Network {
    if complete then Emit(n, NetReady, None).(ready := true) else Fatal(n)
  }

  /** A pipeline error that belongs to no viewer, once there is a pipeline. */
  function BusError(n: Network): Network {
    if n.configured then Fatal(n) else n
  }

  /**
   Commands, tasks and unlinks; log lines and other messages without a bearing on viewers; the end
   of loading; and what ends the process of its own accord: an error of the pipeline, or - without
   a word about it - the end of one of its pipes, or privileges that it cannot give up.
   */
  datatype Step =
    | CommandStep(command: NetCommand, outcome: Outcome)
    | AnswerStep(ref: Ref, sdp: Option<string>) | FailStep(ref: Ref) | UnlinkStep(ref: Ref)
    | ChatterStep(message: NetMessage) | LoadStep(complete: bool) | BusErrorStep | SilentEndStep

  function Apply(n: Network, step: Step): Network {
    if n.stopped then n
    else
      match step
      case CommandStep(command, outcome) => if n.ready then Command(n, command, outcome) else n
      case AnswerStep(ref, sdp) => AnswerTask(n, ref, sdp)
      case FailStep(ref) => FailTask(n, ref)
      case UnlinkStep(ref) => if ref in n.unlinks then Unlinked(n, ref) else n
      case ChatterStep(message) =>
        if message.ChannelClosed? || message.NetOther? then Emit(n, message, None) else n
      case LoadStep(complete) => if n.ready then n else Load(n, complete)
      case BusErrorStep => BusError(n)
      case SilentEndStep => n.(stopped := true)
  }

  function Run(steps: seq<Step>): Network {
    if steps == [] then LAUNCHED else Apply(Run(steps[..|steps| - 1]), steps[|steps| - 1])
  }

  // ---- Incarnations

  /** Answer, failure and end come in this order. */
  function Rank(message: NetMessage): nat {
    match message
    case NetAnswer(_, _) => 0
    case NetFailed(_) => 1
    case _ => 2
  }

  ghost predicate Ordered(out: seq<Report>) {
    forall i, j :: 0 <= i < j < |out| && out[i].who.Some? && out[i].who == out[j].who ==>
      Rank(out[i].message) < Rank(out[j].message)
  }

  predicate Ended(out: seq<Report>, index: nat) {
    exists k :: 0 <= k < |out| && out[k].who == Some(index) && out[k].message.NetClosed?
  }

  /** The furthest report about a live connection fits its flags. */
  predicate Fitting(r: Report, p: NetPeer) {
    r.who == Some(p.index) ==>
      (r.message.NetAnswer? && p.answered) || (r.message.NetFailed? && p.removing)
  }

  predicate IndexIn(peers: map<Id, NetPeer>, index: nat) {
    exists id :: id in peers && peers[id].index == index
  }

  ghost predicate LogInv(peers: map<Id, NetPeer>, born: set<nat>, out: seq<Report>) {
    && Ordered(out)
    && (forall k :: 0 <= k < |out| && out[k].who.Some? ==>
          out[k].who.value in born
          && (out[k].message.NetAnswer? || out[k].message.NetFailed? || out[k].message.NetClosed?))
    && (forall id :: id in peers ==> peers[id].index in born)
    && (forall a, b :: a in peers && b in peers && peers[a].index == peers[b].index ==> a == b)
    && (forall id, k :: id in peers && 0 <= k < |out| ==> Fitting(out[k], peers[id]))
    && (forall index: nat :: index in born && !IndexIn(peers, index) ==> Ended(out, index))
  }

  /** Every removal waits for exactly the unlinks that will complete. */
  ghost predicate UnlinksInv(peers: map<Id, NetPeer>, unlinks: multiset<Ref>) {
    && (forall id :: id in peers ==>
          peers[id].pending == unlinks[Ref(id, peers[id].index)] && (peers[id].removing <==> peers[id].pending > 0))
    && (forall ref :: ref in unlinks ==> ref.id in peers && peers[ref.id].index == ref.index)
  }

  predicate Numbered(n: Network) {
    forall index :: index in n.born ==> index < n.nextIndex
  }

  ghost predicate Inv(n: Network) {
    LogInv(n.peers, n.born, n.out) && UnlinksInv(n.peers, n.unlinks) && Numbered(n)
  }

  lemma KeepEmitNone(n: Network, message: NetMessage)
    requires Inv(n)
    ensures Inv(Emit(n, message, None))
  {
    hide UnlinksInv;
    var out' := n.out + [Report(message, None)];
    forall index: nat | Ended(n.out, index) ensures Ended(out', index) {
      var k :| 0 <= k < |n.out| && n.out[k].who == Some(index) && n.out[k].message.NetClosed?;
      assert out'[k] == n.out[k];
    }
    forall id, k | id in n.peers && 0 <= k < |out'| ensures Fitting(out'[k], n.peers[id]) {
      if k < |n.out| {
        assert out'[k] == n.out[k];
      }
    }
  }

  /** A report about a live connection that is further than all before it. */
  lemma LogReport(peers: map<Id, NetPeer>, born: set<nat>, out: seq<Report>, id: Id, message: NetMessage, p: NetPeer)
    requires LogInv(peers, born, out) && id in peers && p.index == peers[id].index
    requires (message.NetAnswer? && !peers[id].answered && !peers[id].removing && p == peers[id].(answered := true))
          || (message.NetFailed? && !peers[id].removing && p == peers[id].(removing := true, pending := p.pending))
    ensures LogInv(peers[id := p], born, out + [Report(message, Some(p.index))])
  {
    var r := Report(message, Some(p.index));
    var out', peers' := out + [r], peers[id := p];
    forall i, j | 0 <= i < j < |out'| && out'[i].who.Some? && out'[i].who == out'[j].who
      ensures Rank(out'[i].message) < Rank(out'[j].message)
    {
      assert out'[i] == out[i];
      if j == |out| {
        assert Fitting(out[i], peers[id]);
      } else {
        assert out'[j] == out[j];
      }
    }
    forall other, k | other in peers' && 0 <= k < |out'| ensures Fitting(out'[k], peers'[other]) {
      if k < |out| {
        assert out'[k] == out[k] && Fitting(out[k], peers[other]);
      }
    }
    IndicesKept(peers, peers', born, out, out');
  }

  lemma IndicesKept(peers: map<Id, NetPeer>, peers': map<Id, NetPeer>, born: set<nat>, out: seq<Report>, out': seq<Report>)
    requires forall index: nat :: index in born && !IndexIn(peers, index) ==> Ended(out, index)
    requires out <= out' && forall id :: id in peers ==> id in peers' && peers'[id].index == peers[id].index
    ensures forall index: nat :: index in born && !IndexIn(peers', index) ==> Ended(out', index)
  {
    forall index: nat | index in born && !IndexIn(peers', index) ensures Ended(out', index) {
      forall id | id in peers ensures peers[id].index != index {
        assert id in peers';
      }
      assert !IndexIn(peers, index);
      var k :| 0 <= k < |out| && out[k].who == Some(index) && out[k].message.NetClosed?;
      assert out'[k] == out[k];
    }
  }

  /** Only the removing flag and the count of unlinks change. */
  lemma LogLike(peers: map<Id, NetPeer>, born: set<nat>, out: seq<Report>, id: Id, p: NetPeer)
    requires LogInv(peers, born, out) && id in peers
    requires p.index == peers[id].index && p.answered == peers[id].answered && (peers[id].removing ==> p.removing)
    ensures LogInv(peers[id := p], born, out)
  {
    var peers' := peers[id := p];
    forall other, k | other in peers' && 0 <= k < |out| ensures Fitting(out[k], peers'[other]) {
      assert Fitting(out[k], peers[other]);
    }
    IndicesKept(peers, peers', born, out, out);
  }

  lemma LogDestroy(peers: map<Id, NetPeer>, born: set<nat>, out: seq<Report>, id: Id)
    requires LogInv(peers, born, out) && id in peers
    ensures LogInv(peers - {id}, born, out + [Report(NetClosed(id), Some(peers[id].index))])
  {
    var r := Report(NetClosed(id), Some(peers[id].index));
    var out', peers' := out + [r], peers - {id};
    forall i, j | 0 <= i < j < |out'| && out'[i].who.Some? && out'[i].who == out'[j].who
      ensures Rank(out'[i].message) < Rank(out'[j].message)
    {
      assert out'[i] == out[i];
      if j == |out| {
        assert Fitting(out[i], peers[id]);
      } else {
        assert out'[j] == out[j];
      }
    }
    forall other, k | other in peers' && 0 <= k < |out'| ensures Fitting(out'[k], peers'[other]) {
      if k < |out| {
        assert out'[k] == out[k] && Fitting(out[k], peers[other]);
      }
    }
    forall index: nat | index in born && !IndexIn(peers', index) ensures Ended(out', index) {
      if index == r.who.value {
        assert out'[|out|] == r;
      } else {
        forall other | other in peers ensures peers[other].index != index {
          assert other == id || other in peers';
        }
        assert !IndexIn(peers, index);
        var k :| 0 <= k < |out| && out[k].who == Some(index) && out[k].message.NetClosed?;
        assert out'[k] == out[k];
      }
    }
  }

  lemma KeepDestroy(n: Network, id: Id)
    requires LogInv(n.peers, n.born, n.out) && id in n.peers && n.unlinks[Ref(id, n.peers[id].index)] == 0
    requires UnlinksInv(n.peers - {id}, n.unlinks) && Numbered(n)
    ensures Inv(DestroyPeer(n, id))
  {
    hide LogInv, UnlinksInv;
    LogDestroy(n.peers, n.born, n.out, id);
  }

  lemma KeepRemove(n: Network, id: Id)
    requires Inv(n)
    ensures Inv(Remove(n, id))
  {
    if id !in n.peers {
      KeepEmitNone(n, NetClosed(id));
    } else if !n.peers[id].removing {
      LogLike(n.peers, n.born, n.out, id, RemovalOf(n, id));
      StartRemoval(n, n, id);
    }
  }

  /** Starting a removal, just after `m` said what there was to say. */
  lemma StartRemoval(n: Network, m: Network, id: Id)
    requires UnlinksInv(n.peers, n.unlinks) && Numbered(n) && id in n.peers && !n.peers[id].removing
    requires m == n.(out := m.out) && LogInv(n.peers[id := RemovalOf(n, id)], n.born, m.out)
    ensures Inv(Remove(m, id))
  {
    hide LogInv;
    var p := RemovalOf(n, id);
    var n1 := m.(peers := m.peers[id := p]);
    if p.pads == 0 {
      UnlinksWithout(n, id, p);
      KeepDestroy(n1, id);
    } else {
      UnlinksStarted(n, id, p);
    }
  }

  function RemovalOf(n: Network, id: Id): NetPeer
    requires id in n.peers
  {
    n.peers[id].(removing := true, pending := n.peers[id].pads)
  }

  lemma UnlinksWithout(n: Network, id: Id, p: NetPeer)
    requires UnlinksInv(n.peers, n.unlinks) && id in n.peers && !n.peers[id].removing && p.index == n.peers[id].index
    ensures n.unlinks[Ref(id, p.index)] == 0 && UnlinksInv(n.peers[id := p] - {id}, n.unlinks)
  {
    forall ref | ref in n.unlinks ensures ref.id != id {
      assert n.unlinks[ref] > 0;
    }
  }

  lemma UnlinksStarted(n: Network, id: Id, p: NetPeer)
    requires UnlinksInv(n.peers, n.unlinks) && id in n.peers && !n.peers[id].removing
    requires p == RemovalOf(n, id) && p.pads > 0
    ensures var ref := Ref(id, p.index);
      UnlinksInv(n.peers[id := p], n.unlinks[ref := n.unlinks[ref] + p.pads])
  {
  }

  lemma KeepFail(n: Network, id: Id)
    requires Inv(n) && id in n.peers
    ensures Inv(FailPeer(n, id))
  {
    hide LogInv, UnlinksInv;
    if !n.peers[id].removing {
      LogReport(n.peers, n.born, n.out, id, NetFailed(id), RemovalOf(n, id));
      StartRemoval(n, Emit(n, NetFailed(id), Some(n.peers[id].index)), id);
    }
  }

  lemma KeepInsert(n: Network, id: Id, pads: Pads)
    requires Inv(n) && id !in n.peers
    ensures Inv(Inserted(n, id, pads))
  {
    hide LogInv, UnlinksInv;
    LogInsert(n.peers, n.born, n.out, id, NetPeer(n.nextIndex, pads, false, false, 0));
    UnlinksInsert(n.peers, n.unlinks, id, NetPeer(n.nextIndex, pads, false, false, 0));
  }

  lemma LogInsert(peers: map<Id, NetPeer>, born: set<nat>, out: seq<Report>, id: Id, p: NetPeer)
    requires LogInv(peers, born, out) && id !in peers && p.index !in born
    ensures LogInv(peers[id := p], born + {p.index}, out)
  {
    var peers' := peers[id := p];
    assert peers'[id] == p;
    forall index: nat | index in born + {p.index} && !IndexIn(peers', index) ensures Ended(out, index) {
      assert index != p.index;
      forall other | other in peers ensures peers[other].index != index {
        assert peers'[other] == peers[other];
      }
    }
    forall other, k | other in peers' && 0 <= k < |out| ensures Fitting(out[k], peers'[other]) {
      if other != id {
        assert Fitting(out[k], peers[other]);
      }
    }
  }

  lemma UnlinksInsert(peers: map<Id, NetPeer>, unlinks: multiset<Ref>, id: Id, p: NetPeer)
    requires UnlinksInv(peers, unlinks) && id !in peers && p.pending == 0 && !p.removing
    ensures UnlinksInv(peers[id := p], unlinks)
  {
    forall ref | ref in unlinks ensures ref.id != id {
    }
    assert Ref(id, p.index) !in unlinks;
  }

  lemma KeepUnlinked(n: Network, ref: Ref)
    requires Inv(n) && ref in n.unlinks
    ensures Inv(Unlinked(n, ref))
  {
    hide LogInv, UnlinksInv;
    UnlinksLess(n.peers, n.unlinks, ref);
    var p := n.peers[ref.id].(pending := n.peers[ref.id].pending - 1);
    LogLike(n.peers, n.born, n.out, ref.id, p);
    var n1 := n.(unlinks := n.unlinks[ref := n.unlinks[ref] - 1], peers := n.peers[ref.id := p]);
    if p.pending == 0 {
      KeepDestroy(n1, ref.id);
    }
  }

  /** One unlink fewer on both sides; after the last one the peer can go. */
  lemma UnlinksLess(peers: map<Id, NetPeer>, unlinks: multiset<Ref>, ref: Ref)
    requires UnlinksInv(peers, unlinks) && ref in unlinks
    ensures ref.id in peers && peers[ref.id].index == ref.index
    ensures var p, rest := peers[ref.id].(pending := peers[ref.id].pending - 1), unlinks[ref := unlinks[ref] - 1];
      && p.pending == rest[ref]
      && (p.pending > 0 ==> UnlinksInv(peers[ref.id := p], rest))
      && (p.pending == 0 ==> UnlinksInv(peers[ref.id := p] - {ref.id}, rest))
  {
    var rest := unlinks[ref := unlinks[ref] - 1];
    forall other | other in rest ensures other in unlinks {
      assert rest[other] <= unlinks[other];
    }
  }

  lemma KeepApply(n: Network, step: Step)
    requires Inv(n)
    ensures Inv(Apply(n, step))
  {
    hide LogInv, UnlinksInv, Remove, FailPeer, Unlinked, ValidPeerId;
    match step
    case CommandStep(command, outcome) =>
      KeepEmitNone(n, NetFatal);
      KeepEmitNone(n.(configured := true), NetFatal);
      match command {
        case AddPeer(id, sdp) =>
          if !n.configured || id in n.peers || outcome.Refused? || outcome.NotBuilt? {
            KeepEmitNone(n, NetFailed(id));
          } else {
            KeepInsert(n, id, outcome.pads);
            KeepFail(Inserted(n, id, outcome.pads), id);
          }
        case RemovePeer(id) => KeepRemove(n, id);
        case _ =>
      }
    case AnswerStep(ref, sdp) =>
      if Finds(n, ref) && !n.peers[ref.id].removing && !n.peers[ref.id].answered && sdp.Some? {
        var p := n.peers[ref.id].(answered := true);
        LogReport(n.peers, n.born, n.out, ref.id, NetAnswer(ref.id, sdp.value), p);
        UnlinksLike(n, ref.id, p);
      }
    case FailStep(ref) => if Finds(n, ref) { KeepFail(n, ref.id); }
    case UnlinkStep(ref) => if ref in n.unlinks { KeepUnlinked(n, ref); }
    case ChatterStep(message) => KeepEmitNone(n, message);
    case LoadStep(complete) => KeepEmitNone(n, if complete then NetReady else NetFatal);
    case BusErrorStep => KeepEmitNone(n, NetFatal);
    case SilentEndStep =>
  }

  lemma UnlinksLike(n: Network, id: Id, p: NetPeer)
    requires UnlinksInv(n.peers, n.unlinks) && id in n.peers
    requires p == n.peers[id].(answered := p.answered)
    ensures UnlinksInv(n.peers[id := p], n.unlinks)
  {
  }

  lemma StartInv()
    ensures Inv(LAUNCHED)
  {
  }

  lemma {:induction false} InvAlways(steps: seq<Step>)
    ensures Inv(Run(steps))
  {
    hide Inv, Apply;
    if steps == [] {
      StartInv();
    } else {
      InvAlways(steps[..|steps| - 1]);
      KeepApply(Run(steps[..|steps| - 1]), steps[|steps| - 1]);
    }
  }

  // ---- The results, even when the worker reuses ids

  /** Two reports about one incarnation: an answer, then a failure, then its end, each once. */
  lemma ReportsInOrder(steps: seq<Step>, i: nat, j: nat)
    requires i < j < |Run(steps).out| && Run(steps).out[i].who == Run(steps).out[j].who != None
    ensures Rank(Run(steps).out[i].message) < Rank(Run(steps).out[j].message) <= 2
  {
    InvAlways(steps);
  }

  /** An incarnation has been reported closed exactly when it is gone. */
  lemma ClosedIffGone(steps: seq<Step>, index: nat)
    requires index in Run(steps).born
    ensures var n := Run(steps);
      (exists k :: 0 <= k < |n.out| && n.out[k].who == Some(index) && n.out[k].message.NetClosed?)
      <==> !exists id :: id in n.peers && n.peers[id].index == index
  {
    InvAlways(steps);
    var n := Run(steps);
    if IndexIn(n.peers, index) {
      var id :| id in n.peers && n.peers[id].index == index;
      forall k | 0 <= k < |n.out| ensures !(n.out[k].who == Some(index) && n.out[k].message.NetClosed?) {
        assert Fitting(n.out[k], n.peers[id]);
      }
    } else {
      assert Ended(n.out, index);
    }
  }

  /** A queued task or unlink acts only on the incarnation it was made for. */
  lemma OnlyItsIncarnation(steps: seq<Step>, step: Step, id: Id)
    requires (step.AnswerStep? || step.FailStep? || step.UnlinkStep?)
    requires id in Run(steps).peers && Ref(id, Run(steps).peers[id].index) != step.ref
    ensures var n' := Apply(Run(steps), step);
      && id in n'.peers && n'.peers[id] == Run(steps).peers[id]
      && forall k :: |Run(steps).out| <= k < |n'.out| ==> n'.out[k].who == Some(step.ref.index)
  {
  }
}
