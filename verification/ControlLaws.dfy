/**
 Who has control after each event, and how the viewers learn of it, said of the events and of what
 was the case before; and what the events that end a run leave behind.
 */
module ControlLaws {
  import opened Bytes
  import opened Permission
  import opened Worker
  import H = LeaseHistory
  import S = BrokerSafety
  import T = WorkerSteps

  const FIVE_SECONDS := 5_000_000 // microseconds

  /** At this reading of the clock the lease is not, or no longer, the peer's. */
  predicate Over(p: Permission, id: Id, now: int) {
    !Allowed(p, id, now / 1000)
  }

  predicate Quiet(w: State, id: Id, now: int)
    requires id in w.peers
  {
    now - w.peers[id].lastPing > FIVE_SECONDS
  }

  /** One more input message is more than a thousand in its second. */
  predicate TooMany(p: Peer, now: int) {
    now - p.rateWindow <= 1_000_000 && p.rateCount >= 1000
  }

  /** A message of this peer that the worker acts on. */
  predicate Heeded(w: State, e: Event, id: Id) {
    && !w.stopped && e.InputEvent? && e.id == id && e.display && e.text != Unparsed
    && id in w.peers && !w.peers[id].removing
  }

  /** The events by which a peer that has control loses it; p is the lease after the event. */
  predicate Loses(w: State, p: Permission, e: Event, id: Id)
    requires id in w.peers
  {
    && !w.stopped
    && match e
       case InputEvent(_, text, _, t0, t1, _) =>
         && Heeded(w, e, id)
         && (Over(w.permission, id, t0)
             || text == ReleaseAll
             || (text.Control? && (!text.enabled || Over(w.permission, id, t1)))
             || (text.Act? && TooMany(w.peers[id], t1)))
       case PermitEvent(peer, _, leaseMs, _, t1) =>
         ValidPermit(peer, leaseMs) && (Over(p, id, t1) || Quiet(w, id, t1))
       case Tick(display, t0) => display && (Over(w.permission, id, t0) || Quiet(w, id, t0))
       case Remove(_) => H.Withdraws(w, e, id)
       case Net(message) => w.started && (message == NetFailed(id) || message == NetClosed(id) || message == ChannelClosed(id))
       case _ => false
  }

  /** The one way to get control: asking for it under the lease. */
  predicate Gains(w: State, e: Event, id: Id) {
    Heeded(w, e, id) && e.text == Control(true) && !Over(w.permission, id, e.t1)
  }

  predicate HasControl(w: State, id: Id) {
    id in w.peers && w.peers[id].control
  }

  // ---- Commands that tell a viewer

  /** What the viewer was told last about its control, if anything. */
  function LastTold(commands: seq<NetCommand>, id: Id): Option<bool> {
    if commands == [] then None
    else
      var c := commands[|commands| - 1];
      if c.ControlState? && c.id == id then Some(c.control) else LastTold(commands[..|commands| - 1], id)
  }

  lemma ToldSnoc(commands: seq<NetCommand>, c: NetCommand, id: Id)
    ensures LastTold(commands + [c], id) == if c.ControlState? && c.id == id then Some(c.control) else LastTold(commands, id)
  {
    assert (commands + [c])[..|commands|] == commands;
  }

  /** What an event does to one peer: who has control after it, and that it was told of a change. */
  ghost predicate Changes(w: State, w': State, id: Id, now: bool, told: bool) {
    && (HasControl(w', id) <==> now)
    && (told ==> LastTold(w'.commands, id) == Some(now))
    && (!told ==> LastTold(w'.commands, id) == LastTold(w.commands, id))
  }

  // ---- Revoking and enforcing

  lemma RevokeChanges(w: State, id: Id, notify: bool, ok: Oracle, other: Id)
    requires id in w.peers
    ensures Changes(w, RevokePeer(w, id, notify, ok), other, HasControl(w, other) && other != id, notify && other == id)
  {
    hide RevokePeer, LastTold;
    var w' := RevokePeer(w, id, notify, ok);
    ToldSnoc(w.commands, ControlState(id, false), other);
    assert !notify ==> w'.commands == w.commands;
  }

  lemma EnforceChanges(w: State, now: int, ok: Oracle, id: Id)
    requires S.OneControl(w)
    ensures var lost := HasControl(w, id) && (Over(w.permission, id, now) || Quiet(w, id, now));
      Changes(w, Enforce(w, now, ok), id, HasControl(w, id) && !lost, lost)
  {
    hide RevokePeer, LastTold;
    if who: Id :| MustRevoke(w, who, now) {
      forall other | MustRevoke(w, other, now) ensures other == who {
      }
      assert Enforce(w, now, ok) == RevokePeer(w, who, true, ok);
      RevokeChanges(w, who, true, ok, id);
      assert MustRevoke(w, id, now) <==> id == who;
    } else {
      assert !MustRevoke(w, id, now) && Enforce(w, now, ok) == w;
    }
  }

  lemma SameChanges(w: State, w': State, id: Id)
    requires w'.commands == w.commands && (HasControl(w', id) <==> HasControl(w, id))
    ensures Changes(w, w', id, HasControl(w, id), false)
  {
  }

  // ---- Messages of the viewers

  lemma CheckedChanges(w: State, id: Id, t0: int, ok: Oracle, other: Id)
    requires id in w.peers
    ensures var w1 := LeaseChecked(w, id, t0, ok);
      && Changes(w, w1, other, HasControl(w, other) && !(other == id && Over(w.permission, id, t0)), false)
      && w1.permission == w.permission && w1.peers[id] == w.peers[id].(control := w1.peers[id].control)
  {
    hide RevokePeer, LastTold, Allowed;
    RevokeChanges(w, id, false, ok, other);
  }

  lemma TakesChanges(w: State, id: Id, enabled: bool, t1: int, t2: int, ok: Oracle, other: Id)
    requires id in w.peers
    ensures Changes(w, TakeControl(w, id, enabled, t1, t2, ok), other,
                    if other == id then enabled && !Over(w.permission, id, t1) else HasControl(w, other), false)
  {
    hide RevokePeer, LastTold, Allowed;
    RevokeChanges(w, id, false, ok, other);
  }

  lemma PerformChanges(w: State, id: Id, input: Option<Input>, t0: int, t1: int, ok: Oracle, other: Id)
    requires id in w.peers
    ensures Changes(w, Perform(w, id, input, t0, t1, ok), other,
                    HasControl(w, other) && !(other == id && TooMany(w.peers[id], t1)), false)
  {
    hide RevokePeer, PostInput, LastTold;
    var w1 := SetPeer(w, id, Counted(w.peers[id], t1));
    RevokeChanges(w1, id, false, ok, other);
  }

  lemma HandleChanges(w: State, e: Event, ok: Oracle, other: Id)
    requires e.InputEvent? && Heeded(w, e, e.id) && S.SingleControl(w)
    ensures Changes(w, Handle(w, e.id, e.text, e.t0, e.t1, e.t2, ok), other,
                    (HasControl(w, other) && !Loses(w, w.permission, e, other)) || Gains(w, e, other), false)
  {
    hide LeaseChecked, TakeControl, Perform, RevokePeer, LastTold, Allowed;
    var id, w1 := e.id, LeaseChecked(w, e.id, e.t0, ok);
    CheckedChanges(w, id, e.t0, ok, other);
    match e.text
    case Ping =>
    case ReleaseAll => RevokeChanges(w1, id, false, ok, other);
    case Control(enabled) =>
      TakesChanges(w1, id, enabled, e.t1, e.t2, ok, other);
      ControlIsOwners(w, id);
    case Act(input) =>
      PerformChanges(w1, id, input, e.t0, e.t1, ok, other);
  }

  lemma ControlIsOwners(w: State, id: Id)
    requires S.SingleControl(w)
    ensures HasControl(w, id) ==> w.permission.owner == id
  {
  }

  lemma InputChanges(w: State, e: Event, ok: Oracle, other: Id)
    requires e.InputEvent? && !w.stopped && S.SingleControl(w)
    ensures var w' := Apply(w, e, ok);
      && w'.permission == w.permission
      && Changes(w, w', other, (HasControl(w, other) && !Loses(w, w'.permission, e, other)) || Gains(w, e, other),
                 other == e.id && e.id in w.peers && !w.peers[e.id].removing && (e.text == Unparsed || e.display))
  {
    hide Handle, ReleaseHeld, LastTold, Loses, Gains, Allowed;
    H.OtherAfter(w, e, ok);
    if !Heeded(w, e, other) {
      NotHeeded(w, e, other);
    }
    if e.id in w.peers && !w.peers[e.id].removing && (e.text == Unparsed || e.display) {
      var w1 := if e.text == Unparsed then w else Handle(w, e.id, e.text, e.t0, e.t1, e.t2, ok);
      if e.text != Unparsed {
        HandleChanges(w, e, ok, other);
      }
      ToldSnoc(w1.commands, ControlState(e.id, w1.peers[e.id].control), other);
    }
  }

  lemma NotHeeded(w: State, e: Event, id: Id)
    requires e.InputEvent? && !Heeded(w, e, id)
    ensures !Gains(w, e, id) && (id in w.peers ==> forall p :: !Loses(w, p, e, id))
  {
  }

  // ---- Commands of the server, the timer, and media-net

  lemma PermitChanges(w: State, e: Event, ok: Oracle, id: Id)
    requires e.PermitEvent? && !w.stopped && S.Inv(w)
    ensures var w' := Apply(w, e, ok);
      var now := HasControl(w, id) && !Loses(w, w'.permission, e, id);
      && (HasControl(w', id) <==> now)
      && (HasControl(w, id) && !now ==> LastTold(w'.commands, id) == Some(false))
  {
    hide S.HeldExact, S.Lifted, RevokePeer, Enforce, Leased, ReleaseHeld, LastTold, Allowed;
    if ValidPermit(e.id, e.leaseMs) {
      var w1 := Leased(w, e.id, e.allow, e.t0 / 1000, e.leaseMs.Floor, ok);
      S.LeasedEffect(w, e.id, e.allow, e.t0 / 1000, e.leaseMs.Floor, ok);
      LeasedChanges(w, e, ok, id);
      EnforceChanges(w1, e.t1, ok, id);
      T.QuietEnforce(w1, e.t1, ok);
    }
  }

  /** A withdrawal ends control before it is enforced; the peer would have lost it there, too. */
  lemma LeasedChanges(w: State, e: Event, ok: Oracle, id: Id)
    requires e.PermitEvent? && S.Inv(w)
    ensures var w1, taken := Leased(w, e.id, e.allow, e.t0 / 1000, e.leaseMs.Floor, ok), !e.allow && id == e.id;
      && Changes(w, w1, id, HasControl(w, id) && !taken, taken && id in w.peers)
      && (id in w.peers ==> id in w1.peers && w1.peers[id].lastPing == w.peers[id].lastPing)
      && (taken && HasControl(w, id) ==> Over(w1.permission, id, e.t1))
  {
    hide RevokePeer, Grant, LastTold, S.HeldExact, S.Lifted;
    if !e.allow && e.id in w.peers {
      RevokeChanges(w.(permission := Revoke(w.permission, e.id)), e.id, true, ok, id);
    }
  }

  lemma TickChanges(w: State, e: Event, ok: Oracle, id: Id)
    requires e.Tick? && !w.stopped && S.Inv(w)
    ensures var w' := Apply(w, e, ok);
      var now := HasControl(w, id) && !Loses(w, w'.permission, e, id);
      && (HasControl(w', id) <==> now)
      && (HasControl(w, id) && !now ==> LastTold(w'.commands, id) == Some(false))
  {
    hide S.HeldExact, S.Lifted, Enforce, ReleaseHeld, LastTold, Allowed;
    S.SingleIsOne(w);
    EnforceChanges(w, e.t0, ok, id);
    T.QuietEnforce(w, e.t0, ok);
  }

  lemma RemoveChanges(w: State, e: Event, ok: Oracle, id: Id)
    requires e.Remove? && !w.stopped && S.Inv(w)
    ensures var w' := Apply(w, e, ok);
      var now := HasControl(w, id) && !Loses(w, w'.permission, e, id);
      && (HasControl(w', id) <==> now)
      && (HasControl(w, id) && !now ==> LastTold(w'.commands, id) == Some(false))
  {
    hide S.HeldExact, S.Lifted, RemoveViewer, Waiting, LastTold;
    if 1 <= |e.id| <= 64 && !Waiting(w.waiting, e.id) && e.id in w.peers && !w.peers[e.id].removing {
      RemovalChanges(w, e.id, ok, id);
    } else {
      NoRemovalChanges(w, e, ok, id);
    }
  }

  lemma RemovalChanges(w: State, peer: Id, ok: Oracle, id: Id)
    requires !Waiting(w.waiting, peer) && peer in w.peers && !w.peers[peer].removing
    ensures var w' := RemoveViewer(Tell(w, RemoveAsked(peer)), peer, true, ok);
      && (HasControl(w', id) <==> HasControl(w, id) && id != peer)
      && (id == peer ==> LastTold(w'.commands, id) == Some(false))
  {
    hide BeginRemoval, Waiting, Without, LastTold;
    ToldSnoc(w.commands, ControlState(peer, false), id);
    ToldSnoc(w.commands + [ControlState(peer, false)], RemovePeer(peer), id);
  }

  lemma NoRemovalChanges(w: State, e: Event, ok: Oracle, id: Id)
    requires e.Remove? && !w.stopped
    requires !(1 <= |e.id| <= 64) || Waiting(w.waiting, e.id) || e.id !in w.peers || w.peers[e.id].removing
    ensures HasControl(Apply(w, e, ok), id) <==> HasControl(w, id)
  {
    hide BeginRemoval, Waiting, Without;
  }

  lemma {:induction false} AddAllChanges(w: State, viewers: seq<(Id, string)>, id: Id)
    ensures Changes(w, AddAll(w, viewers), id, HasControl(w, id), false)
    decreases |viewers|
  {
    hide AddViewer, LastTold;
    if viewers != [] {
      AddChanges(w, viewers[0].0, viewers[0].1, id);
      AddAllChanges(AddViewer(w, viewers[0].0, viewers[0].1), viewers[1..], id);
    }
  }

  lemma AddChanges(w: State, peer: Id, sdp: string, id: Id)
    ensures Changes(w, AddViewer(w, peer, sdp), id, HasControl(w, id), false)
  {
    hide Waiting, ValidPeerId, LastTold;
    ToldSnoc(w.commands, AddPeer(peer, sdp), id);
  }

  lemma NetChanges(w: State, e: Event, ok: Oracle, id: Id)
    requires e.Net? && !w.stopped && S.Inv(w)
    ensures var w' := Apply(w, e, ok);
      HasControl(w', id) <==> HasControl(w, id) && !Loses(w, w'.permission, e, id)
  {
    hide S.HeldExact, S.Lifted, RevokePeer, FailPeer, ClosePeer, AddAll, LastTold, Allowed, Changes, S.OneControl;
    if e.message.NetReady? {
      ReadyChanges(w, ok, id);
    }
  }

  lemma ReadyChanges(w: State, ok: Oracle, id: Id)
    ensures HasControl(FromNet(w, NetReady, ok), id) <==> HasControl(w, id)
  {
    hide AddAll, LastTold;
    AddAllChanges(w.(ready := true, waiting := []), w.waiting, id);
  }

  lemma OtherChanges(w: State, e: Event, ok: Oracle, id: Id)
    requires w.stopped || e.Start? || e.Add? || e.Fatal? || e.Exit?
    ensures Apply(w, e, ok).permission == w.permission || !w.stopped
    ensures HasControl(Apply(w, e, ok), id) <==> HasControl(w, id)
  {
    hide ReleaseHeld, AddViewer;
    if e.Add? {
      AddChanges(w, e.id, e.sdp, id);
    }
  }

  // ---- The results

  /**
   Control changes hands in no other way: after any event of any run, a peer has control exactly if
   it had it and the event is not one that ends it, or if it just asked for it under its lease.
   */
  lemma ControlExactly(events: seq<Event>, ok: Oracle, n: nat, id: Id)
    requires n < |events|
    ensures var w, w' := Run(events[..n], ok), Run(events[..n + 1], ok);
      HasControl(w', id) <==>
        (HasControl(w, id) && !Loses(w, w'.permission, events[n], id)) || Gains(w, events[n], id)
  {
    hide Run, Apply, Loses, Gains, HasControl, Allowed;
    var w, e := Run(events[..n], ok), events[n];
    S.InvAlways(events[..n], ok);
    H.RunPrefix(events, ok, n);
    if w.stopped || e.Start? || e.Add? || e.Fatal? || e.Exit? {
      OtherChanges(w, e, ok, id);
      NothingLost(w, e, id);
    } else if e.InputEvent? {
      InputChanges(w, e, ok, id);
    } else {
      NothingGained(w, e, id);
      match e
      case PermitEvent(_, _, _, _, _) => PermitChanges(w, e, ok, id);
      case Tick(_, _) => TickChanges(w, e, ok, id);
      case Remove(_) => RemoveChanges(w, e, ok, id);
      case Net(_) => NetChanges(w, e, ok, id);
    }
  }

  lemma NothingLost(w: State, e: Event, id: Id)
    requires w.stopped || e.Start? || e.Add? || e.Fatal? || e.Exit?
    ensures !Gains(w, e, id) && (HasControl(w, id) ==> forall p :: !Loses(w, p, e, id))
  {
  }

  lemma NothingGained(w: State, e: Event, id: Id)
    requires !e.InputEvent?
    ensures !Gains(w, e, id)
  {
  }

  /** A viewer that asks for control while a grant to it is in force has control. */
  lemma AskingTakesControl(events: seq<Event>, ok: Oracle, n: nat, g: nat)
    requires n < |events| && events[n].InputEvent? && events[n].text == Control(true)
    requires Heeded(Run(events[..n], ok), events[n], events[n].id)
    requires H.InForce(events, ok, g, n, events[n].id) && 0 <= events[n].t1 / 1000 < H.EndOf(events[g])
    ensures HasControl(Run(events[..n + 1], ok), events[n].id)
  {
    hide Run, H.InForce;
    H.InForceMeans(events, ok, g, n, events[n].id);
    H.AllowedIffGranted(events, ok, n, events[n].id, events[n].t1 / 1000);
    ControlExactly(events, ok, n, events[n].id);
  }

  /** A viewer whose message is heeded is told right away whether it has control now. */
  lemma MessagesAreAnswered(events: seq<Event>, ok: Oracle, n: nat)
    requires n < |events| && events[n].InputEvent? && !Run(events[..n], ok).stopped
    requires var w, e := Run(events[..n], ok), events[n];
      e.id in w.peers && !w.peers[e.id].removing && (e.text == Unparsed || e.display)
    ensures var w' := Run(events[..n + 1], ok);
      LastTold(w'.commands, events[n].id) == Some(HasControl(w', events[n].id))
  {
    hide Run, Apply, Loses, Gains, LastTold, S.HeldExact, S.Lifted;
    S.InvAlways(events[..n], ok);
    H.RunPrefix(events, ok, n);
    InputChanges(Run(events[..n], ok), events[n], ok, events[n].id);
  }

  /** A viewer that the server or the clock takes control from is told so. */
  lemma LossIsTold(events: seq<Event>, ok: Oracle, n: nat, id: Id)
    requires n < |events| && (events[n].PermitEvent? || events[n].Tick? || events[n].Remove?)
    requires HasControl(Run(events[..n], ok), id) && !HasControl(Run(events[..n + 1], ok), id)
    ensures LastTold(Run(events[..n + 1], ok).commands, id) == Some(false)
  {
    hide Run, Apply, Loses, HasControl, LastTold;
    var w, e := Run(events[..n], ok), events[n];
    S.InvAlways(events[..n], ok);
    H.RunPrefix(events, ok, n);
    if w.stopped {
      OtherChanges(w, e, ok, id);
    } else {
      match e
      case PermitEvent(_, _, _, _, _) => PermitChanges(w, e, ok, id);
      case Tick(_, _) => TickChanges(w, e, ok, id);
      case Remove(_) => RemoveChanges(w, e, ok, id);
    }
  }
}
