/**
 What the viewers' messages bring about over whole runs: that the input a viewer may give is posted,
 that a silent viewer loses control, and that whatever ends the source lets go of what is held.
 */
module InputLaws {
  import opened Bytes
  import opened Permission
  import opened Worker
  import opened ControlLaws
  import H = LeaseHistory
  import R = RateBounds
  import S = BrokerSafety
  import T = WorkerSteps
  import V = ViewerReports

  // ---- What a peer keeps

  /** What a viewer's other events leave of its record: who it is, and when it was last heard. */
  predicate SameSeen(w: State, w': State) {
    && (forall id :: id in w'.peers && id in w.peers ==>
          w'.peers[id].serial == w.peers[id].serial && w'.peers[id].lastPing == w.peers[id].lastPing)
    && (forall id :: id in w'.peers && id !in w.peers ==> w'.peers[id].lastPing == 0 && w'.peers[id].serial >= w.nextSerial)
    && w.nextSerial <= w'.nextSerial
  }

  lemma SameSeenTransitive(a: State, b: State, c: State)
    requires SameSeen(a, b) && SameSeen(b, c) && forall id :: id in a.peers ==> id in b.peers
    ensures SameSeen(a, c)
  {
  }

  lemma AddSeen(w: State, id: Id, sdp: string)
    ensures SameSeen(w, AddViewer(w, id, sdp)) && forall other :: other in w.peers ==> other in AddViewer(w, id, sdp).peers
  {
    hide Waiting, ValidPeerId;
  }

  lemma {:induction false} AddAllSeen(w: State, viewers: seq<(Id, string)>)
    ensures SameSeen(w, AddAll(w, viewers))
    decreases |viewers|
  {
    hide AddViewer, SameSeen;
    if viewers == [] {
      SeenItself(w);
    } else {
      var w1 := AddViewer(w, viewers[0].0, viewers[0].1);
      AddSeen(w, viewers[0].0, viewers[0].1);
      AddAllSeen(w1, viewers[1..]);
      SameSeenTransitive(w, w1, AddAll(w, viewers));
    }
  }

  lemma SeenItself(w: State)
    ensures SameSeen(w, w)
  {
  }

  lemma EnforceSeen(w: State, now: int, ok: Oracle)
    ensures SameSeen(w, Enforce(w, now, ok)) && Enforce(w, now, ok).peers.Keys == w.peers.Keys
  {
    hide RevokePeer;
  }

  /** A message that tells that its viewer is there. */
  predicate Shows(w: State, e: Event, serial: nat) {
    e.InputEvent? && (e.text == Ping || e.text.Control?) && Heeded(w, e, e.id) && w.peers[e.id].serial == serial
  }

  function ShownAt(e: Event): int
    requires e.InputEvent?
  {
    if e.text == Ping then e.t1 else e.t2
  }

  /** Everybody's record of when it was last heard, after the event. */
  predicate SeenAfter(w: State, e: Event, w': State) {
    && (forall id :: id in w'.peers && id in w.peers ==>
          && w'.peers[id].serial == w.peers[id].serial
          && w'.peers[id].lastPing == if Shows(w, e, w.peers[id].serial) && e.id == id then ShownAt(e) else w.peers[id].lastPing)
    && (forall id :: id in w'.peers && id !in w.peers ==> w'.peers[id].lastPing == 0 && w'.peers[id].serial >= w.nextSerial)
    && w.nextSerial <= w'.nextSerial
  }

  lemma SameIsAfter(w: State, e: Event, w': State)
    requires SameSeen(w, w') && (w.stopped || !e.InputEvent?)
    ensures SeenAfter(w, e, w')
  {
  }

  lemma InputSeen(w: State, e: Event, ok: Oracle)
    requires !w.stopped && e.InputEvent?
    ensures SeenAfter(w, e, Apply(w, e, ok))
  {
    hide Handle, ReleaseHeld;
    if Heeded(w, e, e.id) {
      HandleSeen(w, e, ok);
      var w1 := Handle(w, e.id, e.text, e.t0, e.t1, e.t2, ok);
      SentSeen(w, e, w1, Send(w1, ControlState(e.id, w1.peers[e.id].control)));
    }
  }

  lemma SentSeen(w: State, e: Event, w1: State, w2: State)
    requires SeenAfter(w, e, w1) && w2.peers == w1.peers && w2.nextSerial == w1.nextSerial
    ensures SeenAfter(w, e, w2)
  {
  }

  /** At most this peer's record has changed, and it was last heard at this time. */
  predicate OnlyPeer(w: State, w': State, id: Id, heard: int) {
    && w'.nextSerial == w.nextSerial && w'.peers.Keys == w.peers.Keys && id in w.peers
    && (forall other :: other in w.peers && other != id ==> w'.peers[other] == w.peers[other])
    && w'.peers[id].serial == w.peers[id].serial && w'.peers[id].lastPing == heard
  }

  lemma OnlyTransitive(a: State, b: State, c: State, id: Id, heard: int)
    requires id in b.peers && OnlyPeer(a, b, id, b.peers[id].lastPing) && OnlyPeer(b, c, id, heard)
    ensures OnlyPeer(a, c, id, heard)
  {
  }

  lemma RevokeOnly(w: State, id: Id, ok: Oracle)
    requires id in w.peers
    ensures OnlyPeer(w, RevokePeer(w, id, false, ok), id, w.peers[id].lastPing)
  {
    hide RevokePeer;
  }

  lemma SetOnly(w: State, id: Id, peer: Peer)
    requires id in w.peers && peer.serial == w.peers[id].serial
    ensures OnlyPeer(w, SetPeer(w, id, peer), id, peer.lastPing)
  {
  }

  lemma PostOnly(w: State, input: Input, origin: Origin, ok: Oracle, id: Id)
    requires id in w.peers
    ensures OnlyPeer(w, PostInput(w, input, origin, ok), id, w.peers[id].lastPing)
  {
    hide PostInput;
  }

  lemma SameOnly(w: State, id: Id)
    requires id in w.peers
    ensures OnlyPeer(w, w, id, w.peers[id].lastPing)
  {
  }

  lemma PerformSeen(w: State, id: Id, input: Option<Input>, t0: int, t1: int, ok: Oracle)
    requires id in w.peers
    ensures OnlyPeer(w, Perform(w, id, input, t0, t1, ok), id, w.peers[id].lastPing)
  {
    hide RevokePeer, PostInput, OnlyPeer;
    SameOnly(w, id);
    var w1 := SetPeer(w, id, Counted(w.peers[id], t1));
    SetOnly(w, id, Counted(w.peers[id], t1));
    RevokeOnly(w1, id, ok);
    OnlyTransitive(w, w1, RevokePeer(w1, id, false, ok), id, w.peers[id].lastPing);
    if input.Some? {
      var origin := Viewer(w1.peers[id].serial, id, t0, t1);
      PostOnly(w1, input.value, origin, ok, id);
      OnlyTransitive(w, w1, PostInput(w1, input.value, origin, ok), id, w.peers[id].lastPing);
    }
  }

  lemma CheckedSeen(w: State, id: Id, t0: int, ok: Oracle)
    requires id in w.peers
    ensures OnlyPeer(w, LeaseChecked(w, id, t0, ok), id, w.peers[id].lastPing)
  {
    hide RevokePeer, OnlyPeer, Allowed;
    SameOnly(w, id);
    RevokeOnly(w, id, ok);
  }

  lemma TakenSeen(w: State, id: Id, enabled: bool, t1: int, t2: int, ok: Oracle)
    requires id in w.peers
    ensures OnlyPeer(w, TakeControl(w, id, enabled, t1, t2, ok), id, t2)
  {
    hide RevokePeer, OnlyPeer, Allowed;
    var w1 := RevokePeer(w, id, false, ok);
    RevokeOnly(w, id, ok);
    var p := w1.peers[id].(control := Allowed(w1.permission, id, t1 / 1000) && enabled, lastPing := t2);
    SetOnly(w1, id, p);
    OnlyTransitive(w, w1, SetPeer(w1, id, p), id, t2);
  }

  lemma HandleSeen(w: State, e: Event, ok: Oracle)
    requires e.InputEvent? && Heeded(w, e, e.id)
    ensures SeenAfter(w, e, Handle(w, e.id, e.text, e.t0, e.t1, e.t2, ok))
  {
    hide RevokePeer, LeaseChecked, TakeControl, Perform, OnlyPeer, SeenAfter;
    var id, w1 := e.id, LeaseChecked(w, e.id, e.t0, ok);
    CheckedSeen(w, id, e.t0, ok);
    OnlyHeard(w, w1, id);
    match e.text {
      case Ping =>
        SetOnly(w1, id, w1.peers[id].(lastPing := e.t1));
        OnlyTransitive(w, w1, Handle(w, id, e.text, e.t0, e.t1, e.t2, ok), id, e.t1);
      case ReleaseAll =>
        RevokeOnly(w1, id, ok);
        OnlyTransitive(w, w1, RevokePeer(w1, id, false, ok), id, w1.peers[id].lastPing);
      case Control(enabled) =>
        TakenSeen(w1, id, enabled, e.t1, e.t2, ok);
        OnlyTransitive(w, w1, Handle(w, id, e.text, e.t0, e.t1, e.t2, ok), id, e.t2);
      case Act(input) =>
        PerformSeen(w1, id, input, e.t0, e.t1, ok);
        OnlyTransitive(w, w1, Perform(w1, id, input, e.t0, e.t1, ok), id, w1.peers[id].lastPing);
    }
    OnlyIsAfter(w, e, Handle(w, id, e.text, e.t0, e.t1, e.t2, ok));
  }

  lemma OnlyHeard(w: State, w1: State, id: Id)
    requires id in w.peers && OnlyPeer(w, w1, id, w.peers[id].lastPing)
    ensures id in w1.peers && w1.peers[id].lastPing == w.peers[id].lastPing
  {
  }

  lemma OnlyIsAfter(w: State, e: Event, w': State)
    requires e.InputEvent? && Heeded(w, e, e.id)
    requires OnlyPeer(w, w', e.id, if e.text == Ping || e.text.Control? then ShownAt(e) else w.peers[e.id].lastPing)
    ensures SeenAfter(w, e, w')
  {
    forall id ensures id in w'.peers <==> id in w.peers {
      assert id in w'.peers.Keys <==> id in w.peers.Keys;
    }
  }

  lemma PermitSeen(w: State, e: Event, ok: Oracle)
    requires !w.stopped && e.PermitEvent?
    ensures SameSeen(w, Apply(w, e, ok))
  {
    hide RevokePeer, Enforce, ReleaseHeld, Grant, SameSeen;
    SeenItself(w);
    var w1 := Leased(w, e.id, e.allow, e.t0 / 1000, e.leaseMs.Floor, ok);
    LeasedSeen(w, e, ok);
    EnforceSeen(w1, e.t1, ok);
    if ValidPermit(e.id, e.leaseMs) {
      SameSeenTransitive(w, w1, Enforce(w1, e.t1, ok));
    } else {
      ReleaseSeen(w, ok);
    }
  }

  lemma LeasedSeen(w: State, e: Event, ok: Oracle)
    requires e.PermitEvent?
    ensures var w1 := Leased(w, e.id, e.allow, e.t0 / 1000, e.leaseMs.Floor, ok);
      SameSeen(w, w1) && w1.peers.Keys == w.peers.Keys
  {
    hide RevokePeer, Grant;
  }

  lemma ReleaseSeen(w: State, ok: Oracle)
    ensures SameSeen(w, ReleaseHeld(w, ok)) && SameSeen(w, Stop(ReleaseHeld(w, ok))) && SameSeen(w, Stop(w))
  {
    hide ReleaseHeld;
  }

  lemma RemoveSeen(w: State, id: Id, ok: Oracle)
    ensures SameSeen(w, RemoveViewer(Tell(w, RemoveAsked(id)), id, true, ok))
  {
    hide RemoveViewer, BeginRemoval, Waiting, Without;
    if id in w.peers && !Waiting(w.waiting, id) {
      RemovedSeen(w, id, ok);
    } else {
      NotRemoved(w, id, ok);
    }
  }

  lemma RemovedSeen(w: State, id: Id, ok: Oracle)
    requires id in w.peers && !Waiting(w.waiting, id)
    ensures SameSeen(w, RemoveViewer(Tell(w, RemoveAsked(id)), id, true, ok))
  {
    hide RemoveViewer, SameSeen;
    V.RemovalNoted(w, id, ok);
    var w' := RemoveViewer(Tell(w, RemoveAsked(id)), id, true, ok);
    OneSeen(w, w', id, w'.peers[id]);
  }

  lemma OneSeen(w: State, w': State, id: Id, p: Peer)
    requires id in w.peers && w'.peers == w.peers[id := p] && w'.nextSerial == w.nextSerial
    requires p.serial == w.peers[id].serial && p.lastPing == w.peers[id].lastPing
    ensures SameSeen(w, w')
  {
  }

  lemma NotRemoved(w: State, id: Id, ok: Oracle)
    requires id !in w.peers || Waiting(w.waiting, id)
    ensures SameSeen(w, RemoveViewer(Tell(w, RemoveAsked(id)), id, true, ok))
  {
    hide Waiting, Without, BeginRemoval;
  }

  lemma NetSeen(w: State, message: NetMessage, ok: Oracle)
    ensures SameSeen(w, FromNet(w, message, ok))
  {
    hide RevokePeer, FailPeer, ClosePeer, AddAll;
    AddAllSeen(w.(ready := true, waiting := []), w.waiting);
  }

  lemma EventSeen(w: State, e: Event, ok: Oracle)
    ensures SeenAfter(w, e, Apply(w, e, ok))
  {
    hide SeenAfter, SameSeen, Enforce, FromNet, RemoveViewer, AddViewer, ReleaseHeld, InputMessage, Permit;
    SeenItself(w);
    ReleaseSeen(w, ok);
    if w.stopped {
      SameIsAfter(w, e, Apply(w, e, ok));
    } else if e.InputEvent? {
      InputSeen(w, e, ok);
    } else {
      match e {
        case Start(video) => StartSeen(w, video);
        case Add(id, sdp) => AddSeen(w, id, sdp);
        case Remove(id) => RemoveSeen(w, id, ok);
        case PermitEvent(_, _, _, _, _) => PermitSeen(w, e, ok);
        case Net(message) => NetSeen(w, message, ok);
        case Tick(display, t0) => EnforceSeen(w, t0, ok);
        case Fatal =>
        case Exit =>
      }
      SameIsAfter(w, e, Apply(w, e, ok));
    }
  }

  lemma StartSeen(w: State, video: bool)
    ensures SameSeen(w, Send(w.(started := true, videoEnabled := video), Configure))
  {
  }

  // ---- Silence

  /** When a viewer last sent a ping or asked about control; 0 if it never did. */
  ghost function LastShown(events: seq<Event>, ok: Oracle, serial: nat): int {
    if events == [] then 0
    else
      var e := events[|events| - 1];
      if Shows(Run(events[..|events| - 1], ok), e, serial) then ShownAt(e)
      else LastShown(events[..|events| - 1], ok, serial)
  }

  ghost predicate SeenInv(events: seq<Event>, ok: Oracle) {
    var w := Run(events, ok);
    && (forall id :: id in w.peers ==> w.peers[id].lastPing == LastShown(events, ok, w.peers[id].serial))
    && (forall serial: nat :: serial >= w.nextSerial ==> LastShown(events, ok, serial) == 0)
  }

  predicate Numbered(w: State) {
    && (forall id :: id in w.peers ==> w.peers[id].serial < w.nextSerial)
    && (forall a, b :: a in w.peers && b in w.peers && w.peers[a].serial == w.peers[b].serial ==> a == b)
  }

  lemma NumberedAlways(events: seq<Event>, ok: Oracle)
    ensures Numbered(Run(events, ok))
  {
    hide Run;
    V.InvAlways(events, ok);
  }

  lemma {:induction false} SeenAlways(events: seq<Event>, ok: Oracle)
    ensures SeenInv(events, ok)
  {
    hide Apply, Shows, ShownAt, SeenAfter;
    if events != [] {
      var before, e := events[..|events| - 1], events[|events| - 1];
      SeenAlways(before, ok);
      NumberedAlways(before, ok);
      EventSeen(Run(before, ok), e, ok);
      SeenStep(events, ok);
    }
  }

  lemma SeenStep(events: seq<Event>, ok: Oracle)
    requires events != [] && SeenInv(events[..|events| - 1], ok) && Numbered(Run(events[..|events| - 1], ok))
    requires SeenAfter(Run(events[..|events| - 1], ok), events[|events| - 1], Run(events, ok))
    ensures SeenInv(events, ok)
  {
    hide Run, Apply, Heeded;
    var before, e := events[..|events| - 1], events[|events| - 1];
    var w, w' := Run(before, ok), Run(events, ok);
    forall id | id in w'.peers ensures w'.peers[id].lastPing == LastShown(events, ok, w'.peers[id].serial) {
      if Shows(w, e, w'.peers[id].serial) {
        ShowsMeans(w, e, w'.peers[id].serial);
      }
    }
    forall serial: nat | serial >= w'.nextSerial ensures LastShown(events, ok, serial) == 0 {
      if Shows(w, e, serial) {
        ShowsMeans(w, e, serial);
      }
    }
  }

  lemma ShowsMeans(w: State, e: Event, serial: nat)
    requires Shows(w, e, serial)
    ensures e.InputEvent? && e.id in w.peers && w.peers[e.id].serial == serial
  {
  }

  /**
   After each tick of the timer, whoever has control has sent a ping or asked about control within
   the last five seconds, and a grant to it is in force.
   */
  lemma ControllersAreFresh(events: seq<Event>, ok: Oracle, n: nat, id: Id)
    requires n < |events| && events[n].Tick? && events[n].display && !Run(events[..n], ok).stopped
    requires events[n].t0 >= 0 && id != "" && HasControl(Run(events[..n + 1], ok), id)
    ensures id in Run(events[..n], ok).peers
    ensures events[n].t0 - LastShown(events[..n], ok, Run(events[..n], ok).peers[id].serial) <= 5_000_000
    ensures exists g: nat :: H.InForce(events, ok, g, n, id) && events[n].t0 / 1000 < H.EndOf(events[g])
  {
    hide Run, LastShown;
    ControlExactly(events, ok, n, id);
    SeenAlways(events[..n], ok);
    H.AllowedIffGranted(events, ok, n, id, events[n].t0 / 1000);
  }

  // ---- Input

  /** An input message that is counted for the viewer with this number, at a time from `from` on. */
  predicate CountedAct(w: State, e: Event, serial: nat, from: int) {
    T.Performs(w, e) && w.peers[e.id].serial == serial && e.t1 >= from
  }

  /** How many there were. */
  ghost function ActsSince(events: seq<Event>, ok: Oracle, serial: nat, from: int): nat {
    if events == [] then 0
    else
      ActsSince(events[..|events| - 1], ok, serial, from)
      + if CountedAct(Run(events[..|events| - 1], ok), events[|events| - 1], serial, from) then 1 else 0
  }

  lemma {:induction false} FewerSince(events: seq<Event>, ok: Oracle, serial: nat, from: int, later: int)
    requires from <= later
    ensures ActsSince(events, ok, serial, later) <= ActsSince(events, ok, serial, from)
  {
    hide Run, T.Performs;
    if events != [] {
      FewerSince(events[..|events| - 1], ok, serial, from, later);
    }
  }

  ghost predicate CountInv(events: seq<Event>, ok: Oracle) {
    var w := Run(events, ok);
    forall id :: id in w.peers ==> w.peers[id].rateCount <= ActsSince(events, ok, w.peers[id].serial, w.peers[id].rateWindow)
  }

  /** What any event does to the counts: one more for the viewer whose input is counted. */
  predicate CountedAfter(w: State, e: Event, w': State) {
    forall id :: id in w'.peers ==>
      if id in w.peers then
        && w'.peers[id].serial == w.peers[id].serial
        && if T.Performs(w, e) && e.InputEvent? && e.id == id then
             var p := Counted(w.peers[id], e.t1);
             w'.peers[id].rateWindow == p.rateWindow && w'.peers[id].rateCount == p.rateCount
           else
             w'.peers[id].rateWindow == w.peers[id].rateWindow && w'.peers[id].rateCount == w.peers[id].rateCount
      else w'.peers[id].rateCount == 0
  }

  lemma EventCounts(w: State, e: Event, ok: Oracle)
    ensures CountedAfter(w, e, Apply(w, e, ok))
  {
    hide Apply, Counted, T.OnlyLifts;
    if T.Performs(w, e) {
      T.PerformEffect(w, e, ok);
      PerformsMeans(w, e);
      R.CountedIsSame(w.peers[e.id], e.t1);
      assert forall id :: id in Apply(w, e, ok).peers.Keys ==> id in w.peers.Keys;
    } else if T.Adds(e) {
      T.AddsGrow(w, e, ok);
    } else if T.Grants(e) && !w.stopped {
      T.GrantEffect(w, e, ok);
    } else if T.Grants(e) {
      StoppedCounts(w, e, ok);
    } else {
      T.OthersAreQuiet(w, e, ok);
    }
  }

  lemma StoppedCounts(w: State, e: Event, ok: Oracle)
    requires w.stopped && T.Grants(e)
    ensures Apply(w, e, ok) == w
  {
  }

  lemma {:induction false} CountAlways(events: seq<Event>, ok: Oracle)
    requires WellTimed(events)
    ensures CountInv(events, ok)
  {
    hide Apply, WellTimed, CountedAfter, T.Performs;
    if events != [] {
      var before, e := events[..|events| - 1], events[|events| - 1];
      R.ClockAdvances(events);
      CountAlways(before, ok);
      EventCounts(Run(before, ok), e, ok);
      CountStep(events, ok);
    }
  }

  lemma CountStep(events: seq<Event>, ok: Oracle)
    requires events != [] && WellTimed(events) && CountInv(events[..|events| - 1], ok)
    requires CountedAfter(Run(events[..|events| - 1], ok), events[|events| - 1], Run(events, ok))
    ensures CountInv(events, ok)
  {
    hide Run, WellTimed, T.Performs;
    var before, e := events[..|events| - 1], events[|events| - 1];
    var w, w' := Run(before, ok), Run(events, ok);
    forall id | id in w'.peers
      ensures w'.peers[id].rateCount <= ActsSince(events, ok, w'.peers[id].serial, w'.peers[id].rateWindow)
    {
      if id in w.peers && T.Performs(w, e) && e.InputEvent? && e.id == id {
        PerformsMeans(w, e);
        WindowIsPast(events, ok, id);
      }
    }
  }

  lemma PerformsMeans(w: State, e: Event)
    requires T.Performs(w, e)
    ensures e.InputEvent? && e.text.Act? && e.id in w.peers && !w.stopped
  {
  }

  /** The rate window of a viewer began before its next message. */
  lemma WindowIsPast(events: seq<Event>, ok: Oracle, id: Id)
    requires events != [] && WellTimed(events) && events[|events| - 1].InputEvent?
    requires id in Run(events[..|events| - 1], ok).peers
    ensures Run(events[..|events| - 1], ok).peers[id].rateWindow <= events[|events| - 1].t1
  {
    hide Run, WellTimed;
    var before, e := events[..|events| - 1], events[|events| - 1];
    R.ClockAdvances(events);
    assert Times(e)[1] == e.t1;
    R.RateAlways(before, ok, Run(before, ok).peers[id].serial, 0, 0);
  }

  /** The viewer may act: it is there, has control, and a grant to it is in force. */
  ghost predicate MayAct(events: seq<Event>, ok: Oracle, n: nat)
    requires n < |events| && events[n].InputEvent?
  {
    var w, e := Run(events[..n], ok), events[n];
    && !w.stopped && e.display && HasControl(w, e.id) && !w.peers[e.id].removing
    && exists g: nat :: H.InForce(events, ok, g, n, e.id) && e.t0 / 1000 < H.EndOf(events[g])
  }

  /**
   Input from a viewer that may act is posted, once and as it came, if fewer than a thousand of its
   input messages were counted in the second before.
   */
  lemma InputIsPosted(events: seq<Event>, ok: Oracle, n: nat, input: Input)
    requires WellTimed(events) && n < |events| && events[n].InputEvent? && events[n].text == Act(Some(input))
    requires MayAct(events, ok, n) && events[n].id != ""
    requires ActsSince(events[..n], ok, Run(events[..n], ok).peers[events[n].id].serial, events[n].t1 - 1_000_000) < 1000
    ensures var w, w', e := Run(events[..n], ok), Run(events[..n + 1], ok), events[n];
      w'.posts == w.posts + [Post(input, ok(|w.posts|), Viewer(w.peers[e.id].serial, e.id, e.t0, e.t1))]
  {
    hide Run, Apply, WellTimed, ActsSince;
    var w, e := Run(events[..n], ok), events[n];
    H.TimesOrdered(events, n, n);
    H.AllowedIffGranted(events, ok, n, e.id, e.t0 / 1000);
    TimedPrefix(events, n);
    CountAlways(events[..n], ok);
    H.RunPrefix(events, ok, n);
    T.PerformEffect(w, e, ok);
    if e.t1 - w.peers[e.id].rateWindow <= 1_000_000 {
      FewerSince(events[..n], ok, w.peers[e.id].serial, e.t1 - 1_000_000, w.peers[e.id].rateWindow);
    }
  }

  lemma {:induction false} TimedPrefix(events: seq<Event>, n: nat)
    requires WellTimed(events) && n <= |events|
    ensures WellTimed(events[..n])
    decreases |events|
  {
    if n < |events| {
      R.ClockAdvances(events);
      TimedPrefix(events[..|events| - 1], n);
      assert events[..|events| - 1][..n] == events[..n];
    } else {
      assert events[..n] == events;
    }
  }

  // ---- The end

  /** The events that end a source for good, and leaving the main loop. */
  predicate EndsForGood(w: State, e: Event) {
    match e
    case Exit => true
    case Tick(display, _) => !w.stopped && !display
    case PermitEvent(id, _, leaseMs, _, _) => !w.stopped && !ValidPermit(id, leaseMs)
    case InputEvent(id, text, display, _, _, _) =>
      !w.stopped && !display && text != Unparsed && id in w.peers && !w.peers[id].removing
    case _ => false
  }

  /** Whoever has control then, what it holds is let go, unless a lift itself fails. */
  lemma EndLetsGo(events: seq<Event>, ok: Oracle, n: nat)
    requires n < |events| && EndsForGood(Run(events[..n], ok), events[n])
    ensures var w' := Run(events[..n + 1], ok);
      && (S.LiftsWork(w'.posts) ==> S.NothingHeld(w'))
      && (!events[n].Exit? ==> w'.stopped)
  {
    hide Run, ReleaseHeld, S.HeldExact, S.LiftsWork;
    S.InvAlways(events[..n], ok);
    H.RunPrefix(events, ok, n);
    S.ReleaseEffect(Run(events[..n], ok), ok);
  }

  /** The first start decides whether there is video; nothing else does. */
  lemma VideoAsStarted(events: seq<Event>, ok: Oracle, n: nat)
    requires n < |events|
    ensures var w, w', e := Run(events[..n], ok), Run(events[..n + 1], ok), events[n];
      if !w.stopped && !w.started && e.Start? then
        w'.started && w'.videoEnabled == e.video && w'.commands == w.commands + [Configure]
      else w'.started == w.started && w'.videoEnabled == w.videoEnabled
  {
    hide Run, Apply;
    H.RunPrefix(events, ok, n);
    EventStarts(Run(events[..n], ok), events[n], ok);
  }

  lemma EventStarts(w: State, e: Event, ok: Oracle)
    ensures var w' := Apply(w, e, ok);
      if !w.stopped && !w.started && e.Start? then
        w'.started && w'.videoEnabled == e.video && w'.commands == w.commands + [Configure]
      else w'.started == w.started && w'.videoEnabled == w.videoEnabled
  {
    hide ReleaseHeld, AddViewer, RemoveViewer, FromNet, InputMessage, Enforce, Leased;
    match e
    case Add(id, sdp) => AddStarts(w, id, sdp);
    case Remove(id) => RemoveStarts(w, id, ok);
    case PermitEvent(id, allow, leaseMs, t0, t1) =>
      LeasedStarts(w, id, allow, t0 / 1000, leaseMs.Floor, ok);
      EnforceStarts(Leased(w, id, allow, t0 / 1000, leaseMs.Floor, ok), t1, ok);
    case Tick(_, t0) => EnforceStarts(w, t0, ok);
    case Net(message) => NetStarts(w, message, ok);
    case InputEvent(id, text, display, t0, t1, t2) => InputStarts(w, id, text, display, t0, t1, t2, ok);
    case _ =>
  }

  lemma RemoveStarts(w: State, id: Id, ok: Oracle)
    ensures var w' := RemoveViewer(Tell(w, RemoveAsked(id)), id, true, ok); w'.started == w.started && w'.videoEnabled == w.videoEnabled
  {
    hide BeginRemoval, Waiting, Without;
  }

  lemma NetStarts(w: State, message: NetMessage, ok: Oracle)
    ensures var w' := FromNet(w, message, ok); w'.started == w.started && w'.videoEnabled == w.videoEnabled
  {
    hide RevokePeer, FailPeer, ClosePeer, AddAll;
    AddAllStarts(w.(ready := true, waiting := []), w.waiting);
  }

  lemma InputStarts(w: State, id: Id, text: ViewerMessage, display: bool, t0: int, t1: int, t2: int, ok: Oracle)
    ensures var w' := InputMessage(w, id, text, display, t0, t1, t2, ok);
      w'.started == w.started && w'.videoEnabled == w.videoEnabled
  {
    hide Handle, ReleaseHeld;
    if id in w.peers {
      HandleStarts(w, id, text, t0, t1, t2, ok);
    }
  }

  lemma HandleStarts(w: State, id: Id, message: ViewerMessage, t0: int, t1: int, t2: int, ok: Oracle)
    requires id in w.peers
    ensures var w' := Handle(w, id, message, t0, t1, t2, ok); w'.started == w.started && w'.videoEnabled == w.videoEnabled
  {
    hide RevokePeer, LeaseChecked, TakeControl, Perform, Allowed;
    var w1 := LeaseChecked(w, id, t0, ok);
    CheckedStarts(w, id, t0, ok);
    match message
    case Unparsed =>
    case Ping =>
    case ReleaseAll =>
    case Control(enabled) => TakesStarts(w1, id, enabled, t1, t2, ok);
    case Act(input) => PerformStarts(w1, id, input, t0, t1, ok);
  }

  lemma CheckedStarts(w: State, id: Id, t0: int, ok: Oracle)
    requires id in w.peers
    ensures var w' := LeaseChecked(w, id, t0, ok); w'.started == w.started && w'.videoEnabled == w.videoEnabled
  {
    hide RevokePeer, Allowed;
  }

  lemma TakesStarts(w: State, id: Id, enabled: bool, t1: int, t2: int, ok: Oracle)
    requires id in w.peers
    ensures var w' := TakeControl(w, id, enabled, t1, t2, ok); w'.started == w.started && w'.videoEnabled == w.videoEnabled
  {
    hide RevokePeer, Allowed;
  }

  lemma PerformStarts(w: State, id: Id, input: Option<Input>, t0: int, t1: int, ok: Oracle)
    requires id in w.peers
    ensures var w' := Perform(w, id, input, t0, t1, ok); w'.started == w.started && w'.videoEnabled == w.videoEnabled
  {
    hide RevokePeer, PostInput;
  }

  lemma AddStarts(w: State, id: Id, sdp: string)
    ensures var w' := AddViewer(w, id, sdp); w'.started == w.started && w'.videoEnabled == w.videoEnabled
  {
    hide Waiting, ValidPeerId;
  }

  lemma {:induction false} AddAllStarts(w: State, viewers: seq<(Id, string)>)
    ensures var w' := AddAll(w, viewers); w'.started == w.started && w'.videoEnabled == w.videoEnabled
    decreases |viewers|
  {
    hide AddViewer;
    if viewers != [] {
      AddStarts(w, viewers[0].0, viewers[0].1);
      AddAllStarts(AddViewer(w, viewers[0].0, viewers[0].1), viewers[1..]);
    }
  }

  lemma LeasedStarts(w: State, id: Id, allow: bool, now: int, duration: int, ok: Oracle)
    ensures var w' := Leased(w, id, allow, now, duration, ok); w'.started == w.started && w'.videoEnabled == w.videoEnabled
  {
    hide RevokePeer, Grant;
  }

  lemma EnforceStarts(w: State, now: int, ok: Oracle)
    ensures var w' := Enforce(w, now, ok); w'.started == w.started && w'.videoEnabled == w.videoEnabled
  {
    hide RevokePeer;
  }
}
