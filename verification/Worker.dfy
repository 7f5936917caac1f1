/**
 The media worker's main loop (media-worker.cpp): its viewers, the owner's lease, the input
 broker and its half of the protocol with media-net. Every handler is a function from the state
 before to the state after; WorkerLoop has the handlers as the source writes them.
 */
module Worker {
  import opened Bytes
  import opened Permission

  const SECOND := 1_000_000 // microseconds
  const PING_LIMIT := 5 * SECOND
  const MAX_RATE := 1000
  const MAX_WAITING := 64
  const MAX_SDP := 65536

  datatype Input = Move | Wheel | Key(code: int, down: bool) | Button(button: int, down: bool)

  /**
   Why something was posted: to lift what was held, or for a viewer, whose lease was checked at
   `checked` and whose rate was checked at `time`.
   */
  datatype Origin = Lift | Viewer(serial: nat, id: Id, checked: int, time: int)

  datatype Post = Post(input: Input, ok: bool, origin: Origin)

  /** Whether the n-th post of the run will succeed: the operating system decides. */
  type Oracle = nat -> bool

  /** `serial` numbers the viewers in the order they were added; it is history. */
  datatype Peer = Peer(
    serial: nat, answered: bool, removing: bool, notifyClosed: bool, control: bool,
    lastPing: int, rateWindow: int, rateCount: int)

  /** The exchange with the server that concerns viewers: its removals, and what it is told. */
  datatype ServerEvent =
    | RemoveAsked(id: Id) | Answered(id: Id, serial: nat, sdp: string)
    | Failed(id: Id, who: Option<nat>) | Closed(id: Id, who: Option<nat>)

  datatype NetCommand =
    | Configure | AddPeer(id: Id, sdp: string) | RemovePeer(id: Id) | ControlState(id: Id, control: bool)

  datatype NetMessage =
    | NetReady | NetAnswer(id: Id, sdp: string) | NetFailed(id: Id) | NetClosed(id: Id)
    | ChannelClosed(id: Id) | NetOther | NetFatal

  /** The text of an input record, as far as the broker looks at it. */
  datatype ViewerMessage =
    | Unparsed | Ping | ReleaseAll | Control(enabled: bool)
    | Act(input: Option<Input>) // None: an unknown type, or members that are refused

  /** `posts`, `server` and `commands` are everything posted and sent so far, in order. */
  datatype State = State(
    started: bool, ready: bool, stopped: bool, videoEnabled: bool,
    waiting: seq<(Id, string)>, peers: map<Id, Peer>, permission: Permission,
    keys: set<int>, buttons: set<int>, nextSerial: nat,
    posts: seq<Post>, server: seq<ServerEvent>, commands: seq<NetCommand>)

  const INITIAL := State(false, false, false, false, [], map[], NOBODY, {}, {}, 0, [], [], [])

  function Stop(w: State): State {
    w.(stopped := true)
  }

  function Send(w: State, command: NetCommand): State {
    w.(commands := w.commands + [command])
  }

  function Tell(w: State, event: ServerEvent): State {
    w.(server := w.server + [event])
  }

  // ---- Posting input

  function Posted(w: State, input: Input, origin: Origin, ok: Oracle): State {
    w.(posts := w.posts + [Post(input, ok(|w.posts|), origin)])
  }

  function Held(held: set<int>, code: int, down: bool, ok: bool): set<int> {
    if !ok then held else if down then held + {code} else held - {code}
  }

  /** key_input, button_input, post_move and post_wheel. */
  function PostInput(w: State, input: Input, origin: Origin, ok: Oracle): (w': State)
    ensures w' == w.(keys := w'.keys, buttons := w'.buttons, posts := w.posts + [Post(input, ok(|w.posts|), origin)])
  {
    var w' := Posted(w, input, origin, ok);
    match input
    case Key(code, down) => w'.(keys := Held(w.keys, code, down, ok(|w.posts|)))
    case Button(button, down) => w'.(buttons := Held(w.buttons, button, down, ok(|w.posts|)))
    case _ => w'
  }

  predicate IsLeast(k: int, s: set<int>) {
    k in s && forall j :: j in s ==> k <= j
  }

  lemma {:induction false} LeastExists(s: set<int>)
    requires s != {}
    ensures exists k :: IsLeast(k, s)
    decreases |s|
  {
    if forall x :: x !in s {
      assert false;
    }
    var x :| x in s;
    var rest := s - {x};
    if rest == {} {
      assert s == {x};
      assert IsLeast(x, s);
    } else {
      LeastExists(rest);
      var k: int :| IsLeast(k, rest);
      var least := if x < k then x else k;
      forall j | j in s ensures least <= j {
        assert j == x || j in rest;
      }
      assert IsLeast(least, s);
    }
  }

  /** The order in which std::set is walked. */
  function Least(s: set<int>): (k: int)
    requires s != {}
    ensures IsLeast(k, s)
  {
    LeastExists(s);
    var k :| IsLeast(k, s);
    k
  }

  function LiftKeys(w: State, pending: set<int>, ok: Oracle): (w': State)
    ensures w' == w.(keys := w'.keys, posts := w'.posts)
    decreases |pending|
  {
    if pending == {} then w
    else
      var k := Least(pending);
      LiftKeys(PostInput(w, Key(k, false), Lift, ok), pending - {k}, ok)
  }

  function LiftButtons(w: State, pending: set<int>, ok: Oracle): (w': State)
    ensures w' == w.(buttons := w'.buttons, posts := w'.posts)
    decreases |pending|
  {
    if pending == {} then w
    else
      var k := Least(pending);
      LiftButtons(PostInput(w, Button(k, false), Lift, ok), pending - {k}, ok)
  }

  function ReleaseHeld(w: State, ok: Oracle): (w': State)
    ensures w' == w.(keys := w'.keys, buttons := w'.buttons, posts := w'.posts)
  {
    LiftButtons(LiftKeys(w, w.keys, ok), w.buttons, ok)
  }

  // ---- Control

  function SetPeer(w: State, id: Id, peer: Peer): State {
    w.(peers := w.peers[id := peer])
  }

  function RevokePeer(w: State, id: Id, notify: bool, ok: Oracle): (w': State)
    requires id in w.peers
    ensures w' == w.(peers := w.peers[id := w.peers[id].(control := false)], keys := w'.keys, buttons := w'.buttons,
                     posts := w'.posts,
                     commands := w.commands + if notify then [ControlState(id, false)] else [])
    ensures !w.peers[id].control ==> w'.keys == w.keys && w'.buttons == w.buttons && w'.posts == w.posts
  {
    var w1 := if w.peers[id].control then ReleaseHeld(w, ok) else w;
    var w2 := SetPeer(w1, id, w1.peers[id].(control := false));
    if notify then Send(w2, ControlState(id, false)) else w2
  }

  /** Lost pings for 5 seconds, or no lease, end a peer's control. */
  predicate MustRevoke(w: State, id: Id, now: int) {
    id in w.peers && w.peers[id].control
    && (now - w.peers[id].lastPing > PING_LIMIT || !Allowed(w.permission, id, now / 1000))
  }

  /**
   enforce_permission. The source looks at every peer; at most one has control (OneControl), so
   at most one is revoked, and the order of the peers does not matter.
   */
  ghost function Enforce(w: State, now: int, ok: Oracle): State {
    if id: Id :| MustRevoke(w, id, now) then RevokePeer(w, id, true, ok) else w
  }

  /** A peer that has control when its lease is over loses it before its message counts. */
  function LeaseChecked(w: State, id: Id, t0: int, ok: Oracle): (w': State)
    requires id in w.peers
    ensures w'.peers.Keys == w.peers.Keys
  {
    if w.peers[id].control && !Allowed(w.permission, id, t0 / 1000) then RevokePeer(w, id, false, ok) else w
  }

  /** Asking for control; taking it would revoke every other peer, but there is none to revoke. */
  function TakeControl(w: State, id: Id, enabled: bool, t1: int, t2: int, ok: Oracle): (w': State)
    requires id in w.peers
    ensures w'.peers.Keys == w.peers.Keys
  {
    var w := RevokePeer(w, id, false, ok);
    SetPeer(w, id, w.peers[id].(control := Allowed(w.permission, id, t1 / 1000) && enabled, lastPing := t2))
  }

  /** Input from a peer: dropped without control, and past the rate limit the end of control. */
  function Perform(w: State, id: Id, input: Option<Input>, t0: int, t1: int, ok: Oracle): (w': State)
    requires id in w.peers
    ensures w'.peers.Keys == w.peers.Keys
  {
    if !w.peers[id].control then w
    else
      var w := SetPeer(w, id, Counted(w.peers[id], t1));
      if w.peers[id].rateCount > MAX_RATE then RevokePeer(w, id, false, ok)
      else if input.None? then w
      else PostInput(w, input.value, Viewer(w.peers[id].serial, id, t0, t1), ok)
  }

  /** An input message that parsed, from a peer that is not being removed. */
  function Handle(w: State, id: Id, message: ViewerMessage, t0: int, t1: int, t2: int, ok: Oracle): (w': State)
    requires id in w.peers
    ensures w'.peers.Keys == w.peers.Keys
  {
    var w := LeaseChecked(w, id, t0, ok);
    match message
    case Unparsed => w
    case Ping => SetPeer(w, id, w.peers[id].(lastPing := t1))
    case ReleaseAll => RevokePeer(w, id, false, ok)
    case Control(enabled) => TakeControl(w, id, enabled, t1, t2, ok)
    case Act(input) => Perform(w, id, input, t0, t1, ok)
  }

  /** The rate limit: windows of one second, counted from the first message after the last one. */
  function Counted(peer: Peer, now: int): Peer {
    var peer := if now - peer.rateWindow > SECOND then peer.(rateWindow := now, rateCount := 0) else peer;
    peer.(rateCount := peer.rateCount + 1)
  }

  /** input_message. t0, t1 and t2 are its successive readings of the clock. */
  function InputMessage(w: State, id: Id, message: ViewerMessage, display: bool, t0: int, t1: int, t2: int, ok: Oracle): State
  {
    if id !in w.peers || w.peers[id].removing then w
    else if message != Unparsed && !display then Stop(ReleaseHeld(w, ok))
    else
      var w := if message == Unparsed then w else Handle(w, id, message, t0, t1, t2, ok);
      Send(w, ControlState(id, w.peers[id].control))
  }

  predicate ValidPermit(id: Id, leaseMs: real) {
    1 <= |id| <= 64 && 1.0 <= leaseMs <= 5000.0
  }

  /** The lease granted to a peer, or taken from it. */
  function Leased(w: State, id: Id, allow: bool, now: int, duration: int, ok: Oracle): State {
    if allow then
      var known := w.videoEnabled && id in w.peers && !w.peers[id].removing;
      w.(permission := Grant(id, known, now, duration))
    else
      var w := w.(permission := Revoke(w.permission, id));
      if id in w.peers then RevokePeer(w, id, true, ok) else w
  }

  /** control-permission from the server. */
  ghost function Permit(w: State, id: Id, allow: bool, leaseMs: real, t0: int, t1: int, ok: Oracle): State {
    if !ValidPermit(id, leaseMs) then Stop(ReleaseHeld(w, ok))
    else Enforce(Leased(w, id, allow, t0 / 1000, leaseMs.Floor, ok), t1, ok)
  }

  // ---- Viewers

  predicate Waiting(waiting: seq<(Id, string)>, id: Id) {
    exists i :: 0 <= i < |waiting| && waiting[i].0 == id
  }

  predicate IdChar(c: char) {
    'a' <= c <= 'z' || 'A' <= c <= 'Z' || '0' <= c <= '9' || c == '-'
  }

  predicate ValidPeerId(id: Id) {
    1 <= |id| <= 64 && forall i :: 0 <= i < |id| ==> IdChar(id[i])
  }

  function NewPeer(serial: nat): Peer {
    Peer(serial, false, false, false, false, 0, 0, 0)
  }

  function AddViewer(w: State, id: Id, sdp: string): State {
    if !w.started || id in w.peers || Waiting(w.waiting, id) then Tell(w, Failed(id, None))
    else if !w.ready then
      if |w.waiting| >= MAX_WAITING then Tell(w, Failed(id, None)) else w.(waiting := w.waiting + [(id, sdp)])
    else if !ValidPeerId(id) then Tell(w, Failed(id, None))
    else Send(SetPeer(w, id, NewPeer(w.nextSerial)).(nextSerial := w.nextSerial + 1), AddPeer(id, sdp))
  }

  function AddAll(w: State, viewers: seq<(Id, string)>): State
    decreases |viewers|
  {
    if viewers == [] then w else AddAll(AddViewer(w, viewers[0].0, viewers[0].1), viewers[1..])
  }

  function Without(waiting: seq<(Id, string)>, id: Id): seq<(Id, string)> {
    if waiting == [] then []
    else (if waiting[0].0 == id then [] else [waiting[0]]) + Without(waiting[1..], id)
  }

  function RemoveViewer(w: State, id: Id, notify: bool, ok: Oracle): State {
    if Waiting(w.waiting, id) then
      var w := w.(waiting := Without(w.waiting, id));
      if notify then Tell(w, Closed(id, None)) else w
    else if id !in w.peers then
      if notify then Tell(w, Closed(id, None)) else w
    else
      var w := SetPeer(w, id, w.peers[id].(notifyClosed := w.peers[id].notifyClosed || notify));
      if w.peers[id].removing then w else BeginRemoval(w, id, ok)
  }

  /** The peer loses its lease and its control at once; it is gone when media-net says so. */
  function BeginRemoval(w: State, id: Id, ok: Oracle): (w': State)
    requires id in w.peers
    ensures w' == w.(peers := w.peers[id := w.peers[id].(control := false, removing := true)],
                     permission := Revoke(w.permission, id), keys := w'.keys, buttons := w'.buttons, posts := w'.posts,
                     commands := w.commands + [ControlState(id, false)] + [RemovePeer(id)])
  {
    var w := RevokePeer(w.(permission := Revoke(w.permission, id)), id, true, ok);
    Send(SetPeer(w, id, w.peers[id].(removing := true)), RemovePeer(id))
  }

  function FailPeer(w: State, id: Id, ok: Oracle): (w': State)
    requires id in w.peers
    ensures w' == w.(peers := w.peers - {id}, permission := Revoke(w.permission, id), keys := w'.keys,
                     buttons := w'.buttons, posts := w'.posts, server := w.server + [Failed(id, Some(w.peers[id].serial))])
  {
    var w := RevokePeer(w.(permission := Revoke(w.permission, id)), id, false, ok);
    Tell(w, Failed(id, Some(w.peers[id].serial))).(peers := w.peers - {id})
  }

  function ClosePeer(w: State, id: Id, ok: Oracle): (w': State)
    requires id in w.peers
    ensures w' == w.(peers := w.peers - {id}, keys := w'.keys, buttons := w'.buttons, posts := w'.posts,
                     server := w.server + if w.peers[id].notifyClosed then [Closed(id, Some(w.peers[id].serial))] else [])
  {
    var w := if w.peers[id].control then ReleaseHeld(w, ok) else w;
    var w' := w.(peers := w.peers - {id});
    if w.peers[id].notifyClosed then Tell(w', Closed(id, Some(w.peers[id].serial))) else w'
  }

  /** A message from media-net, which may send anything at any time. */
  function FromNet(w: State, message: NetMessage, ok: Oracle): State {
    if !w.started then w
    else
      match message
      case NetReady =>
        if w.ready then Stop(w) else AddAll(w.(ready := true, waiting := []), w.waiting)
      case NetAnswer(id, sdp) =>
        if id in w.peers && !w.peers[id].removing && !w.peers[id].answered && 0 < |sdp| <= MAX_SDP then
          Tell(SetPeer(w, id, w.peers[id].(answered := true)), Answered(id, w.peers[id].serial, sdp))
        else w
      case NetFailed(id) =>
        if id in w.peers && !w.peers[id].removing then FailPeer(w, id, ok) else w
      case NetClosed(id) =>
        if id in w.peers then ClosePeer(w, id, ok) else w
      case ChannelClosed(id) =>
        if id in w.peers then RevokePeer(w, id, false, ok) else w
      case NetOther => w
      case NetFatal => Stop(w)
  }

  // ---- Runs

  /** Everything that can happen to the worker; the times are clock readings in microseconds. */
  datatype Event =
    | Start(video: bool) | Add(id: Id, sdp: string) | Remove(id: Id)
    | PermitEvent(id: Id, allow: bool, leaseMs: real, t0: int, t1: int)
    | Net(message: NetMessage)
    | InputEvent(id: Id, text: ViewerMessage, display: bool, t0: int, t1: int, t2: int)
    | Tick(display: bool, t0: int)
    | Fatal // an invalid command, a pipe that ended or filled up, a pipeline error
    | Exit  // leaving the main loop: session() lifts what is held

  ghost function Apply(w: State, e: Event, ok: Oracle): State {
    if w.stopped then (if e.Exit? then ReleaseHeld(w, ok) else w)
    else
      match e
      case Start(video) =>
        if w.started then Stop(w) else Send(w.(started := true, videoEnabled := video), Configure)
      case Add(id, sdp) => if 1 <= |id| <= 64 then AddViewer(w, id, sdp) else Stop(w)
      case Remove(id) =>
        if 1 <= |id| <= 64 then RemoveViewer(Tell(w, RemoveAsked(id)), id, true, ok) else Stop(w)
      case PermitEvent(id, allow, leaseMs, t0, t1) => Permit(w, id, allow, leaseMs, t0, t1, ok)
      case Net(message) => FromNet(w, message, ok)
      case InputEvent(id, text, display, t0, t1, t2) => InputMessage(w, id, text, display, t0, t1, t2, ok)
      case Tick(display, t0) => if !display then Stop(ReleaseHeld(w, ok)) else Enforce(w, t0, ok)
      case Fatal => Stop(w)
      case Exit => Stop(ReleaseHeld(w, ok))
  }

  ghost function Run(events: seq<Event>, ok: Oracle): State {
    if events == [] then INITIAL else Apply(Run(events[..|events| - 1], ok), events[|events| - 1], ok)
  }

  /** The times an event reads the clock, in order. */
  function Times(e: Event): seq<int> {
    match e
    case PermitEvent(_, _, _, t0, t1) => [t0, t1]
    case InputEvent(_, _, _, t0, t1, t2) => [t0, t1, t2]
    case Tick(_, t0) => [t0]
    case _ => []
  }

  predicate Nondecreasing(times: seq<int>) {
    forall i, j :: 0 <= i < j < |times| ==> times[i] <= times[j]
  }

  /** All clock readings of a run, in order. */
  function AllTimes(events: seq<Event>): seq<int> {
    if events == [] then [] else AllTimes(events[..|events| - 1]) + Times(events[|events| - 1])
  }

  /** The clock is monotonic and starts at or after zero. */
  predicate WellTimed(events: seq<Event>) {
    Nondecreasing([0] + AllTimes(events))
  }
}
