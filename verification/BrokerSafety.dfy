/** One controller, exact held state and no stuck keys, in every run of the worker. */
module BrokerSafety {
  import opened Bytes
  import opened Permission
  import opened Worker

  /** A peer with control is not being removed and is the lease's owner. */
  predicate SingleControl(w: State) {
    forall id :: id in w.peers && w.peers[id].control ==> !w.peers[id].removing && w.permission.owner == id
  }

  /** What is left of it between a change of the lease and its enforcement. */
  predicate OneControl(w: State) {
    && (forall id :: id in w.peers && w.peers[id].control ==> !w.peers[id].removing)
    && forall a, b :: a in w.peers && b in w.peers && w.peers[a].control && w.peers[b].control ==> a == b
  }

  predicate NoControl(w: State) {
    forall id :: id in w.peers ==> !w.peers[id].control
  }

  /** Was the last successful post of this key a "down"? */
  predicate KeyDown(posts: seq<Post>, code: int) {
    if posts == [] then false
    else
      var last := posts[|posts| - 1];
      if last.ok && last.input.Key? && last.input.code == code then last.input.down
      else KeyDown(posts[..|posts| - 1], code)
  }

  predicate ButtonDown(posts: seq<Post>, button: int) {
    if posts == [] then false
    else
      var last := posts[|posts| - 1];
      if last.ok && last.input.Button? && last.input.button == button then last.input.down
      else ButtonDown(posts[..|posts| - 1], button)
  }

  ghost predicate HeldExact(posts: seq<Post>, keys: set<int>, buttons: set<int>) {
    && (forall code :: code in keys <==> KeyDown(posts, code))
    && (forall button :: button in buttons <==> ButtonDown(posts, button))
    && LiftsNeeded(posts)
  }

  /** Only what is down is lifted. */
  predicate LiftsNeeded(posts: seq<Post>) {
    forall k :: 0 <= k < |posts| && posts[k].origin == Lift ==> Lifts(posts[k].input, posts[..k])
  }

  predicate Lifts(input: Input, posts: seq<Post>) {
    match input
    case Key(code, down) => !down && KeyDown(posts, code)
    case Button(button, down) => !down && ButtonDown(posts, button)
    case _ => false
  }

  /** No attempt to lift a key or button has failed. */
  predicate LiftsWork(posts: seq<Post>) {
    forall i :: 0 <= i < |posts| && posts[i].origin == Lift ==> posts[i].ok
  }

  predicate NothingHeld(w: State) {
    w.keys == {} && w.buttons == {}
  }

  ghost predicate Lifted(w: State) {
    LiftsWork(w.posts) && NoControl(w) ==> NothingHeld(w)
  }

  ghost predicate Inv(w: State) {
    SingleControl(w) && HeldExact(w.posts, w.keys, w.buttons) && Lifted(w)
  }

  // ---- Posting

  lemma KeepHeld(w: State, input: Input, origin: Origin, ok: Oracle)
    requires HeldExact(w.posts, w.keys, w.buttons) && (origin == Lift ==> Lifts(input, w.posts))
    ensures var w' := PostInput(w, input, origin, ok); HeldExact(w'.posts, w'.keys, w'.buttons)
  {
    var post := Post(input, ok(|w.posts|), origin);
    forall code {
      PostedDown(w.posts, post, code);
    }
    hide KeyDown, ButtonDown;
    LiftsNeededMore(w.posts, post);
  }

  lemma LiftsNeededMore(posts: seq<Post>, post: Post)
    requires LiftsNeeded(posts) && (post.origin == Lift ==> Lifts(post.input, posts))
    ensures LiftsNeeded(posts + [post])
  {
    hide Lifts;
    var all := posts + [post];
    forall k | 0 <= k < |all| && all[k].origin == Lift ensures Lifts(all[k].input, all[..k]) {
      assert all[..k] == if k < |posts| then posts[..k] else posts;
    }
  }

  lemma PostedDown(posts: seq<Post>, post: Post, code: int)
    ensures KeyDown(posts + [post], code) ==
            if post.ok && post.input.Key? && post.input.code == code then post.input.down else KeyDown(posts, code)
    ensures ButtonDown(posts + [post], code) ==
            if post.ok && post.input.Button? && post.input.button == code then post.input.down else ButtonDown(posts, code)
  {
    assert (posts + [post])[..|posts|] == posts;
  }

  lemma LiftsWorkPrefix(a: seq<Post>, b: seq<Post>)
    requires a <= b && LiftsWork(b)
    ensures LiftsWork(a)
  {
    forall i | 0 <= i < |a| && a[i].origin == Lift ensures a[i].ok {
      assert b[i] == a[i];
    }
  }

  lemma {:induction false} LiftKeysEffect(w: State, pending: set<int>, ok: Oracle)
    requires HeldExact(w.posts, w.keys, w.buttons) && pending <= w.keys
    ensures var w' := LiftKeys(w, pending, ok);
      && HeldExact(w'.posts, w'.keys, w'.buttons) && w.posts <= w'.posts
      && w'.keys <= w.keys && (LiftsWork(w'.posts) ==> w'.keys == w.keys - pending)
    decreases |pending|
  {
    if pending != {} {
      var k := Least(pending);
      var w1 := PostInput(w, Key(k, false), Lift, ok);
      KeepHeld(w, Key(k, false), Lift, ok);
      LiftKeysEffect(w1, pending - {k}, ok);
      var w' := LiftKeys(w, pending, ok);
      if LiftsWork(w'.posts) {
        assert w'.posts[|w.posts|] == Post(Key(k, false), ok(|w.posts|), Lift);
      }
    }
  }

  lemma {:induction false} LiftButtonsEffect(w: State, pending: set<int>, ok: Oracle)
    requires HeldExact(w.posts, w.keys, w.buttons) && pending <= w.buttons
    ensures var w' := LiftButtons(w, pending, ok);
      && HeldExact(w'.posts, w'.keys, w'.buttons) && w.posts <= w'.posts
      && w'.buttons <= w.buttons && (LiftsWork(w'.posts) ==> w'.buttons == w.buttons - pending)
    decreases |pending|
  {
    if pending != {} {
      var k := Least(pending);
      var w1 := PostInput(w, Button(k, false), Lift, ok);
      KeepHeld(w, Button(k, false), Lift, ok);
      LiftButtonsEffect(w1, pending - {k}, ok);
      var w' := LiftButtons(w, pending, ok);
      if LiftsWork(w'.posts) {
        assert w'.posts[|w.posts|] == Post(Button(k, false), ok(|w.posts|), Lift);
      }
    }
  }

  /** Lifting keeps the held sets exact and, if every lift succeeds, empties them. */
  lemma ReleaseEffect(w: State, ok: Oracle)
    requires HeldExact(w.posts, w.keys, w.buttons)
    ensures var w' := ReleaseHeld(w, ok);
      && HeldExact(w'.posts, w'.keys, w'.buttons) && w.posts <= w'.posts
      && (LiftsWork(w'.posts) ==> NothingHeld(w'))
  {
    hide LiftKeys, LiftButtons, HeldExact;
    var w1 := LiftKeys(w, w.keys, ok);
    LiftKeysEffect(w, w.keys, ok);
    LiftButtonsEffect(w1, w1.buttons, ok);
    if LiftsWork(ReleaseHeld(w, ok).posts) {
      LiftsWorkPrefix(w1.posts, ReleaseHeld(w, ok).posts);
    }
  }

  lemma KeepRelease(w: State, ok: Oracle)
    requires Inv(w)
    ensures Inv(ReleaseHeld(w, ok))
  {
    hide HeldExact, ReleaseHeld;
    ReleaseEffect(w, ok);
  }

  /** Changing anything about the peers but who has control. */
  lemma KeepLifted(w: State, w': State)
    requires Lifted(w) && w'.posts == w.posts && w'.keys == w.keys && w'.buttons == w.buttons
    requires forall id :: id in w.peers && w.peers[id].control ==> id in w'.peers && w'.peers[id].control
    ensures Lifted(w')
  {
    if NoControl(w') {
      forall id | id in w.peers ensures !w.peers[id].control {
        assert id in w'.peers || !w.peers[id].control;
      }
    }
  }

  // ---- Control

  /** Taking control away lifts what is held, whatever the lease says. */
  lemma RevokeEffect(w: State, id: Id, notify: bool, ok: Oracle)
    requires id in w.peers && OneControl(w) && HeldExact(w.posts, w.keys, w.buttons) && Lifted(w)
    ensures var w' := RevokePeer(w, id, notify, ok);
      && HeldExact(w'.posts, w'.keys, w'.buttons) && Lifted(w') && w.posts <= w'.posts
      && OneControl(w') && (w.peers[id].control ==> NoControl(w'))
  {
    hide HeldExact, RevokePeer, LiftsWork, Lifted, OneControl;
    RevokeControl(w, id, notify, ok);
    RevokeLifts(w, id, notify, ok);
    if !w.peers[id].control {
      LiftedLike(w, RevokePeer(w, id, notify, ok));
    }
  }

  lemma LiftedLike(w: State, w': State)
    requires Lifted(w) && w'.posts == w.posts && w'.keys == w.keys && w'.buttons == w.buttons
    requires NoControl(w') ==> NoControl(w)
    ensures Lifted(w')
  {
  }

  lemma RevokeControl(w: State, id: Id, notify: bool, ok: Oracle)
    requires id in w.peers && OneControl(w)
    ensures var w' := RevokePeer(w, id, notify, ok);
      && OneControl(w') && (if w.peers[id].control then NoControl(w') else NoControl(w') ==> NoControl(w))
  {
    hide RevokePeer;
    var w' := RevokePeer(w, id, notify, ok);
    assert forall other :: other in w.peers ==> w'.peers[other].control == (other != id && w.peers[other].control);
  }

  lemma RevokeLifts(w: State, id: Id, notify: bool, ok: Oracle)
    requires id in w.peers && HeldExact(w.posts, w.keys, w.buttons)
    ensures var w' := RevokePeer(w, id, notify, ok);
      && HeldExact(w'.posts, w'.keys, w'.buttons) && w.posts <= w'.posts
      && (w.peers[id].control ==> Lifted(w'))
  {
    hide HeldExact, ReleaseHeld, LiftsWork;
    if w.peers[id].control {
      ReleaseEffect(w, ok);
    }
  }

  /** Only control that the lease does not cover is taken away by a change of the lease. */
  lemma SingleIsOne(w: State)
    requires SingleControl(w)
    ensures OneControl(w)
  {
  }

  lemma KeepRevoke(w: State, permission: Permission, id: Id, notify: bool, ok: Oracle)
    requires Inv(w) && id in w.peers && (permission == w.permission || permission == Revoke(w.permission, id))
    ensures Inv(RevokePeer(w.(permission := permission), id, notify, ok))
    ensures w.posts <= RevokePeer(w.(permission := permission), id, notify, ok).posts
  {
    hide HeldExact, RevokePeer;
    SingleIsOne(w);
    RevokeEffect(w.(permission := permission), id, notify, ok);
  }

  lemma KeepRevokeOnly(w: State, id: Id, notify: bool, ok: Oracle)
    requires Inv(w) && id in w.peers
    ensures Inv(RevokePeer(w, id, notify, ok))
  {
    hide HeldExact, RevokePeer;
    assert w.(permission := w.permission) == w;
    KeepRevoke(w, w.permission, id, notify, ok);
  }

  /** After enforcing, control is back with the owner alone. */
  lemma KeepEnforce(w: State, now: int, ok: Oracle)
    requires OneControl(w) && HeldExact(w.posts, w.keys, w.buttons) && Lifted(w)
    ensures Inv(Enforce(w, now, ok))
  {
    hide HeldExact, RevokePeer;
    if id :| MustRevoke(w, id, now) {
      RevokeEffect(w, id, true, ok);
      forall other | MustRevoke(w, other, now) ensures other == id {
      }
      assert Enforce(w, now, ok) == RevokePeer(w, id, true, ok);
    } else {
      forall id | id in w.peers && w.peers[id].control ensures w.permission.owner == id {
        assert !MustRevoke(w, id, now);
      }
    }
  }

  lemma KeepPermit(w: State, id: Id, allow: bool, leaseMs: real, t0: int, t1: int, ok: Oracle)
    requires Inv(w)
    ensures Inv(Permit(w, id, allow, leaseMs, t0, t1, ok))
  {
    hide Inv, Enforce, Leased, ReleaseHeld, HeldExact, Lifted, OneControl;
    if !ValidPermit(id, leaseMs) {
      KeepRelease(w, ok);
      KeepStop(w, ok);
    } else {
      LeasedEffect(w, id, allow, t0 / 1000, leaseMs.Floor, ok);
      KeepEnforce(Leased(w, id, allow, t0 / 1000, leaseMs.Floor, ok), t1, ok);
    }
  }

  /** A change of the lease leaves one controller at most, who may now be without one. */
  lemma LeasedEffect(w: State, id: Id, allow: bool, now: int, duration: int, ok: Oracle)
    requires Inv(w)
    ensures var w' := Leased(w, id, allow, now, duration, ok);
      OneControl(w') && HeldExact(w'.posts, w'.keys, w'.buttons) && Lifted(w')
  {
    hide HeldExact, RevokePeer, Grant, LiftsWork;
    SingleIsOne(w);
    if !allow && id in w.peers {
      RevokeEffect(w.(permission := Revoke(w.permission, id)), id, true, ok);
    }
  }

  lemma KeepHandle(w: State, id: Id, message: ViewerMessage, t0: int, t1: int, t2: int, ok: Oracle)
    requires Inv(w) && id in w.peers && !w.peers[id].removing
    ensures Inv(Handle(w, id, message, t0, t1, t2, ok))
  {
    hide HeldExact, RevokePeer, Perform, TakeControl, LeaseChecked;
    var w1 := KeepLeaseChecked(w, id, t0, ok);
    match message
    case Unparsed =>
    case Ping => KeepLifted(w1, SetPeer(w1, id, w1.peers[id].(lastPing := t1)));
    case ReleaseAll => KeepRevokeOnly(w1, id, false, ok);
    case Control(enabled) => KeepTakeControl(w1, id, enabled, t1, t2, ok);
    case Act(input) => KeepPerform(w1, id, input, t0, t1, ok);
  }

  lemma KeepLeaseChecked(w: State, id: Id, t0: int, ok: Oracle) returns (w': State)
    requires Inv(w) && id in w.peers && !w.peers[id].removing
    ensures w' == LeaseChecked(w, id, t0, ok)
    ensures Inv(w') && id in w'.peers && !w'.peers[id].removing
  {
    hide HeldExact, RevokePeer;
    w' := LeaseChecked(w, id, t0, ok);
    KeepRevokeOnly(w, id, false, ok);
  }

  lemma KeepTakeControl(w: State, id: Id, enabled: bool, t1: int, t2: int, ok: Oracle)
    requires Inv(w) && id in w.peers && !w.peers[id].removing
    ensures Inv(TakeControl(w, id, enabled, t1, t2, ok))
  {
    hide HeldExact, RevokePeer;
    KeepRevokeOnly(w, id, false, ok);
  }

  lemma KeepPerform(w: State, id: Id, input: Option<Input>, t0: int, t1: int, ok: Oracle)
    requires Inv(w) && id in w.peers && !w.peers[id].removing
    ensures Inv(Perform(w, id, input, t0, t1, ok))
  {
    hide Inv, RevokePeer, PostInput, Counted;
    if w.peers[id].control {
      var w1 := SetPeer(w, id, Counted(w.peers[id], t1));
      KeepCounted(w, id, t1);
      if w1.peers[id].rateCount > MAX_RATE {
        KeepRevokeOnly(w1, id, false, ok);
      } else if input.Some? {
        KeepPost(w1, id, input.value, Viewer(w1.peers[id].serial, id, t0, t1), ok);
      }
    }
  }

  lemma KeepCounted(w: State, id: Id, now: int)
    requires Inv(w) && id in w.peers && w.peers[id].control
    ensures var w' := SetPeer(w, id, Counted(w.peers[id], now)); Inv(w') && w'.peers[id].control
  {
    hide HeldExact, LiftsWork, NothingHeld;
    KeepLifted(w, SetPeer(w, id, Counted(w.peers[id], now)));
  }

  /** While somebody has control, something may be pressed. */
  lemma KeepPost(w: State, id: Id, input: Input, origin: Origin, ok: Oracle)
    requires Inv(w) && id in w.peers && w.peers[id].control && origin != Lift
    ensures Inv(PostInput(w, input, origin, ok))
  {
    hide HeldExact, PostInput, LiftsWork, NothingHeld;
    KeepHeld(w, input, origin, ok);
    assert PostInput(w, input, origin, ok).peers[id].control;
  }

  // ---- Viewers

  lemma KeepAdd(w: State, id: Id, sdp: string)
    requires Inv(w)
    ensures Inv(AddViewer(w, id, sdp))
  {
    hide HeldExact;
    KeepLifted(w, AddViewer(w, id, sdp));
  }

  lemma {:induction false} KeepAddAll(w: State, viewers: seq<(Id, string)>)
    requires Inv(w)
    ensures Inv(AddAll(w, viewers))
    decreases |viewers|
  {
    hide Inv, AddViewer;
    if viewers != [] {
      KeepAdd(w, viewers[0].0, viewers[0].1);
      KeepAddAll(AddViewer(w, viewers[0].0, viewers[0].1), viewers[1..]);
    }
  }

  lemma KeepRemove(w: State, id: Id, notify: bool, ok: Oracle)
    requires Inv(w)
    ensures Inv(RemoveViewer(w, id, notify, ok))
  {
    hide Inv, RemoveViewer, Waiting;
    if Waiting(w.waiting, id) || id !in w.peers {
      KeepRemoveAbsent(w, id, notify, ok);
    } else {
      KeepRemovePresent(w, id, notify, ok);
    }
  }

  lemma KeepRemoveAbsent(w: State, id: Id, notify: bool, ok: Oracle)
    requires Inv(w) && (Waiting(w.waiting, id) || id !in w.peers)
    ensures Inv(RemoveViewer(w, id, notify, ok))
  {
    hide Inv, Waiting, Without;
    KeepOther(w, RemoveViewer(w, id, notify, ok));
  }

  lemma KeepRemovePresent(w: State, id: Id, notify: bool, ok: Oracle)
    requires Inv(w) && !Waiting(w.waiting, id) && id in w.peers
    ensures Inv(RemoveViewer(w, id, notify, ok))
  {
    hide Inv, BeginRemoval, Waiting, Without;
    var w1 := SetPeer(w, id, w.peers[id].(notifyClosed := w.peers[id].notifyClosed || notify));
    KeepOther(w, w1);
    if !w1.peers[id].removing {
      KeepBeginRemoval(w1, id, ok);
    }
  }

  /** A step that neither posts nor touches the lease, control or removal. */
  lemma KeepOther(w: State, w': State)
    requires Inv(w) && w'.posts == w.posts && w'.keys == w.keys && w'.buttons == w.buttons
    requires w'.permission == w.permission && w'.peers.Keys == w.peers.Keys
    requires forall id :: id in w.peers ==> w'.peers[id].control == w.peers[id].control && w'.peers[id].removing == w.peers[id].removing
    ensures Inv(w')
  {
    hide HeldExact;
    KeepLifted(w, w');
  }

  lemma KeepBeginRemoval(w: State, id: Id, ok: Oracle)
    requires Inv(w) && id in w.peers
    ensures Inv(BeginRemoval(w, id, ok))
  {
    hide HeldExact, RevokePeer;
    KeepRevoke(w, Revoke(w.permission, id), id, true, ok);
    KeepLifted(RevokePeer(w.(permission := Revoke(w.permission, id)), id, true, ok), BeginRemoval(w, id, ok));
  }

  lemma KeepFailPeer(w: State, id: Id, ok: Oracle)
    requires Inv(w) && id in w.peers
    ensures Inv(FailPeer(w, id, ok))
  {
    hide HeldExact, RevokePeer;
    KeepRevoke(w, Revoke(w.permission, id), id, false, ok);
    KeepLifted(RevokePeer(w.(permission := Revoke(w.permission, id)), id, false, ok), FailPeer(w, id, ok));
  }

  lemma KeepClosePeer(w: State, id: Id, ok: Oracle)
    requires Inv(w) && id in w.peers
    ensures Inv(ClosePeer(w, id, ok))
  {
    hide HeldExact, ReleaseHeld;
    if w.peers[id].control {
      ReleaseEffect(w, ok);
    } else {
      KeepLifted(w, ClosePeer(w, id, ok));
    }
  }

  lemma KeepNet(w: State, message: NetMessage, ok: Oracle)
    requires Inv(w)
    ensures Inv(FromNet(w, message, ok))
  {
    hide HeldExact, RevokePeer, AddAll, FailPeer, ClosePeer;
    if !w.started {
      return;
    }
    match message
    case NetReady => KeepAddAll(w.(ready := true, waiting := []), w.waiting);
    case NetAnswer(id, sdp) => KeepLifted(w, FromNet(w, message, ok));
    case NetFailed(id) => if id in w.peers { KeepFailPeer(w, id, ok); }
    case NetClosed(id) => if id in w.peers { KeepClosePeer(w, id, ok); }
    case ChannelClosed(id) => if id in w.peers { KeepRevokeOnly(w, id, false, ok); }
    case NetOther =>
    case NetFatal =>
  }

  lemma KeepStop(w: State, ok: Oracle)
    requires Inv(w)
    ensures Inv(Stop(w)) && Inv(Stop(ReleaseHeld(w, ok)))
  {
    hide Inv, ReleaseHeld;
    KeepRelease(w, ok);
    KeepOther(w, Stop(w));
    KeepOther(ReleaseHeld(w, ok), Stop(ReleaseHeld(w, ok)));
  }

  lemma KeepInput(w: State, id: Id, text: ViewerMessage, display: bool, t0: int, t1: int, t2: int, ok: Oracle)
    requires Inv(w)
    ensures Inv(InputMessage(w, id, text, display, t0, t1, t2, ok))
  {
    hide Inv, ReleaseHeld, Handle;
    KeepStop(w, ok);
    if id in w.peers && !w.peers[id].removing {
      KeepHandle(w, id, text, t0, t1, t2, ok);
      var w1 := if text == Unparsed then w else Handle(w, id, text, t0, t1, t2, ok);
      KeepOther(w1, Send(w1, ControlState(id, w1.peers[id].control)));
    }
  }

  lemma KeepApply(w: State, e: Event, ok: Oracle)
    requires Inv(w)
    ensures Inv(Apply(w, e, ok))
  {
    hide Inv, FromNet, Permit, InputMessage, Enforce, AddViewer, RemoveViewer, ReleaseHeld;
    KeepStop(w, ok);
    KeepRelease(w, ok);
    match e
    case Start(video) => KeepOther(w, Send(w.(started := true, videoEnabled := video), Configure));
    case Add(id, sdp) => KeepAdd(w, id, sdp);
    case Remove(id) =>
      KeepOther(w, Tell(w, RemoveAsked(id)));
      KeepRemove(Tell(w, RemoveAsked(id)), id, true, ok);
    case PermitEvent(id, allow, leaseMs, t0, t1) => KeepPermit(w, id, allow, leaseMs, t0, t1, ok);
    case Net(message) => KeepNet(w, message, ok);
    case InputEvent(id, text, display, t0, t1, t2) => KeepInput(w, id, text, display, t0, t1, t2, ok);
    case Tick(display, t0) => KeepTick(w, t0, ok);
    case Fatal =>
    case Exit =>
  }

  lemma KeepTick(w: State, now: int, ok: Oracle)
    requires Inv(w)
    ensures Inv(Enforce(w, now, ok))
  {
    hide HeldExact, Enforce;
    SingleIsOne(w);
    KeepEnforce(w, now, ok);
  }

  lemma {:induction false} InvAlways(events: seq<Event>, ok: Oracle)
    ensures Inv(Run(events, ok))
  {
    hide Apply;
    if events == [] {
    } else {
      InvAlways(events[..|events| - 1], ok);
      KeepApply(Run(events[..|events| - 1], ok), events[|events| - 1], ok);
    }
  }

  // ---- The results

  /** At most one peer ever has control: the lease's owner, and never one that is being removed. */
  lemma AtMostOneController(events: seq<Event>, ok: Oracle, a: Id, b: Id)
    requires var w := Run(events, ok);
      a in w.peers && b in w.peers && w.peers[a].control && w.peers[b].control
    ensures a == b == Run(events, ok).permission.owner && !Run(events, ok).peers[a].removing
  {
    InvAlways(events, ok);
  }

  /** The held sets are exactly the codes whose last successful post was a "down". */
  lemma HeldIsLastPost(events: seq<Event>, ok: Oracle, code: int)
    ensures var w := Run(events, ok);
      && (code in w.keys <==> KeyDown(w.posts, code))
      && (code in w.buttons <==> ButtonDown(w.posts, code))
  {
    InvAlways(events, ok);
  }

  /** A lift is posted only for what was down, and lets it go. */
  lemma OnlyWhatIsDownIsLifted(events: seq<Event>, ok: Oracle, k: nat)
    requires k < |Run(events, ok).posts| && Run(events, ok).posts[k].origin == Lift
    ensures Lifts(Run(events, ok).posts[k].input, Run(events, ok).posts[..k])
  {
    InvAlways(events, ok);
  }

  /** Unless a lift itself failed, nothing stays pressed once nobody has control. */
  lemma NothingStaysPressed(events: seq<Event>, ok: Oracle)
    requires LiftsWork(Run(events, ok).posts) && NoControl(Run(events, ok))
    ensures forall code :: !KeyDown(Run(events, ok).posts, code) && !ButtonDown(Run(events, ok).posts, code)
  {
    InvAlways(events, ok);
  }
}
