/** What the server is told about each viewer's id, when it never uses an id twice. */
module ViewerAnswers {
  import opened Bytes
  import opened Permission
  import opened Worker
  import L = WorkerLife
  import V = ViewerReports
  import P = Protocol

  /** The worker knows nothing of this id: no peer has it, and no viewer that waits. */
  predicate Unknown(w: State, id: Id) {
    id !in w.peers && !Waiting(w.waiting, id)
  }

  predicate Distinct(viewers: seq<(Id, string)>) {
    forall i, j :: 0 <= i < j < |viewers| ==> viewers[i].0 != viewers[j].0
  }

  predicate AnswersId(e: ServerEvent, id: Id) {
    e.Answered? && e.id == id
  }

  predicate EndsId(e: ServerEvent, id: Id) {
    (e.Failed? || e.Closed?) && e.id == id
  }

  /** What an event adds to the exchange: an answer comes alone, to a peer that had none. */
  ghost predicate Reports(w: State, w': State) {
    && w.server <= w'.server
    && (forall k :: |w.server| <= k < |w'.server| && w'.server[k].Answered? ==>
          k == |w.server| && |w'.server| == k + 1 && FirstAnswer(w, w', w'.server[k].id))
    && (forall k :: |w.server| <= k < |w'.server| && (w'.server[k].Failed? || w'.server[k].Closed?) ==>
          Unknown(w', w'.server[k].id))
  }

  predicate FirstAnswer(w: State, w': State, id: Id) {
    id in w.peers && !w.peers[id].answered && id in w'.peers && w'.peers[id].answered
  }

  /** Who is known stays known until its end, and answered until then; nobody but `added` is new. */
  ghost predicate Follows(w: State, w': State, added: set<Id>) {
    && (forall id :: id !in added && Unknown(w, id) ==> Unknown(w', id))
    && (forall id :: id in w.peers && id in w'.peers && w.peers[id].answered ==> w'.peers[id].answered)
    && (forall id :: id in w.peers ==> !Waiting(w'.waiting, id))
    && Distinct(w'.waiting)
  }

  /** Those who wait are no peers yet, and wait once. */
  predicate WaitInv(w: State) {
    Distinct(w.waiting) && V.WaitingFirst(w)
  }

  lemma WaitersAreNoPeers(w: State)
    requires WaitInv(w)
    ensures forall id :: id in w.peers ==> !Waiting(w.waiting, id)
  {
  }

  // ---- Adding

  lemma AddReports(w: State, id: Id, sdp: string)
    requires WaitInv(w) && Unknown(w, id)
    ensures Reports(w, AddViewer(w, id, sdp)) && Follows(w, AddViewer(w, id, sdp), {id})
  {
    hide ValidPeerId;
    var w' := AddViewer(w, id, sdp);
    forall i, j | 0 <= i < j < |w'.waiting| ensures w'.waiting[i].0 != w'.waiting[j].0 {
      assert w'.waiting[i] == w.waiting[i];
    }
    forall other | Waiting(w'.waiting, other) ensures other == id || Waiting(w.waiting, other) {
      var k :| 0 <= k < |w'.waiting| && w'.waiting[k].0 == other;
      assert k == |w.waiting| || w'.waiting[k] == w.waiting[k];
    }
  }

  /** Everyone who waited is added or refused, once. */
  lemma {:induction false} AddAllReports(w: State, viewers: seq<(Id, string)>)
    requires w.ready && w.waiting == [] && Distinct(viewers)
    requires forall i :: 0 <= i < |viewers| ==> viewers[i].0 !in w.peers
    ensures var w' := AddAll(w, viewers);
      && w.server <= w'.server && w'.waiting == []
      && (forall id :: id in w.peers ==> id in w'.peers && w'.peers[id] == w.peers[id])
      && (forall id :: id in w'.peers ==> id in w.peers || Waiting(viewers, id))
      && (forall k :: |w.server| <= k < |w'.server| ==>
            w'.server[k].Failed? && w'.server[k].id !in w'.peers && Waiting(viewers, w'.server[k].id))
    decreases |viewers|
  {
    hide ValidPeerId;
    if viewers != [] {
      var id, rest := viewers[0].0, viewers[1..];
      var w1, w' := AddViewer(w, id, viewers[0].1), AddAll(w, viewers);
      forall i | 0 <= i < |rest| ensures rest[i].0 !in w1.peers {
        assert rest[i] == viewers[i + 1];
      }
      AddAllReports(w1, rest);
      assert Waiting(viewers, id);
      forall other | Waiting(rest, other) ensures Waiting(viewers, other) && other != id {
        var k :| 0 <= k < |rest| && rest[k].0 == other;
        assert viewers[k + 1].0 == other;
      }
      forall k | |w.server| <= k < |w'.server|
        ensures w'.server[k].Failed? && w'.server[k].id !in w'.peers && Waiting(viewers, w'.server[k].id)
      {
        if k < |w1.server| {
          assert w'.server[k] == w1.server[k] == Failed(id, None);
        }
      }
    }
  }

  lemma ReadyReports(w: State, ok: Oracle)
    requires WaitInv(w)
    ensures Reports(w, FromNet(w, NetReady, ok)) && Follows(w, FromNet(w, NetReady, ok), {})
  {
    hide AddAll;
    WaitersAreNoPeers(w);
    var w' := FromNet(w, NetReady, ok);
    if w.started && !w.ready {
      AddAllReports(w.(ready := true, waiting := []), w.waiting);
      forall k | |w.server| <= k < |w'.server| ensures w'.server[k].Failed? && Unknown(w', w'.server[k].id) {
        assert w'.server[k].id !in w'.peers;
      }
    } else {
      assert w'.server == w.server;
    }
  }

  // ---- Removing and reporting

  lemma {:induction false} WithoutIt(waiting: seq<(Id, string)>, id: Id)
    requires Distinct(waiting)
    ensures !Waiting(Without(waiting, id), id) && Distinct(Without(waiting, id))
    ensures forall other :: Waiting(Without(waiting, id), other) ==> Waiting(waiting, other)
  {
    if waiting != [] {
      var rest := Without(waiting[1..], id);
      WithoutIt(waiting[1..], id);
      forall other | Waiting(waiting[1..], other) ensures Waiting(waiting, other) && other != waiting[0].0 {
        var k :| 0 <= k < |waiting[1..]| && waiting[1..][k].0 == other;
        assert waiting[k + 1].0 == other;
      }
      forall other | Waiting(Without(waiting, id), other) ensures Waiting(waiting, other) && other != id {
        var k :| 0 <= k < |Without(waiting, id)| && Without(waiting, id)[k].0 == other;
        if Without(waiting, id)[k] == waiting[0] && waiting[0].0 != id {
          assert waiting[0].0 == other;
        } else {
          assert Waiting(rest, other);
        }
      }
      FirstIsNew(waiting, rest);
    }
  }

  lemma FirstIsNew(waiting: seq<(Id, string)>, rest: seq<(Id, string)>)
    requires waiting != [] && Distinct(rest) && !Waiting(rest, waiting[0].0)
    ensures Distinct([waiting[0]] + rest)
  {
    forall j | 0 <= j < |rest| ensures rest[j].0 != waiting[0].0 {
      assert !Waiting(rest, waiting[0].0);
    }
  }

  lemma RemoveReports(w: State, id: Id, ok: Oracle)
    requires WaitInv(w)
    ensures var w' := RemoveViewer(Tell(w, RemoveAsked(id)), id, true, ok); Reports(w, w') && Follows(w, w', {})
  {
    hide Waiting, Without, RemoveViewer, Reports;
    WaitersAreNoPeers(w);
    WithoutIt(w.waiting, id);
    var w' := RemoveViewer(Tell(w, RemoveAsked(id)), id, true, ok);
    if id in w.peers {
      V.RemovalNoted(w, id, ok);
      RemovalReports(w, w', id);
    } else {
      assert w'.server == w.server + [RemoveAsked(id)] + [Closed(id, None)] && w'.peers == w.peers
        && w'.waiting == if Waiting(w.waiting, id) then Without(w.waiting, id) else w.waiting by { AbsentRemoved(w, id, ok); }
      RemovalReports(w, w', id);
    }
  }

  lemma AbsentRemoved(w: State, id: Id, ok: Oracle)
    requires id !in w.peers
    ensures var w' := RemoveViewer(Tell(w, RemoveAsked(id)), id, true, ok);
      && w'.server == w.server + [RemoveAsked(id)] + [Closed(id, None)] && w'.peers == w.peers
      && w'.waiting == if Waiting(w.waiting, id) then Without(w.waiting, id) else w.waiting
  {
    hide Waiting, Without;
  }

  lemma RemovalReports(w: State, w': State, id: Id)
    requires w'.server == w.server + [RemoveAsked(id)]
          || (w'.server == w.server + [RemoveAsked(id)] + [Closed(id, None)] && Unknown(w', id))
    ensures Reports(w, w')
  {
    hide Unknown;
    forall k | |w.server| <= k < |w'.server|
      ensures w'.server[k] == RemoveAsked(id) || (w'.server[k] == Closed(id, None) && Unknown(w', id))
    {
      assert k == |w.server| || k == |w.server| + 1;
    }
  }

  lemma NetReports(w: State, message: NetMessage, ok: Oracle)
    requires WaitInv(w) && (message.NetAnswer? || message.NetFailed? || message.NetClosed?)
    ensures Reports(w, FromNet(w, message, ok)) && Follows(w, FromNet(w, message, ok), {})
  {
    hide Waiting, FailPeer, ClosePeer;
    WaitersAreNoPeers(w);
  }

  lemma SilentReports(w: State, w': State)
    requires WaitInv(w) && L.Silent(w, w')
    ensures Reports(w, w') && Follows(w, w', {})
  {
    hide Waiting, L.OnlyChatter;
    WaitersAreNoPeers(w);
    forall id ensures id in w.peers <==> id in w'.peers {
      assert id in w.peers.Keys <==> id in w'.peers.Keys;
    }
  }

  function Adds(e: Event): set<Id> {
    if e.Add? then {e.id} else {}
  }

  lemma EventReports(w: State, e: Event, ok: Oracle)
    requires WaitInv(w) && (e.Add? ==> Unknown(w, e.id))
    ensures Reports(w, Apply(w, e, ok)) && Follows(w, Apply(w, e, ok), Adds(e))
  {
    hide Reports, Follows, WaitInv, Unknown, L.Silent, FromNet, RemoveViewer, AddViewer, ReleaseHeld;
    if w.stopped || !L.Lively(e) {
      V.StoppedIsSilent(w, e, ok);
      SilentReports(w, Apply(w, e, ok));
      FollowsMore(w, Apply(w, e, ok), Adds(e));
    } else {
      V.SilentStop(w);
      SilentReports(w, Stop(w));
      FollowsMore(w, Stop(w), Adds(e));
      match e
      case Start(video) => StartReports(w, video);
      case Add(id, sdp) => AddReports(w, id, sdp);
      case Remove(id) => RemoveReports(w, id, ok);
      case Net(message) =>
        if message.NetReady? { ReadyReports(w, ok); } else { NetReports(w, message, ok); }
    }
  }

  lemma FollowsMore(w: State, w': State, added: set<Id>)
    requires Follows(w, w', {})
    ensures Follows(w, w', added)
  {
  }

  lemma StartReports(w: State, video: bool)
    requires WaitInv(w)
    ensures var w' := Send(w.(started := true, videoEnabled := video), Configure); Reports(w, w') && Follows(w, w', {})
  {
    hide Waiting;
    WaitersAreNoPeers(w);
  }

  // ---- Runs of the two processes

  /** The id has been used, and its viewer has been refused, has failed or is gone. */
  predicate Over(s: P.System, id: Id) {
    id in s.used && Unknown(s.w, id)
  }

  /** An answer was given to a peer that is still there, answered, or to one that is over. */
  ghost predicate Answered1(s: P.System) {
    Distinct(s.w.waiting)
    && forall k, id :: 0 <= k < |s.w.server| && AnswersId(s.w.server[k], id) ==>
         id in s.used && !Waiting(s.w.waiting, id) && (id in s.w.peers ==> s.w.peers[id].answered)
  }

  lemma UsedMeans(s: P.System)
    requires P.Inv(s) && !s.w.stopped
    ensures V.WaitingFirst(s.w) && forall id :: id !in s.used ==> Unknown(s.w, id)
  {
    hide P.Views, P.ReadyInv, V.Told, V.RemovalsReported, V.Balanced, Waiting;
  }

  /** What a step of the system is to the worker: one event, or nothing. */
  lemma StepReports(s: P.System, step: P.Step, ok: Oracle)
    requires P.Inv(s) && !s.w.stopped && Distinct(s.w.waiting)
    ensures var s' := P.Apply(s, step, ok);
      && Reports(s.w, s'.w) && Follows(s.w, s'.w, s'.used - s.used) && s.used <= s'.used
  {
    hide P.Inv, Reports, Follows, Unknown, Apply, P.M.Apply;
    UsedMeans(s);
    SilentReports(s.w, s.w) by { L.SilentItself(s.w); }
    assert s.used - s.used == {};
    match step
    case Server(e) =>
      if !e.Net? && !(e.Add? && e.id in s.used) {
        EventReports(s.w, e, ok);
        assert Adds(e) == P.Apply(s, step, ok).used - s.used;
      }
    case Hear =>
      if s.w.started && s.heard < |s.n.out| {
        EventReports(s.w, Net(s.n.out[s.heard].message), ok);
      }
    case _ =>
  }

  lemma {:induction false} AnsweredAlways(steps: seq<P.Step>, ok: Oracle)
    ensures Answered1(P.Run(steps, ok))
  {
    hide P.Inv, P.Apply;
    if steps != [] {
      var last := |steps| - 1;
      AnsweredAlways(steps[..last], ok);
      P.InvAlways(steps[..last], ok);
      KeepAnswered(P.Run(steps[..last], ok), steps[last], ok);
    }
  }

  lemma KeepAnswered(s: P.System, step: P.Step, ok: Oracle)
    requires P.Inv(s) && Answered1(s)
    ensures Answered1(P.Apply(s, step, ok))
  {
    hide P.Inv, P.Apply, Waiting, Distinct;
    if s.w.stopped {
      StoppedApply(s, step, ok);
      return;
    }
    StepReports(s, step, ok);
    var s' := P.Apply(s, step, ok);
    UsedMeans(s);
    forall k, id | 0 <= k < |s'.w.server| && AnswersId(s'.w.server[k], id)
      ensures id in s'.used && !Waiting(s'.w.waiting, id) && (id in s'.w.peers ==> s'.w.peers[id].answered)
    {
      if k < |s.w.server| {
        assert s'.w.server[k] == s.w.server[k];
      }
    }
  }

  lemma StoppedApply(s: P.System, step: P.Step, ok: Oracle)
    requires s.w.stopped
    ensures P.Apply(s, step, ok) == s
  {
  }

  lemma AnswerIsNew(w: State, w': State, k: nat, id: Id)
    requires Reports(w, w') && |w.server| <= k < |w'.server| && AnswersId(w'.server[k], id)
    ensures k == |w.server| && id in w.peers && !w.peers[id].answered
  {
  }

  // ---- The results

  /** The server gets at most one answer for an id. */
  lemma {:induction false} AnsweredOnce(steps: seq<P.Step>, ok: Oracle, i: nat, j: nat, id: Id)
    requires i < j < |P.Run(steps, ok).w.server|
    ensures var server := P.Run(steps, ok).w.server; !(AnswersId(server[i], id) && AnswersId(server[j], id))
  {
    hide P.Inv, P.Apply, Distinct, Waiting;
    if steps != [] {
      var last := |steps| - 1;
      var s, s' := P.Run(steps[..last], ok), P.Run(steps, ok);
      P.InvAlways(steps[..last], ok);
      AnsweredAlways(steps[..last], ok);
      if s.w.stopped {
        StoppedApply(s, steps[last], ok);
        AnsweredOnce(steps[..last], ok, i, j, id);
        return;
      }
      StepReports(s, steps[last], ok);
      assert s' == P.Apply(s, steps[last], ok) && Reports(s.w, s'.w);
      if j < |s.w.server| {
        AnsweredOnce(steps[..last], ok, i, j, id);
      } else if AnswersId(s'.w.server[j], id) {
        AnswerIsNew(s.w, s'.w, j, id);
        assert !AnswersId(s.w.server[i], id);
      }
    }
  }

  /** Once over, an id is never answered again. */
  lemma {:induction false} OverStays(steps: seq<P.Step>, ok: Oracle, n: nat, id: Id)
    requires n <= |steps| && Over(P.Run(steps[..n], ok), id)
    ensures var s, s0 := P.Run(steps, ok), P.Run(steps[..n], ok);
      && Over(s, id) && s0.w.server <= s.w.server
      && forall k :: |s0.w.server| <= k < |s.w.server| ==> !AnswersId(s.w.server[k], id)
  {
    hide P.Inv, P.Apply, Distinct;
    if n < |steps| {
      var last := |steps| - 1;
      assert steps[..last][..n] == steps[..n];
      OverStays(steps[..last], ok, n, id);
      var s := P.Run(steps[..last], ok);
      P.InvAlways(steps[..last], ok);
      AnsweredAlways(steps[..last], ok);
      if s.w.stopped {
        StoppedApply(s, steps[last], ok);
      } else {
        StepReports(s, steps[last], ok);
      }
    } else {
      assert steps[..n] == steps;
    }
  }

  /**
   After a step in which the server was told that a viewer failed or was closed, its id having been
   added by then, it never gets an answer for it.
   */
  lemma NoAnswerAfterEnd(steps: seq<P.Step>, ok: Oracle, n: nat, i: nat, j: nat, id: Id)
    requires n < |steps| && id in P.Run(steps[..n + 1], ok).used
    requires |P.Run(steps[..n], ok).w.server| <= i < |P.Run(steps[..n + 1], ok).w.server|
    requires EndsId(P.Run(steps[..n + 1], ok).w.server[i], id)
    requires i < j < |P.Run(steps, ok).w.server|
    ensures !AnswersId(P.Run(steps, ok).w.server[j], id)
  {
    hide P.Inv, P.Apply, Distinct;
    var s, s1 := P.Run(steps[..n], ok), P.Run(steps[..n + 1], ok);
    assert steps[..n + 1][..n] == steps[..n];
    P.InvAlways(steps[..n], ok);
    AnsweredAlways(steps[..n], ok);
    if s.w.stopped {
      StoppedApply(s, steps[n], ok);
    } else {
      StepReports(s, steps[n], ok);
      OverStays(steps, ok, n + 1, id);
      if j < |s1.w.server| {
        assert P.Run(steps, ok).w.server[j] == s1.w.server[j];
      }
    }
  }
}
