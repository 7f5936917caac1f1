/**
 What becomes of each connection of media-net, said of the commands and callbacks that came for it:
 when it is answered and with what, when it is reported failed, and when it may be reported closed.
 */
module MediaOutcomes {
  import opened Bytes
  import opened Permission
  import opened MediaNet
  import W = Worker

  /** The connection is there, and not on its way out. */
  predicate Live(n: Network, ref: Ref) {
    !n.stopped && Finds(n, ref) && !n.peers[ref.id].removing
  }

  /** The step makes this connection. */
  predicate Makes(n: Network, step: Step, ref: Ref) {
    && !n.stopped && n.ready && n.configured
    && step.CommandStep? && step.command.AddPeer? && step.command.id == ref.id && W.ValidPeerId(ref.id)
    && ref.id !in n.peers && ref.index == n.nextIndex && (step.outcome.Accepted? || step.outcome.LinkFailed?)
  }

  /** The step is gathering that is complete, for a connection that is there. */
  predicate Gathers(n: Network, step: Step, ref: Ref) {
    step.AnswerStep? && step.ref == ref && step.sdp.Some? && Live(n, ref)
  }

  /** The step is a failure of the connection: of its pads when it is made, or of anything later. */
  predicate Breaks(n: Network, step: Step, ref: Ref) {
    (step == FailStep(ref) && Live(n, ref)) || (Makes(n, step, ref) && step.outcome.LinkFailed?)
  }

  /** The step is the worker's removal of a connection that is there. */
  predicate Asks(n: Network, step: Step, ref: Ref) {
    n.ready && step.CommandStep? && step.command == W.RemovePeer(ref.id) && W.ValidPeerId(ref.id) && Live(n, ref)
  }

  /** The step takes down one pad of the connection. */
  predicate Unlinks(n: Network, step: Step, ref: Ref) {
    !n.stopped && step == UnlinkStep(ref) && ref in n.unlinks
  }

  // ---- Over a run

  /** The description that was there when gathering first completed. */
  function Gathered(steps: seq<Step>, ref: Ref): Option<string> {
    if steps == [] then None
    else
      var before, step := steps[..|steps| - 1], steps[|steps| - 1];
      if Gathered(before, ref).Some? then Gathered(before, ref)
      else if Gathers(Run(before), step, ref) then step.sdp
      else None
  }

  function Broke(steps: seq<Step>, ref: Ref): bool {
    steps != [] && (Broke(steps[..|steps| - 1], ref) || Breaks(Run(steps[..|steps| - 1]), steps[|steps| - 1], ref))
  }

  function Asked(steps: seq<Step>, ref: Ref): bool {
    steps != [] && (Asked(steps[..|steps| - 1], ref) || Asks(Run(steps[..|steps| - 1]), steps[|steps| - 1], ref))
  }

  /** The pads with which the connection was made, if it was. */
  function Made(steps: seq<Step>, ref: Ref): Option<Pads> {
    if steps == [] then None
    else
      var before, step := steps[..|steps| - 1], steps[|steps| - 1];
      if Makes(Run(before), step, ref) then Some(step.outcome.pads) else Made(before, ref)
  }

  function UnlinksOf(steps: seq<Step>, ref: Ref): nat {
    if steps == [] then 0
    else
      UnlinksOf(steps[..|steps| - 1], ref)
      + if Unlinks(Run(steps[..|steps| - 1]), steps[|steps| - 1], ref) then 1 else 0
  }

  // ---- What a step reports about a connection

  predicate Said(out: seq<Report>, ref: Ref, message: W.NetMessage) {
    Report(message, Some(ref.index)) in out
  }

  /** These are the reports about the connection that are new. */
  ghost predicate Tells(out: seq<Report>, out': seq<Report>, ref: Ref, answer: Option<string>, failed: bool, closed: bool) {
    && (forall sdp :: Said(out', ref, W.NetAnswer(ref.id, sdp)) <==> Said(out, ref, W.NetAnswer(ref.id, sdp)) || answer == Some(sdp))
    && (Said(out', ref, W.NetFailed(ref.id)) <==> Said(out, ref, W.NetFailed(ref.id)) || failed)
    && (Said(out', ref, W.NetClosed(ref.id)) <==> Said(out, ref, W.NetClosed(ref.id)) || closed)
  }

  lemma TellsNothing(out: seq<Report>, ref: Ref)
    ensures Tells(out, out, ref, None, false, false)
  {
  }

  lemma TellsOther(out: seq<Report>, r: Report, ref: Ref)
    requires r.who != Some(ref.index)
          || (r.message.NetAnswer? && r.message.id != ref.id) || (r.message.NetFailed? && r.message.id != ref.id)
          || (r.message.NetClosed? && r.message.id != ref.id)
          || !(r.message.NetAnswer? || r.message.NetFailed? || r.message.NetClosed?)
    ensures Tells(out, out + [r], ref, None, false, false)
  {
  }

  lemma TellsMore(a: seq<Report>, b: seq<Report>, c: seq<Report>, ref: Ref, failed: bool, closed: bool)
    requires Tells(a, b, ref, None, failed, false) && Tells(b, c, ref, None, false, closed)
    ensures Tells(a, c, ref, None, failed, closed)
  {
  }

  /** What a step does to one connection. */
  ghost predicate Becomes(n: Network, n': Network, ref: Ref, answer: Option<string>, failed: bool, closed: bool, p: Option<NetPeer>) {
    && Tells(n.out, n'.out, ref, answer, failed, closed)
    && (Finds(n', ref) <==> p.Some?) && (p.Some? ==> n'.peers[ref.id] == p.value)
  }

  function Record(n: Network, ref: Ref): Option<NetPeer> {
    if Finds(n, ref) then Some(n.peers[ref.id]) else None
  }

  /** Its record once it is on its way out, if it does not go at once. */
  function Leaving(p: NetPeer): Option<NetPeer> {
    if p.pads == 0 then None else Some(p.(removing := true, pending := p.pads))
  }

  lemma RemoveBecomes(n: Network, id: Id, ref: Ref)
    ensures var hit := id == ref.id && Finds(n, ref) && !n.peers[id].removing;
      Becomes(n, Remove(n, id), ref, None, false, hit && n.peers[id].pads == 0,
              if hit then Leaving(n.peers[id]) else Record(n, ref))
  {
    TellsNothing(n.out, ref);
    if id !in n.peers {
      TellsOther(n.out, Report(W.NetClosed(id), None), ref);
    }
  }

  lemma FailBecomes(n: Network, id: Id, ref: Ref)
    requires id in n.peers
    ensures var hit := id == ref.id && Finds(n, ref) && !n.peers[id].removing;
      Becomes(n, FailPeer(n, id), ref, None, hit, hit && n.peers[id].pads == 0,
              if hit then Leaving(n.peers[id]) else Record(n, ref))
  {
    hide Remove, Tells, Said;
    TellsNothing(n.out, ref);
    if !n.peers[id].removing {
      var r := Report(W.NetFailed(id), Some(n.peers[id].index));
      FailedTells(n.out, r, ref);
      RemoveBecomes(Emit(n, W.NetFailed(id), Some(n.peers[id].index)), id, ref);
      TellsMore(n.out, n.out + [r], FailPeer(n, id).out, ref, r == Report(W.NetFailed(ref.id), Some(ref.index)),
                id == ref.id && Finds(n, ref) && n.peers[id].pads == 0);
    }
  }

  lemma FailedTells(out: seq<Report>, r: Report, ref: Ref)
    requires r.message.NetFailed?
    ensures Tells(out, out + [r], ref, None, r == Report(W.NetFailed(ref.id), Some(ref.index)), false)
  {
  }

  lemma AddBecomes(n: Network, step: Step, ref: Ref)
    requires step.CommandStep? && step.command.AddPeer? && !n.stopped && n.ready && Inv(n)
    ensures var made := Makes(n, step, ref);
      var p := if made then Some(NetPeer(ref.index, step.outcome.pads, false, false, 0)) else None;
      Becomes(n, MediaNet.Apply(n, step), ref, None, Breaks(n, step, ref),
              Breaks(n, step, ref) && step.outcome.pads == 0,
              if !made then Record(n, ref) else if Breaks(n, step, ref) then Leaving(p.value) else p)
  {
    hide LogInv, UnlinksInv, FailPeer, Tells, W.ValidPeerId;
    var id, outcome := step.command.id, step.outcome;
    TellsNothing(n.out, ref);
    TellsOther(n.out, Report(W.NetFailed(id), None), ref);
    TellsOther(n.out, Report(W.NetFatal, None), ref);
    if W.ValidPeerId(id) && n.configured && id !in n.peers && (outcome.Accepted? || outcome.LinkFailed?) {
      var n1 := Inserted(n, id, outcome.pads);
      FailBecomes(n1, id, ref);
    }
  }

  lemma UnlinkBecomes(n: Network, ref: Ref, other: Ref)
    requires ref in n.unlinks && Inv(n)
    ensures Finds(n, ref)
    ensures var last := ref == other && n.peers[ref.id].pending == 1;
      Becomes(n, Unlinked(n, ref), other, None, false, last,
              if ref != other then Record(n, other)
              else if last then None
              else Some(n.peers[ref.id].(pending := n.peers[ref.id].pending - 1)))
  {
    hide LogInv, Tells;
    assert ref.id in n.peers && n.peers[ref.id].index == ref.index;
    TellsNothing(n.out, other);
    ClosedTells(n.out, Report(W.NetClosed(ref.id), Some(ref.index)), other);
  }

  lemma ClosedTells(out: seq<Report>, r: Report, ref: Ref)
    requires r.message.NetClosed?
    ensures Tells(out, out + [r], ref, None, false, r == Report(W.NetClosed(ref.id), Some(ref.index)))
  {
  }

  lemma AnswerBecomes(n: Network, step: Step, ref: Ref)
    requires step.AnswerStep? && !n.stopped
    ensures var now := Gathers(n, step, ref) && !n.peers[ref.id].answered;
      Becomes(n, MediaNet.Apply(n, step), ref, if now then step.sdp else None, false, false,
              if now then Some(n.peers[ref.id].(answered := true)) else Record(n, ref))
  {
    TellsNothing(n.out, ref);
  }

  // ---- The invariant of a run

  /** What the run so far has been for one connection, apart from the state it is in. */
  datatype Story = Story(gathered: Option<string>, broke: bool, asked: bool, made: Option<Pads>, unlinks: nat)

  function StoryOf(steps: seq<Step>, ref: Ref): Story {
    Story(Gathered(steps, ref), Broke(steps, ref), Asked(steps, ref), Made(steps, ref), UnlinksOf(steps, ref))
  }

  /** One more step of the story. */
  function Continues(n: Network, step: Step, ref: Ref, story: Story): Story {
    Story(
      if story.gathered.Some? then story.gathered else if Gathers(n, step, ref) then step.sdp else None,
      story.broke || Breaks(n, step, ref),
      story.asked || Asks(n, step, ref),
      if Makes(n, step, ref) then Some(step.outcome.pads) else story.made,
      story.unlinks + if Unlinks(n, step, ref) then 1 else 0)
  }

  /** The story and the state of the connection agree, and the reports tell the story. */
  ghost predicate Agrees(n: Network, ref: Ref, story: Story) {
    var p := Record(n, ref);
    && (forall sdp :: Said(n.out, ref, W.NetAnswer(ref.id, sdp)) <==> story.gathered == Some(sdp))
    && (Said(n.out, ref, W.NetFailed(ref.id)) <==> story.broke)
    && (Said(n.out, ref, W.NetClosed(ref.id)) <==> story.made.Some? && p.None?)
    && (story.made.None? ==> story == Story(None, false, false, None, 0) && p.None?)
    && (story.made.Some? ==> ref.index < n.nextIndex)
    && (story.made.Some? && p.None? ==> story.unlinks == story.made.value && (story.broke || story.asked))
    && (p.Some? ==>
          && story.made == Some(p.value.pads) && (p.value.answered <==> story.gathered.Some?)
          && (story.broke || story.asked <==> p.value.removing)
          && story.unlinks == if p.value.removing then p.value.pads - p.value.pending else 0)
  }

  lemma AgreesNext(n: Network, n': Network, ref: Ref, story: Story, story': Story,
                   answer: Option<string>, failed: bool, closed: bool, p: Option<NetPeer>)
    requires Agrees(n, ref, story) && Becomes(n, n', ref, answer, failed, closed, p) && n.nextIndex <= n'.nextIndex
    requires answer.Some? ==> story.gathered.None?
    requires story'.gathered == if answer.Some? then answer else story.gathered
    requires story'.broke <==> story.broke || failed
    requires story'.made.Some? && p.None? <==> (story.made.Some? && Record(n, ref).None?) || closed
    requires story'.made.None? ==> story' == Story(None, false, false, None, 0) && p.None?
    requires story'.made.Some? ==> ref.index < n'.nextIndex
    requires story'.made.Some? && p.None? ==> story'.unlinks == story'.made.value && (story'.broke || story'.asked)
    requires p.Some? ==>
               && story'.made == Some(p.value.pads) && (p.value.answered <==> story'.gathered.Some?)
               && (story'.broke || story'.asked <==> p.value.removing)
               && story'.unlinks == if p.value.removing then p.value.pads - p.value.pending else 0
    ensures Agrees(n', ref, story')
  {
    hide Said;
  }

  lemma SameStory(n: Network, n': Network, ref: Ref, story: Story)
    requires Agrees(n, ref, story) && Becomes(n, n', ref, None, false, false, Record(n, ref)) && n.nextIndex <= n'.nextIndex
    ensures Agrees(n', ref, story)
  {
    hide Tells;
    AgreesNext(n, n', ref, story, story, None, false, false, Record(n, ref));
  }

  lemma AddStory(n: Network, step: Step, ref: Ref, story: Story)
    requires Agrees(n, ref, story) && Inv(n) && step.CommandStep? && step.command.AddPeer? && !n.stopped && n.ready
    ensures Agrees(MediaNet.Apply(n, step), ref, Continues(n, step, ref, story))
  {
    hide Tells, LogInv, UnlinksInv, FailPeer, W.ValidPeerId, Agrees;
    AddBecomes(n, step, ref);
    AddIndex(n, step);
    var n', story' := MediaNet.Apply(n, step), Continues(n, step, ref, story);
    if Makes(n, step, ref) {
      NotMadeYet(n, ref, story);
      var p := NetPeer(ref.index, step.outcome.pads, false, false, 0);
      AgreesNext(n, n', ref, story, story', None, step.outcome.LinkFailed?,
                 step.outcome.LinkFailed? && step.outcome.pads == 0,
                 if step.outcome.LinkFailed? then Leaving(p) else Some(p));
    } else {
      SameStory(n, n', ref, story);
    }
  }

  lemma NotMadeYet(n: Network, ref: Ref, story: Story)
    requires Agrees(n, ref, story) && ref.index == n.nextIndex
    ensures story == Story(None, false, false, None, 0) && Record(n, ref).None?
  {
  }

  lemma AddIndex(n: Network, step: Step)
    requires step.CommandStep? && step.command.AddPeer? && !n.stopped && n.ready
    ensures var n' := MediaNet.Apply(n, step);
      n.nextIndex <= n'.nextIndex && (forall ref :: Makes(n, step, ref) ==> n'.nextIndex == ref.index + 1)
  {
    hide Remove, W.ValidPeerId;
    RemoveIndex(Inserted(n, step.command.id, 0), step.command.id);
    if step.outcome.LinkFailed? && step.command.id !in n.peers {
      var n1 := Inserted(n, step.command.id, step.outcome.pads);
      RemoveIndex(Emit(n1, W.NetFailed(step.command.id), Some(n.nextIndex)), step.command.id);
    }
  }

  lemma RemoveIndex(n: Network, id: Id)
    ensures Remove(n, id).nextIndex == n.nextIndex
  {
  }

  lemma FailIndex(n: Network, id: Id)
    requires id in n.peers
    ensures FailPeer(n, id).nextIndex == n.nextIndex
  {
    hide Remove;
    RemoveIndex(Emit(n, W.NetFailed(id), Some(n.peers[id].index)), id);
  }

  lemma RemoveStory(n: Network, id: Id, ref: Ref, story: Story)
    requires Agrees(n, ref, story) && !n.stopped
    ensures var hit := id == ref.id && Live(n, ref);
      Agrees(Remove(n, id), ref, story.(asked := story.asked || hit))
  {
    hide Tells, Remove, Agrees;
    RemoveBecomes(n, id, ref);
    RemoveIndex(n, id);
    LeavingStory(n, Remove(n, id), id, ref, story, false);
  }

  lemma FailStory(n: Network, id: Id, ref: Ref, story: Story)
    requires Agrees(n, ref, story) && !n.stopped && id in n.peers
    ensures var hit := id == ref.id && Live(n, ref);
      Agrees(FailPeer(n, id), ref, story.(broke := story.broke || hit))
  {
    hide Tells, FailPeer, Agrees;
    FailBecomes(n, id, ref);
    FailIndex(n, id);
    LeavingStory(n, FailPeer(n, id), id, ref, story, true);
  }

  /** A connection that fails, or is asked to go. */
  lemma LeavingStory(n: Network, n': Network, id: Id, ref: Ref, story: Story, fails: bool)
    requires Agrees(n, ref, story) && n'.nextIndex == n.nextIndex && !n.stopped
    requires var hit := id == ref.id && Live(n, ref);
      Becomes(n, n', ref, None, fails && hit, hit && n.peers[id].pads == 0, if hit then Leaving(n.peers[id]) else Record(n, ref))
    ensures var hit := id == ref.id && Live(n, ref);
      Agrees(n', ref, if fails then story.(broke := story.broke || hit) else story.(asked := story.asked || hit))
  {
    hide Tells;
    var hit := id == ref.id && Live(n, ref);
    var story' := if fails then story.(broke := story.broke || hit) else story.(asked := story.asked || hit);
    AgreesNext(n, n', ref, story, story', None, fails && hit, hit && n.peers[id].pads == 0,
               if hit then Leaving(n.peers[id]) else Record(n, ref));
  }

  lemma UnlinkStory(n: Network, ref: Ref, other: Ref, story: Story)
    requires Agrees(n, other, story) && Inv(n) && ref in n.unlinks && !n.stopped
    ensures Agrees(Unlinked(n, ref), other, Continues(n, UnlinkStep(ref), other, story))
  {
    hide Tells, Unlinked, LogInv;
    UnlinkBecomes(n, ref, other);
    UnlinkIndex(n, ref);
    var last := ref == other && n.peers[ref.id].pending == 1;
    assert n.unlinks[ref] > 0 && n.peers[ref.id].pending == n.unlinks[ref] && n.peers[ref.id].removing;
    AgreesNext(n, Unlinked(n, ref), other, story, Continues(n, UnlinkStep(ref), other, story), None, false, last,
               if ref != other then Record(n, other)
               else if last then None
               else Some(n.peers[ref.id].(pending := n.peers[ref.id].pending - 1)));
  }

  lemma UnlinkIndex(n: Network, ref: Ref)
    requires ref in n.unlinks
    ensures Unlinked(n, ref).nextIndex == n.nextIndex
  {
  }

  lemma AnswerStory(n: Network, step: Step, ref: Ref, story: Story)
    requires Agrees(n, ref, story) && step.AnswerStep? && !n.stopped
    ensures Agrees(MediaNet.Apply(n, step), ref, Continues(n, step, ref, story))
  {
    hide Tells;
    AnswerBecomes(n, step, ref);
    var now := Gathers(n, step, ref) && !n.peers[ref.id].answered;
    AgreesNext(n, MediaNet.Apply(n, step), ref, story, Continues(n, step, ref, story), if now then step.sdp else None, false, false,
               if now then Some(n.peers[ref.id].(answered := true)) else Record(n, ref));
  }

  /** The steps that are about no connection. */
  lemma OtherStory(n: Network, step: Step, ref: Ref, story: Story)
    requires Agrees(n, ref, story)
    requires n.stopped || step.ChatterStep? || step.LoadStep? || step.BusErrorStep? || step.SilentEndStep?
          || (step.CommandStep? && (!n.ready || step.command.Configure? || step.command.ControlState?))
    ensures Agrees(MediaNet.Apply(n, step), ref, Continues(n, step, ref, story))
  {
    hide Tells, Agrees, W.ValidPeerId;
    var n' := MediaNet.Apply(n, step);
    assert Continues(n, step, ref, story) == story;
    TellsNothing(n.out, ref);
    if n'.out != n.out {
      TellsOther(n.out, n'.out[|n.out|], ref);
    }
    SameStory(n, n', ref, story);
  }

  /** A failure of some connection, where there is none to fail unless it is live. */
  lemma FailStepStory(n: Network, other: Ref, ref: Ref, story: Story)
    requires Agrees(n, ref, story) && Inv(n) && !n.stopped
    ensures Agrees(MediaNet.Apply(n, FailStep(other)), ref, Continues(n, FailStep(other), ref, story))
  {
    hide Agrees, Inv, FailPeer, W.ValidPeerId;
    var hit := other == ref && Live(n, ref);
    assert Continues(n, FailStep(other), ref, story) == story.(broke := story.broke || hit);
    if Finds(n, other) && !n.peers[other.id].removing {
      FailStory(n, other.id, ref, story);
    }
  }

  lemma RemoveStepStory(n: Network, step: Step, ref: Ref, story: Story)
    requires Agrees(n, ref, story) && !n.stopped && n.ready && step.CommandStep? && step.command.RemovePeer?
    ensures Agrees(MediaNet.Apply(n, step), ref, Continues(n, step, ref, story))
  {
    hide Agrees, Remove, W.ValidPeerId, Tells;
    var id := step.command.id;
    assert W.RemovePeer(id) == step.command;
    if W.ValidPeerId(id) {
      var hit := id == ref.id && Live(n, ref);
      assert Continues(n, step, ref, story) == story.(asked := story.asked || hit);
      RemoveStory(n, id, ref, story);
    } else {
      TellsOther(n.out, Report(W.NetFatal, None), ref);
      SameStory(n, Fatal(n), ref, story);
    }
  }

  lemma StepStory(n: Network, step: Step, ref: Ref, story: Story)
    requires Agrees(n, ref, story) && Inv(n)
    ensures Agrees(MediaNet.Apply(n, step), ref, Continues(n, step, ref, story))
  {
    hide Agrees, Inv, Remove, FailPeer, Unlinked, W.ValidPeerId, Add, Continues, MediaNet.Apply;
    if n.stopped || step.ChatterStep? || step.LoadStep? || step.BusErrorStep? || step.SilentEndStep?
       || (step.CommandStep? && (!n.ready || step.command.Configure? || step.command.ControlState?)) {
      OtherStory(n, step, ref, story);
    } else {
      match step
      case AnswerStep(_, _) => AnswerStory(n, step, ref, story);
      case FailStep(other) => FailStepStory(n, other, ref, story);
      case UnlinkStep(other) => UnlinkStepStory(n, other, ref, story);
      case CommandStep(command, _) =>
        if command.AddPeer? {
          AddStory(n, step, ref, story);
        } else {
          RemoveStepStory(n, step, ref, story);
        }
    }
  }

  lemma UnlinkStepStory(n: Network, other: Ref, ref: Ref, story: Story)
    requires Agrees(n, ref, story) && Inv(n) && !n.stopped
    ensures Agrees(MediaNet.Apply(n, UnlinkStep(other)), ref, Continues(n, UnlinkStep(other), ref, story))
  {
    hide Agrees, Inv, Unlinked;
    if other in n.unlinks {
      UnlinkStory(n, other, ref, story);
    }
  }

  lemma StoryNext(steps: seq<Step>, ref: Ref)
    requires steps != []
    ensures var before := steps[..|steps| - 1];
      StoryOf(steps, ref) == Continues(Run(before), steps[|steps| - 1], ref, StoryOf(before, ref))
  {
    hide Makes, Gathers, Breaks, Asks, Unlinks, Run;
  }

  lemma {:induction false} StoryAlways(steps: seq<Step>, ref: Ref)
    ensures Agrees(Run(steps), ref, StoryOf(steps, ref))
  {
    hide Agrees, Inv, MediaNet.Apply, Continues, StoryOf;
    if steps == [] {
      StoryStarts(ref);
    } else {
      var before := steps[..|steps| - 1];
      StoryAlways(before, ref);
      InvAlways(before);
      StepStory(Run(before), steps[|steps| - 1], ref, StoryOf(before, ref));
      StoryNext(steps, ref);
    }
  }

  lemma StoryStarts(ref: Ref)
    ensures Agrees(LAUNCHED, ref, StoryOf([], ref))
  {
  }

  // ---- The results

  /**
   A connection is answered exactly when gathering was once complete while it was there, with the
   description of that moment and no other.
   */
  lemma AnsweredIff(steps: seq<Step>, ref: Ref, sdp: string)
    ensures Report(W.NetAnswer(ref.id, sdp), Some(ref.index)) in Run(steps).out <==> Gathered(steps, ref) == Some(sdp)
  {
    hide Run, Gathered, Broke, Asked, Made, UnlinksOf;
    StoryAlways(steps, ref);
    assert Said(Run(steps).out, ref, W.NetAnswer(ref.id, sdp)) <==> StoryOf(steps, ref).gathered == Some(sdp);
  }

  /** It is reported failed exactly when it failed: at its making, or later while it was there. */
  lemma FailedIff(steps: seq<Step>, ref: Ref)
    ensures Report(W.NetFailed(ref.id), Some(ref.index)) in Run(steps).out <==> Broke(steps, ref)
  {
    hide Run, Gathered, Broke, Asked, Made, UnlinksOf;
    StoryAlways(steps, ref);
  }

  /**
   It is reported closed exactly when it was made, failed or was asked to go, and each pad it was
   made with has been unlinked since.
   */
  lemma ClosedIff(steps: seq<Step>, ref: Ref)
    ensures Report(W.NetClosed(ref.id), Some(ref.index)) in Run(steps).out
       <==> (Broke(steps, ref) || Asked(steps, ref)) && Made(steps, ref) == Some(UnlinksOf(steps, ref))
  {
    hide Run, Gathered, Broke, Asked, Made, UnlinksOf, LogInv;
    StoryAlways(steps, ref);
    InvAlways(steps);
    assert Said(Run(steps).out, ref, W.NetClosed(ref.id)) <==> Made(steps, ref).Some? && Record(Run(steps), ref).None?;
  }

  /** A connection that was made is there until then, and keeps its pads. */
  lemma MadeIsThere(steps: seq<Step>, ref: Ref)
    requires Made(steps, ref).Some?
    ensures Finds(Run(steps), ref) <==> Report(W.NetClosed(ref.id), Some(ref.index)) !in Run(steps).out
    ensures Finds(Run(steps), ref) ==>
              (Run(steps).peers[ref.id].removing <==> Broke(steps, ref) || Asked(steps, ref))
  {
    hide Run, Gathered, Broke, Asked, Made, UnlinksOf;
    StoryAlways(steps, ref);
  }
}
