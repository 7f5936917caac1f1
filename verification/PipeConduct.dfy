/**
 What ends a run. media-net ends by itself - it cannot load, its configuration is refused, its
 pipeline fails, a pipe ends - and never because of a command of this worker; the worker ends by
 the server or from outside, or by hearing that media-net has. Until then the protocol always
 comes to rest.
 */
module PipeConduct {
  import opened Bytes
  import opened Permission
  import opened Protocol
  import W = Worker
  import V = ViewerReports
  import M = MediaNet
  import C = WorkerConduct

  /** The ways in which media-net ends: each is up to GStreamer, the system or the configuration. */
  predicate EndsNet(s: System, step: Step) {
    !s.w.stopped && !s.n.stopped
    && match step
       case Deliver(outcome) =>
         s.n.ready && s.sent < |s.w.commands| && s.w.commands[s.sent].Configure? && outcome.Refused?
       case Task(task) =>
         || (task.LoadStep? && !s.n.ready && !task.complete)
         || (task.BusErrorStep? && s.n.configured)
         || task.SilentEndStep?
       case _ => false
  }

  /** All of them but a silent end are reported as fatal. */
  predicate EndsAloud(s: System, step: Step) {
    EndsNet(s, step) && step != Task(M.SilentEndStep)
  }

  predicate HasFatal(out: seq<M.Report>) {
    exists k :: 0 <= k < |out| && out[k].message.NetFatal?
  }

  /** What was said since is not fatal. */
  predicate Calm(out: seq<M.Report>, out': seq<M.Report>) {
    out <= out' && forall k :: |out| <= k < |out'| ==> !out'[k].message.NetFatal?
  }

  lemma CalmKeeps(out: seq<M.Report>, out': seq<M.Report>)
    requires Calm(out, out')
    ensures HasFatal(out') <==> HasFatal(out)
  {
    if HasFatal(out) {
      var k :| 0 <= k < |out| && out[k].message.NetFatal?;
      assert out'[k] == out[k];
    }
  }

  lemma FatalSaid(out: seq<M.Report>)
    ensures HasFatal(out + [M.Report(W.NetFatal, None)])
  {
    assert (out + [M.Report(W.NetFatal, None)])[|out|].message.NetFatal?;
  }

  // ---- media-net

  lemma RemoveSays(n: M.Network, id: Id)
    ensures var n' := M.Remove(n, id); Calm(n.out, n'.out) && n'.stopped == n.stopped
  {
  }

  lemma FailSays(n: M.Network, id: Id)
    requires id in n.peers
    ensures var n' := M.FailPeer(n, id); Calm(n.out, n'.out) && n'.stopped == n.stopped
  {
    hide M.Remove;
    RemoveSays(M.Emit(n, W.NetFailed(id), Some(n.peers[id].index)), id);
  }

  lemma AddSays(n: M.Network, id: Id, outcome: M.Outcome)
    ensures var n' := M.Add(n, id, outcome); Calm(n.out, n'.out) && n'.stopped == n.stopped
  {
    hide M.FailPeer;
    if outcome.LinkFailed? {
      FailSays(M.Inserted(n, id, outcome.pads), id);
    }
  }

  lemma TaskSays(n: M.Network, task: M.Step)
    requires !n.stopped && !task.CommandStep?
    ensures var n', aloud := M.Apply(n, task), (task.LoadStep? && !n.ready && !task.complete) || (task.BusErrorStep? && n.configured);
      && (n'.stopped <==> aloud || task.SilentEndStep?)
      && (if aloud then n'.out == n.out + [M.Report(W.NetFatal, None)] else Calm(n.out, n'.out))
  {
    hide M.FailPeer;
    if task.FailStep? && M.Finds(n, task.ref) {
      FailSays(n, task.ref.id);
    }
  }

  lemma CommandSays(n: M.Network, c: W.NetCommand, k: nat, outcome: M.Outcome)
    requires !n.stopped && n.ready && C.Proper(c, k) && (n.configured ==> k >= 1)
    ensures var n', refused := M.Apply(n, M.CommandStep(c, outcome)), c.Configure? && outcome.Refused?;
      && (n'.stopped <==> refused)
      && (if refused then n'.out == n.out + [M.Report(W.NetFatal, None)] else Calm(n.out, n'.out))
  {
    hide W.ValidPeerId, M.Remove, M.Add;
    match c
    case Configure =>
    case AddPeer(id, _) => AddSays(n, id, outcome);
    case RemovePeer(id) => RemoveSays(n, id);
    case ControlState(_, _) =>
  }

  // ---- Both

  /** media-net ends, and says so, in exactly these steps. */
  lemma StepEnds(s: System, step: Step, ok: W.Oracle)
    requires Inv(s)
    ensures var s' := Apply(s, step, ok);
      && (s'.n.stopped <==> s.n.stopped || EndsNet(s, step))
      && (HasFatal(s'.n.out) <==> HasFatal(s.n.out) || EndsAloud(s, step))
  {
    hide Views, V.Inv, M.Inv, ReadyInv, C.Conduct, C.Proper, W.Apply, M.Apply, HasFatal, Calm;
    if s.w.stopped || s.n.stopped {
      StoppedNet(s, step, ok);
      return;
    }
    var out, out' := s.n.out, Apply(s, step, ok).n.out;
    FatalSaid(out);
    if Calm(out, out') {
      CalmKeeps(out, out');
    }
    CalmItself(out);
    match step
    case Server(e) =>
    case Deliver(outcome) =>
      if s.n.ready && s.sent < |s.w.commands| {
        C.NextIsProper(s.w, s.sent);
        CommandSays(s.n, s.w.commands[s.sent], s.sent, outcome);
      }
    case Hear =>
    case Task(task) =>
      if !task.CommandStep? && !task.UnlinkStep? {
        TaskSays(s.n, task);
      }
    case Unlink(ref) => TaskSays(s.n, M.UnlinkStep(ref));
  }

  lemma CalmItself(out: seq<M.Report>)
    ensures Calm(out, out)
  {
  }

  lemma StoppedNet(s: System, step: Step, ok: W.Oracle)
    requires s.w.stopped || s.n.stopped
    ensures Apply(s, step, ok).n == s.n
  {
    hide W.Apply;
  }

  /** Step i of a run is one in which media-net ends. */
  ghost predicate EndsAt(steps: seq<Step>, ok: W.Oracle, i: nat) {
    i < |steps| && EndsNet(Run(steps[..i], ok), steps[i])
  }

  ghost predicate AloudAt(steps: seq<Step>, ok: W.Oracle, i: nat) {
    i < |steps| && EndsAloud(Run(steps[..i], ok), steps[i])
  }

  ghost predicate EverEnds(steps: seq<Step>, ok: W.Oracle) {
    exists i: nat :: EndsAt(steps, ok, i)
  }

  ghost predicate EverAloud(steps: seq<Step>, ok: W.Oracle) {
    exists i: nat :: AloudAt(steps, ok, i)
  }

  lemma EndsBefore(steps: seq<Step>, ok: W.Oracle, i: nat)
    requires i < |steps|
    ensures var last, before := |steps| - 1, steps[..|steps| - 1];
      if i == last then EndsAt(steps, ok, i) == EndsNet(Run(before, ok), steps[last])
                        && AloudAt(steps, ok, i) == EndsAloud(Run(before, ok), steps[last])
      else EndsAt(steps, ok, i) == EndsAt(before, ok, i) && AloudAt(steps, ok, i) == AloudAt(before, ok, i)
  {
    hide EndsNet, EndsAloud, Run;
    if i < |steps| - 1 {
      assert steps[..|steps| - 1][..i] == steps[..i];
    }
  }

  /**
   In any run, media-net has ended if and only if it ended by itself in some step; and something
   fatal was reported if and only if it did so in another way than silently. No
   command of the worker is malformed, and none but the first is a configuration.
   */
  lemma {:induction false} NetEndsByItself(steps: seq<Step>, ok: W.Oracle)
    ensures Run(steps, ok).n.stopped <==> EverEnds(steps, ok)
    ensures HasFatal(Run(steps, ok).n.out) <==> EverAloud(steps, ok)
  {
    hide Inv, Apply, EndsNet, EndsAloud, HasFatal;
    if steps == [] {
      NothingFatal(ok);
    } else {
      var last := |steps| - 1;
      NetEndsByItself(steps[..last], ok);
      InvAlways(steps[..last], ok);
      StepEnds(Run(steps[..last], ok), steps[last], ok);
      hide Run, EndsAt, AloudAt;
      OneAfter(steps, ok);
    }
  }

  /** The steps of a run that end media-net are those of the run before, and perhaps the last. */
  lemma OneAfter(steps: seq<Step>, ok: W.Oracle)
    requires steps != []
    ensures var s, step, before := Run(steps[..|steps| - 1], ok), steps[|steps| - 1], steps[..|steps| - 1];
      && (EverEnds(steps, ok) <==> EverEnds(before, ok) || EndsNet(s, step))
      && (EverAloud(steps, ok) <==> EverAloud(before, ok) || EndsAloud(s, step))
  {
    hide EndsNet, EndsAloud, Run;
    var last, before := |steps| - 1, steps[..|steps| - 1];
    EndsBefore(steps, ok, last);
    if EverEnds(before, ok) {
      var i: nat :| EndsAt(before, ok, i);
      EndsBefore(steps, ok, i);
    }
    if EverAloud(before, ok) {
      var i: nat :| AloudAt(before, ok, i);
      EndsBefore(steps, ok, i);
    }
    if EverEnds(steps, ok) {
      var i: nat :| EndsAt(steps, ok, i);
      EndsBefore(steps, ok, i);
      assert i == last || EndsAt(before, ok, i);
    }
    if EverAloud(steps, ok) {
      var i: nat :| AloudAt(steps, ok, i);
      EndsBefore(steps, ok, i);
      assert i == last || AloudAt(before, ok, i);
    }
  }

  /** What was fatal was an end. */
  lemma AloudIsEnd(steps: seq<Step>, ok: W.Oracle)
    requires EverAloud(steps, ok)
    ensures EverEnds(steps, ok)
  {
    hide EndsNet, Run;
    var i: nat :| AloudAt(steps, ok, i);
    assert EndsAt(steps, ok, i);
  }

  lemma NothingFatal(ok: W.Oracle)
    ensures !Run([], ok).n.stopped && !HasFatal(Run([], ok).n.out)
  {
  }

  /** A step ends the worker only from outside, or - exactly - when it is the hearing of a fatal report. */
  lemma WorkerEnds(steps: seq<Step>, step: Step, ok: W.Oracle)
    requires !Run(steps, ok).w.stopped
    ensures var s, s' := Run(steps, ok), Run(steps + [step], ok);
      && (s'.w.stopped ==> step.Server? || step.Hear?)
      && (step.Hear? ==> (s'.w.stopped <==> s.w.started && s.heard < |s.n.out| && s.n.out[s.heard].message.NetFatal?))
  {
    hide V.Inv, M.Inv, Views, ReadyInv, C.Conduct, W.Apply, M.Apply, Run;
    InvAlways(steps, ok);
    OneMore(steps, step, ok);
    var s := Run(steps, ok);
    if step.Hear? && s.w.started && s.heard < |s.n.out| {
      C.KeepHearing(s.w, s.n.out[s.heard].message, ok);
      ReadyHeard(s.n.out, s.heard, s.n.ready, s.w.ready);
    }
  }

  /** What is under way arrives; no configuration is refused. */
  predicate Arrival(step: Step) {
    step.Hear? || step.Unlink? || (step.Deliver? && !step.outcome.Refused?)
  }

  /** Nothing that arrives ends either process, while media-net is up. */
  lemma StaysUp(steps: seq<Step>, step: Step, ok: W.Oracle)
    requires var s := Run(steps, ok); s.w.started && !s.w.stopped && s.n.ready && !s.n.stopped
    requires Arrival(step)
    ensures var s := Run(steps + [step], ok); s.w.started && !s.w.stopped && s.n.ready && !s.n.stopped
  {
    hide Inv, Apply, Run, HasFatal, EverEnds, EverAloud;
    var s := Run(steps, ok);
    NetEndsByItself(steps, ok);
    if EverAloud(steps, ok) {
      AloudIsEnd(steps, ok);
    }
    InvAlways(steps, ok);
    StepEnds(s, step, ok);
    OneMore(steps, step, ok);
    WorkerEnds(steps, step, ok);
    NoFatalHeard(s);
    StillStarted(s, step, ok);
  }

  lemma NoFatalHeard(s: System)
    ensures s.heard < |s.n.out| && s.n.out[s.heard].message.NetFatal? ==> HasFatal(s.n.out)
  {
  }

  lemma StillStarted(s: System, step: Step, ok: W.Oracle)
    requires Inv(s) && s.w.started && !s.w.stopped && s.n.ready && Arrival(step)
    ensures Apply(s, step, ok).w.started && Apply(s, step, ok).n.ready
  {
    hide V.Inv, M.Inv, Views, ReadyInv, C.Conduct, C.Proper, W.FromNet, M.Apply;
    match step
    case Deliver(outcome) =>
      if !s.n.stopped && s.sent < |s.w.commands| {
        C.NextIsProper(s.w, s.sent);
        KeepDeliver(s, outcome);
      }
    case Hear => if s.heard < |s.n.out| { StaysStarted(s, step, ok); }
    case Unlink(ref) => TaskKeeps(s.n, M.UnlinkStep(ref));
  }

  /**
   From any moment of a started run in which media-net is ready and up, letting what is under way
   arrive - nothing being added, and the configuration accepted - reaches quiet, where both sides
   know the same viewers and every removal has been reported.
   */
  lemma {:induction false} ReachesQuiet(steps: seq<Step>, ok: W.Oracle) returns (more: seq<Step>)
    requires var s := Run(steps, ok); s.w.started && !s.w.stopped && s.n.ready && !s.n.stopped
    ensures forall step :: step in more ==> Arrival(step)
    ensures var s := Run(steps + more, ok);
      && Quiet(s) && s.w.peers.Keys == s.n.peers.Keys
      && forall i, id :: 0 <= i < |s.w.server| && s.w.server[i] == W.RemoveAsked(id) ==>
           exists j :: i < j < |s.w.server| && s.w.server[j].Closed? && s.w.server[j].id == id
    decreases UnderWay(Run(steps, ok))
  {
    hide Inv, Apply, Run, UnderWay, Quiet;
    more := [];
    assert steps + more == steps;
    var step := QuietOrArrives(steps, ok);
    var s := Run(steps, ok);
    if Quiet(s) {
      AtRest(steps, ok);
    } else {
      ArrivalsRunOut(s, step, ok);
      OneMore(steps, step, ok);
      StaysUp(steps, step, ok);
      var _ := QuietOrArrives(steps + [step], ok);
      var rest := ReachesQuiet(steps + [step], ok);
      more := [step] + rest;
      assert steps + [step] + rest == steps + more;
    }
  }

  lemma AtRest(steps: seq<Step>, ok: W.Oracle)
    requires Quiet(Run(steps, ok))
    ensures var s := Run(steps, ok);
      && s.w.peers.Keys == s.n.peers.Keys
      && forall i, id :: 0 <= i < |s.w.server| && s.w.server[i] == W.RemoveAsked(id) ==>
           exists j :: i < j < |s.w.server| && s.w.server[j].Closed? && s.w.server[j].id == id
  {
    hide Run, Quiet;
    SidesAgree(steps, ok);
    forall i, id | 0 <= i < |Run(steps, ok).w.server| && Run(steps, ok).w.server[i] == W.RemoveAsked(id)
      ensures var w := Run(steps, ok).w; exists j :: i < j < |w.server| && w.server[j].Closed? && w.server[j].id == id
    {
      EveryRemovalReported(steps, ok, i, id);
    }
  }
}
