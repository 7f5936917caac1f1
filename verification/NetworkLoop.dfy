/** The functions of media-net.cpp as they are written, proved against those of MediaNet. */
module NetworkLoop {
  import opened Bytes
  import opened Permission
  import W = Worker
  import M = MediaNet

  /** The globals of media-net.cpp; `born`, `unlinks` and `out` are history. */
  class NetworkProcess {
    var ready: bool
    var configured: bool
    var stopped: bool
    var peers: map<Id, M.NetPeer>
    var nextPeerIndex: nat
    ghost var born: set<nat>
    ghost var unlinks: multiset<M.Ref>
    ghost var out: seq<M.Report>

    ghost function State(): M.Network
      reads this
    {
      M.Network(ready, configured, stopped, peers, nextPeerIndex, born, unlinks, out)
    }

    constructor ()
      ensures State() == M.LAUNCHED
    {
      ready, configured, stopped, peers, nextPeerIndex := false, false, false, map[], 0;
      born, unlinks, out := {}, multiset{}, [];
    }

    /** send_line, with the incarnation it speaks for. */
    ghost method SendLine(message: W.NetMessage, who: Option<nat>)
      modifies this`out
      ensures State() == M.Emit(old(State()), message, who)
    {
      out := out + [M.Report(message, who)];
    }

    method DestroyPeer(id: Id)
      modifies this`peers, this`out
      ensures State() == M.DestroyPeer(old(State()), id)
    {
      if id !in peers {
        return;
      }
      SendLine(W.NetClosed(id), Some(peers[id].index));
      peers := peers - {id};
    }

    /** remove_peer: one idle probe for each pad, or the end at once when there is none. */
    method RemovePeer(id: Id)
      modifies this`peers, this`unlinks, this`out
      ensures State() == M.Remove(old(State()), id)
    {
      if id !in peers {
        SendLine(W.NetClosed(id), None);
        return;
      }
      if peers[id].removing {
        return;
      }
      var pads := peers[id].pads;
      peers := peers[id := peers[id].(removing := true, pending := pads)];
      if pads == 0 {
        DestroyPeer(id);
        return;
      }
      ghost var ref := M.Ref(id, peers[id].index);
      ghost var before, marked := unlinks, peers;
      for pad := 0 to pads
        invariant unlinks == before[ref := before[ref] + pad] && peers == marked && out == old(out)
      {
        unlinks := unlinks[ref := unlinks[ref] + 1];
      }
    }

    method FailPeer(id: Id)
      requires id in peers
      modifies this`peers, this`unlinks, this`out
      ensures State() == M.FailPeer(old(State()), id)
    {
      hide M.Remove;
      if peers[id].removing {
        return;
      }
      SendLine(W.NetFailed(id), Some(peers[id].index));
      RemovePeer(id);
    }

    method AddPeer(id: Id, outcome: M.Outcome)
      modifies this`peers, this`unlinks, this`out, this`nextPeerIndex, this`born
      ensures State() == M.Add(old(State()), id, outcome)
    {
      hide M.Remove, M.FailPeer;
      if !configured || id in peers || outcome.Refused? {
        SendLine(W.NetFailed(id), None);
        return;
      }
      var index := nextPeerIndex;
      nextPeerIndex := nextPeerIndex + 1;
      if outcome.NotBuilt? {
        SendLine(W.NetFailed(id), None);
        return;
      }
      peers := peers[id := M.NetPeer(index, outcome.pads, false, false, 0)];
      born := born + {index};
      if outcome.LinkFailed? {
        FailPeer(id);
      }
    }

    /** command, for a line already parsed. What goes to the viewer's data channel is not shown. */
    method Command(command: W.NetCommand, outcome: M.Outcome)
      modifies this
      ensures State() == M.Command(old(State()), command, outcome)
    {
      hide M.Remove, M.Add, W.ValidPeerId;
      match command
      case Configure =>
        var accepted := Configure(outcome);
        if !accepted {
          Fatal();
        }
      case AddPeer(id, _) => if W.ValidPeerId(id) { AddPeer(id, outcome); } else { Fatal(); }
      case RemovePeer(id) => if W.ValidPeerId(id) { RemovePeer(id); } else { Fatal(); }
      case ControlState(id, _) => if !W.ValidPeerId(id) { Fatal(); }
    }

    /** configure: the first one may be accepted, if its members and GStreamer allow. */
    method Configure(outcome: M.Outcome) returns (accepted: bool)
      modifies this`configured
      ensures State() == old(State()).(configured := true)
      ensures accepted <==> !old(configured) && !outcome.Refused?
    {
      if configured {
        return false;
      }
      configured := true;
      accepted := !outcome.Refused?;
    }

    /** "fatal" and stop_loop. */
    method Fatal()
      modifies this`stopped, this`out
      ensures State() == M.Fatal(old(State()))
    {
      SendLine(W.NetFatal, None);
      stopped := true;
    }

    /** network_main up to its main loop. */
    method Load(complete: bool)
      modifies this`ready, this`stopped, this`out
      ensures State() == M.Load(old(State()), complete)
    {
      if !complete {
        Fatal();
        return;
      }
      SendLine(W.NetReady, None);
      ready := true;
    }

    /** bus_message for an error; `ref` is the viewer it belongs to, if any. */
    method BusError(ref: Option<M.Ref>)
      modifies this`stopped, this`peers, this`unlinks, this`out
      ensures State() == if ref.Some? then M.FailTask(old(State()), ref.value) else M.BusError(old(State()))
    {
      if ref.Some? {
        FailTask(ref.value);
      } else if configured {
        Fatal();
      }
    }

    /** A task queued with on_main: fail_peer. */
    method FailTask(ref: M.Ref)
      modifies this`peers, this`unlinks, this`out
      ensures State() == M.FailTask(old(State()), ref)
    {
      hide M.Remove, M.FailPeer;
      var found := FindPeer(ref);
      if found && !peers[ref.id].removing {
        FailPeer(ref.id);
      }
    }

    /** find_peer: the index tells a peer from an earlier one of the same id. */
    method FindPeer(ref: M.Ref) returns (found: bool)
      ensures found <==> M.Finds(State(), ref)
    {
      found := ref.id in peers && peers[ref.id].index == ref.index;
    }

    /** A task queued with on_main: send_answer. */
    method SendAnswer(ref: M.Ref, sdp: Option<string>)
      modifies this`peers, this`out
      ensures State() == M.AnswerTask(old(State()), ref, sdp)
    {
      var found := FindPeer(ref);
      if !found || peers[ref.id].removing || peers[ref.id].answered || sdp.None? {
        return;
      }
      SendLine(W.NetAnswer(ref.id, sdp.value), Some(ref.index));
      peers := peers[ref.id := peers[ref.id].(answered := true)];
    }

    /** The idle callback of unlink_probe. */
    method UnlinkDone(ref: M.Ref)
      requires ref in unlinks
      modifies this`peers, this`unlinks, this`out
      ensures State() == M.Unlinked(old(State()), ref)
    {
      unlinks := unlinks[ref := unlinks[ref] - 1];
      var found := FindPeer(ref);
      if found {
        peers := peers[ref.id := peers[ref.id].(pending := peers[ref.id].pending - 1)];
        if peers[ref.id].pending == 0 {
          DestroyPeer(ref.id);
        }
      }
    }

    /** Whatever comes next; an unlink completes only where one was started. */
    method Dispatch(step: M.Step)
      requires step.UnlinkStep? ==> step.ref in unlinks
      modifies this
      ensures State() == M.Apply(old(State()), step)
    {
      hide M.Command, M.FailTask, M.AnswerTask, M.Unlinked, M.Load;
      if stopped {
        return;
      }
      match step
      case CommandStep(command, outcome) => if ready { Command(command, outcome); }
      case AnswerStep(ref, sdp) => SendAnswer(ref, sdp);
      case FailStep(ref) => FailTask(ref);
      case UnlinkStep(ref) => UnlinkDone(ref);
      case ChatterStep(message) => if message.ChannelClosed? || message.NetOther? { SendLine(message, None); }
      case LoadStep(complete) => if !ready { Load(complete); }
      case BusErrorStep => BusError(None);
      case SilentEndStep => stopped := true;
    }

    /** The life of the process: the run theorems of MediaNet are about this code. */
    method Session(steps: seq<M.Step>)
      requires State() == M.LAUNCHED
      requires forall i {:trigger steps[i]} :: 0 <= i < |steps| && steps[i].UnlinkStep? ==> steps[i].ref in M.Run(steps[..i]).unlinks
      modifies this
      ensures State() == M.Run(steps)
    {
      hide M.Apply, M.Run;
      RunNothing();
      assert steps[..0] == [];
      for i := 0 to |steps|
        invariant State() == M.Run(steps[..i])
      {
        RunNext(steps, i);
        Dispatch(steps[i]);
      }
      assert steps[..|steps|] == steps;
    }
  }

  lemma RunNothing()
    ensures M.Run([]) == M.LAUNCHED
  {
  }

  lemma RunNext(steps: seq<M.Step>, i: nat)
    requires i < |steps|
    ensures M.Run(steps[..i + 1]) == M.Apply(M.Run(steps[..i]), steps[i])
  {
    assert steps[..i + 1][..i] == steps[..i];
  }
}
