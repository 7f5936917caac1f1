# The VidVNC media worker, verified

A model, in Dafny, of the native media worker and of the few algorithms beside it whose
correctness is not obvious from reading them, with proofs over every run.

VidVNC splits the native side of a source in two processes. The *media worker* captures and
encodes, holds the owner's control lease and posts viewers' input to the operating system.
*media-net* is sandboxed, talks WebRTC, and is not trusted by the worker. They are joined by four
pipes: encoded frames and commands one way, reports and viewers' input the other.

How the source's form is kept:

- Code that updates state in place is a `class` whose methods are proved against functions on a
  value of the whole state (`WorkerLoop` against `Worker`, `NetworkLoop` against `MediaNet`,
  `FramePath.FrameSender`, `PipeWriter.QueuedWriter`, `PacketWindow.Counters`,
  `AudioTimeline.AudioStamper`, `KeyframeLimiter.Limiter`, `Permission`); loops over bytes, lines
  and attributes are methods with invariants (`PipeReaders`, `LineReaders`, `SdpPayload`).
- Threads and processes are interleaved steps: every critical section, partial write, callback and
  message arrival is one step, and theorems quantify over all sequences of steps.
- What the program cannot decide is an input of the model: clock readings (nondecreasing),
  whether each post succeeds (an oracle), how many bytes each read or write moves, whether a pipe
  breaks, what GStreamer makes of a configuration or a viewer's offer, and whether media-net ends
  by itself: unable to load, with an error of its pipeline, or with a pipe.

The modules, in order of dependence:

| module | about |
|---|---|
| `Bytes`, `NetRecords`, `PipeReaders` | little-endian integers, frame and input records, the read loops |
| `PipeWriter` | the writer thread behind a bounded queue, as interleaved steps and as a class |
| `FramePath`, `FrameGuards`, `FramesReceived` | encoders, queue, overflow, writer thread and reader as one concurrent system; what is read, said of the parsed records and the encoders' output alone |
| `Permission`, `Worker`, `WorkerLoop` | the lease, every handler of the worker's main loop, and its code |
| `BrokerSafety`, `WorkerSteps`, `LeaseHistory`, `RateBounds` | what holds of the input broker in every run |
| `ControlLaws`, `InputLaws` | who has control after each event, what viewers are told, and which input is posted, said of the events |
| `WorkerLife`, `ViewerReports` | what the server is told about each viewer |
| `MediaNet`, `MediaOutcomes`, `NetworkLoop` | the network half: incarnations, queued tasks, asynchronous removal, and what becomes of each connection |
| `WorkerConduct`, `Protocol`, `PipeConduct` | worker and media-net composed over two first-in first-out pipes: agreement, and what ends a run |
| `ViewerAnswers`, `ViewerFates`, `AnswerPath` | what becomes of each id the server adds, when it uses none twice: nobody is lost, and each answer arrives |
| `PacketWindow`, `AudioTimeline`, `KeyframeLimiter` | fast incremental forms against their plain meaning over the whole history |
| `LineReaders`, `SdpPayload`, `PasswordEntry` | line splitting, payload choice, the password field |

Promises that need a condition, each stated exactly:

- *Decodable video* fails when a frame that cannot be mapped or is over 16 MiB is left out without
  an overflow (media-worker.cpp:639): the next delta frame is then delivered without the frame it
  depends on, unless the worker was bound to skip it. `FrameGuards.DecodesExactlyWhen` gives the
  condition on the encoder's output, sufficient and necessary; `FramePath.LostKeyFrame` is a
  failing run.
- *Caps before buffers* holds for everything GStreamer produces. The code uses the empty text for
  "none sent yet" (media-worker.cpp:628), and `gst_caps_to_string` never returns it;
  `FrameGuards.CapsExactlyWhen` shows that nothing else is relied on.
- *Lines over the limit* are refused by `read_lines` for certain only from limit + 8192 bytes on;
  for every length in between it depends on how the bytes were read (`LineReaders.ReadLines`,
  `LineReaders.InBetweenDepends`).
- *Passwords shown as they are accepted* fails outside ASCII: `normalizePassword` upper-cases
  before it checks, so that a long s (U+017F) is accepted as an S, while the field drops it.
  `PasswordEntry.FormatsToNormalIff` gives the condition, `PasswordEntry.LongS` the input.

## Model

| member | source | states |
|---|---|---|
| Bytes.Put | native/media-worker/src/net-records.hpp:44-51 | the low bytes of the value land in place, least significant first, and no other byte of the buffer changes |
| Bytes.Get | native/media-worker/src/net-records.hpp:52-63 | the shift loop computes the little-endian value of the bytes |
| Bytes.LittleEndianAt | native/media-worker/src/net-records.hpp:44-51 | byte i of the encoding is the value shifted right by 8i, cut to eight bits |
| Bytes.WriteThenRead | native/media-worker/src/net-records.hpp:44-63 | reading back what was written loses nothing while the value fits the width |
| NetRecords.EncodeFrame | native/media-worker/src/net-records.hpp:70-81 | filling a zeroed record in place gives the 32 header bytes and then exactly the payload |
| NetRecords.DecodeInvertsEncode | native/media-worker/src/net-records.hpp:70-100 | decoding the header bytes of any valid header gives that header back |
| NetRecords.DecodeAcceptsOnlyEncodings | native/media-worker/src/net-records.hpp:84-100 | a header is accepted if and only if it is the encoding of a valid one, and it is the encoding of what decoding returns |
| NetRecords.ParseOne | native/media-worker/src/media-net.cpp:745-754 | a valid record in front of any bytes is parsed as itself |
| NetRecords.ParseCut | native/media-worker/src/media-net.cpp:745-754 | a record cut short anywhere is neither delivered nor taken for a malformed one |
| NetRecords.ParsePrefix | native/media-worker/src/media-net.cpp:745-754 | parsing the first n bytes of any list of valid records returns exactly the records that lie wholly within them |
| NetRecords.ParseInputStream | native/media-worker/src/net-records.hpp:113-134 | parsing the concatenation of any valid input records returns exactly that list |
| NetRecords.ParsedInputsAreValid | native/media-worker/src/media-worker.cpp:445-469 | whatever bytes the untrusted process sends, only records with a valid peer id and bounded text get past the reader, and they are the bytes on the wire, in order |
| PipeReaders.Pipe.ReadSome | native/media-worker/src/net-pipes.hpp:132-139 | any positive number of the next bytes, or none exactly at the end |
| PipeReaders.ReadExact | native/media-worker/src/net-pipes.hpp:154-164 | true exactly when enough bytes were left, and then the buffer holds the next ones, however short the reads |
| PipeReaders.ReadFrames | native/media-worker/src/media-net.cpp:745-786 | whatever the boundaries of the reads, passes on the records of its bytes up to the first malformed header or unexpected caps, but for those of a stream the pipeline does not have |
| PipeReaders.AllPassedOn | native/media-worker/src/media-net.cpp:755-774 | with both streams there and all caps as expected, every record is passed on |
| PipeReaders.ChosenAre | native/media-worker/src/media-worker.cpp:445-469 | what a reader passes on is exactly the records it may, each once and in their order |
| PipeReaders.ReadInput | native/media-worker/src/media-worker.cpp:445-469 | the same for input records, stopping at a bad size or peer id and dropping those that arrive with 2048 messages in flight |
| PipeWriter.PipeHoldsWholeRecords | native/media-worker/src/net-pipes.hpp:190-270 | in every interleaving of push, pop, partial write, clear, break and close: the queue's byte count is exact and within the budget, every accepted record is taken, waiting or dropped, and the pipe holds the taken ones whole and in push order, but for the one in hand or the one a failure cut |
| PipeWriter.QueuedWriter.constructor | native/media-worker/src/net-pipes.hpp:228-230 | starts empty, open and unbroken with its budget |
| PipeWriter.QueuedWriter.Push | native/media-worker/src/net-pipes.hpp:235-245 | accepts exactly when open, unbroken and within the budget; otherwise nothing changes |
| PipeWriter.QueuedWriter.Clear | native/media-worker/src/net-pipes.hpp:251-255 | drops all that waits and nothing that was taken |
| PipeWriter.QueuedWriter.Close | native/media-worker/src/net-pipes.hpp:258-261 | refuses pushes from then on and keeps the queue |
| PipeWriter.QueuedWriter.CloseAndJoin | native/media-worker/src/net-pipes.hpp:257-269 | the thread being joined, all that was queued is in the pipe, in order, unless the pipe breaks |
| PipeWriter.QueuedWriter.TakeFront | native/media-worker/src/net-pipes.hpp:204-212 | takes the oldest waiting record, if any, and its size off the count |
| PipeWriter.QueuedWriter.WriteAll | native/media-worker/src/net-pipes.hpp:142-152 | success means the whole record went into the pipe; failure leaves a proper prefix, an empty queue and the writer broken |
| PipeWriter.QueuedWriter.Drain | native/media-worker/src/net-pipes.hpp:201-225 | after close, everything still queued is written in order unless the pipe breaks, and then a proper prefix of it |
| FramePath.ReaderSeesFrames | native/media-worker/src/media-worker.cpp:608-654 | at any moment of any interleaving, the first n bytes of the pipe parse, with no malformed record, to the records of frames of the encoders' own output, in order and without repeats; `FramesReceived.RecordsAreOutputs` says what those records hold |
| FramePath.DecodableIff | native/media-worker/src/media-worker.cpp:618-654 | what is read is decodable (each delta buffer comes right after its encoder predecessor) exactly when no delta read was the encoder's first frame or follows one lost for size or mapping |
| FramePath.CapsAlwaysAgree | native/media-worker/src/media-worker.cpp:598-635 | if no caps are empty, each buffer read is preceded by a caps record of its stream equal to its own caps, with no other caps of that stream since |
| FramePath.LostKeyFrame | native/media-worker/src/media-worker.cpp:637-649 | a run in which a key frame that cannot be sent is dropped silently and its delta frame is delivered |
| FramePath.EmptyCaps | native/media-worker/src/media-worker.cpp:628-635 | a run in which a buffer whose caps are the empty text is delivered with no caps before it |
| FrameGuards.DecodesExactlyWhen | native/media-worker/src/media-worker.cpp:582-654 | behind a queue of any given budget with room for one record, 32 MiB included, an encoder output is decodable in every interleaving if and only if each delta frame in it that can be sent, and is not bound to be skipped, comes right after a frame that can be sent |
| FrameGuards.AlwaysDecodable | native/media-worker/src/media-worker.cpp:598-654 | under that condition all that media-net reads is decodable, through any number of overflows, clears and a broken pipe |
| FrameGuards.CapsExactlyWhen | native/media-worker/src/media-worker.cpp:582-635 | with caps from a given set, behind a queue of any given budget with room for a record, caps agree in every interleaving if and only if the empty text is not among them |
| FramesReceived.RecordsAreOutputs | native/media-worker/src/media-worker.cpp:608-654 | whatever media-net has read, at any moment of any interleaving, parses to whole records: each record of video, and each of audio, carries the data, the delta flag and the duration (0 for none) of one output of that very encoder, with rising numbers per stream |
| FramesReceived.RecordsDecode | native/media-worker/src/media-worker.cpp:582-654 | ... and under the condition of `FrameGuards.DecodesExactlyWhen`, each delta record of video comes right after that of the output before it |
| FramesReceived.RecordsHaveCaps | native/media-worker/src/media-worker.cpp:608-635 | ... and if no caps are the empty text, the last caps record of a stream before each of its buffers, under the caps kind of that stream, carries the caps of that buffer |
| FramesReceived.CapsAreOutputs | native/media-worker/src/media-worker.cpp:625-635 | every caps record read is unflagged and carries the caps of some output of its own stream |
| FramesReceived.SampleIsQueued | native/media-worker/src/media-worker.cpp:608-654 | a sample that can be sent, and is not a delta frame of video that is skipping, is queued at once, unless the writer is closed or broken, its caps are over 4096 bytes, or what is queued leaves no room for it; audio is never skipped |
| FramesReceived.RoomAgain | native/media-worker/src/media-worker.cpp:598-654 | after an overflow the next sample, a key frame if it is video, is queued behind its own caps and nothing else, whatever was queued before |
| FramesReceived.NothingLeftOut | native/media-worker/src/media-worker.cpp:608-654 | in any run without overflow or failure of the pipe, every output of either encoder that can be sent has been taken by the writer or is queued |
| FramePath.FrameSender.NewSample | native/media-worker/src/media-worker.cpp:608-654 | new_sample, with the writer thread running in between, is one run of the system in which exactly this sample arrives and is dealt with completely, so all that `FramesReceived` says is about this code |
| FramePath.FrameSender.FramesOverflowed | native/media-worker/src/media-worker.cpp:598-607 | empties the queue, forgets the caps of both streams and skips video to a key frame |
| FramePath.FrameSender.PushFrame | native/media-worker/src/media-worker.cpp:629-632 | the record of the frame is queued exactly when the writer accepts it; otherwise nothing changes |
| Permission.GrantIsBounded | native/media-worker/src/peer-permission.hpp:13-30 | after a grant, control is allowed at a later time exactly to the named known peer, before now + duration, for 1 to 5000 ms, and without 64-bit overflow |
| Permission.HostInputPermission.GrantLease | native/media-worker/src/host-input-permission.hpp:12-17 | replaces the lease by a bounded one, or by none if refused |
| Permission.PeerPermission.GrantPeer | native/media-worker/src/peer-permission.hpp:13-21 | whatever the outcome, the previous owner is gone |
| Permission.PeerPermission.RevokePeer | native/media-worker/src/peer-permission.hpp:22-27 | revoking anyone but the owner changes nothing |
| BrokerSafety.AtMostOneController | native/media-worker/src/media-worker.cpp:315-335 | in every run, for any messages of media-net: two peers with control are the same peer, it owns the lease, and it is not being removed |
| BrokerSafety.HeldIsLastPost | native/media-worker/src/media-worker.cpp:242-265 | in every run the held keys and buttons are exactly the codes whose last successful post was a press |
| BrokerSafety.OnlyWhatIsDownIsLifted | native/media-worker/src/media-worker.cpp:258-265 | a release is posted on the worker's own account only for a key or button that is down |
| BrokerSafety.NothingStaysPressed | native/media-worker/src/media-worker.cpp:315-324 | in every run in which lifting succeeds, nothing is pressed whenever no peer has control |
| LeaseHistory.OwnerIffGranted | native/media-worker/src/media-worker.cpp:1078-1106 | after any events the lease belongs to a viewer if and only if a grant named it while it was there, on a source with video, and since then no grant came and no valid withdrawal, removal or failure of it; the lease then ends when that grant said |
| LeaseHistory.AllowedIffGranted | native/media-worker/src/media-worker.cpp:326-335 | control is allowed to a viewer at a time exactly while such a grant is in force and has not run out |
| LeaseHistory.WithdrawnIsPowerless | native/media-worker/src/media-worker.cpp:1078-1106 | after a withdrawal, a removal or a failure of a viewer it has neither the lease nor control, until a later grant names it |
| LeaseHistory.LeaseKept | native/media-worker/src/media-worker.cpp:368-442 | no event but a grant by the server changes the lease, except to end it |
| LeaseHistory.PostsAreLeased | native/media-worker/src/media-worker.cpp:384-432 | every input event posted for a viewer comes from that viewer's own message, checked at a time t with g <= t < g + lease <= g + 5000 for a grant to it, at g, since which neither a grant nor a withdrawal, removal or failure of it has come |
| RateBounds.RateIsBounded | native/media-worker/src/media-worker.cpp:403-411 | in any T microseconds one viewer causes at most 1000 * (floor(T / 10^6) + 2) posts, however often it loses and retakes control |
| ControlLaws.ControlExactly | native/media-worker/src/media-worker.cpp:368-442 | after any event of any run a viewer has control if and only if it just asked for it under its lease, or had it and the event is none of those that end it: a lease run out, five seconds of silence, giving it up, more than a thousand input messages in a second, a withdrawal, a removal, a failure, an end, or a closed channel |
| ControlLaws.AskingTakesControl | native/media-worker/src/media-worker.cpp:392-402 | a viewer that asks for control while a grant to it is in force has control |
| ControlLaws.MessagesAreAnswered | native/media-worker/src/media-worker.cpp:368-442 | a viewer whose message is handled is told right away whether it has control now |
| ControlLaws.LossIsTold | native/media-worker/src/media-worker.cpp:315-335 | a viewer that loses control by the server or the clock is told so |
| InputLaws.ControllersAreFresh | native/media-worker/src/media-worker.cpp:326-335 | after each tick of the timer every viewer with control has pinged or asked about control in the last five seconds, and a grant to it is in force |
| InputLaws.SeenAlways | native/media-worker/src/media-worker.cpp:386-402 | what the worker takes for a viewer's last sign of life is the time of its latest ping or control message that was handled, and 0 before the first |
| InputLaws.InputIsPosted | native/media-worker/src/media-worker.cpp:403-432 | input of a viewer that has control, under a grant in force, with a current display, is posted as exactly one more post, as it came, if fewer than 1000 of its input messages were counted in the second before |
| InputLaws.EndLetsGo | native/media-worker/src/media-worker.cpp:1137-1222 | when the display changes, a command is invalid or the main loop is left, nothing stays held unless a lift itself fails, and all but the last stop the source |
| InputLaws.VideoAsStarted | native/media-worker/src/media-worker.cpp:961-1061 | the first start, and nothing else, decides whether there is video, and sends the configuration |
| ViewerReports.AnswersInOrder | native/media-worker/src/media-worker.cpp:753-784 | for any messages of media-net, the server gets at most one answer for a viewer, at most one end, and nothing after the end |
| ViewerReports.ClosedNeverOutnumber | native/media-worker/src/media-worker.cpp:695-718 | peer-closed for an id never outnumbers the removals asked for |
| ViewerReports.RemovalReported | native/media-worker/src/media-worker.cpp:695-718 | each removal asked for is followed by a peer-closed, or the worker still waits for media-net about it |
| WorkerLoop.MediaWorker.constructor | native/media-worker/src/media-worker.cpp:1137-1138 | starts with no source, peer, lease or held key |
| WorkerLoop.MediaWorker.PostInput | native/media-worker/src/media-worker.cpp:242-257 | the held sets follow successful posts only |
| WorkerLoop.MediaWorker.ReleaseHeld | native/media-worker/src/media-worker.cpp:258-265 | walking copies lifts each held key, then each held button, once |
| WorkerLoop.MediaWorker.RevokePeer | native/media-worker/src/media-worker.cpp:315-324 | lifts what is held only if the peer had control, ends its control, and tells it if asked to |
| WorkerLoop.MediaWorker.EnforcePermission | native/media-worker/src/media-worker.cpp:326-335 | the loop over all peers, in whatever order, revokes the one controller that is silent for 5 seconds or has no lease, and nobody else |
| WorkerLoop.MediaWorker.InputMessage | native/media-worker/src/media-worker.cpp:368-442 | the whole handling of a viewer's message, ending in its control state |
| WorkerLoop.MediaWorker.TakeControl | native/media-worker/src/media-worker.cpp:392-402 | control exactly if the lease allows it and it is wanted; the loop that would revoke the others never finds one |
| WorkerLoop.MediaWorker.Perform | native/media-worker/src/media-worker.cpp:403-432 | input counts against its one-second window and is posted within the limit; beyond it, control ends |
| WorkerLoop.MediaWorker.ControlPermission | native/media-worker/src/media-worker.cpp:1078-1106 | a grant or its withdrawal, then enforcement; invalid members lift what is held and end the source |
| WorkerLoop.MediaWorker.AddPeer | native/media-worker/src/media-worker.cpp:674-694 | refused, waiting (at most 64) or forwarded with a fresh record |
| WorkerLoop.MediaWorker.RemovePeer | native/media-worker/src/media-worker.cpp:695-718 | forgets a waiting viewer, reports an unknown one, or begins one removal, owing the report |
| WorkerLoop.MediaWorker.NetMessage | native/media-worker/src/media-worker.cpp:722-827 | each message has its effect only in the states in which it may, and a second net-ready ends the source |
| WorkerLoop.MediaWorker.Dispatch | native/media-worker/src/media-worker.cpp:1062-1178 | every event of the main loop, and of leaving it, does what the state machine says |
| WorkerLoop.MediaWorker.Session | native/media-worker/src/media-worker.cpp:1137-1222 | from the start, any sequence of events leads the code to the state of the run, so all run theorems are about this code |
| MediaNet.ReportsInOrder | native/media-worker/src/media-net.cpp:187-193 | about one incarnation media-net reports at most an answer, a failure and its end, each once and in this order |
| MediaNet.ClosedIffGone | native/media-worker/src/media-net.cpp:389-452 | an incarnation has been reported closed exactly when it is gone |
| MediaNet.OnlyItsIncarnation | native/media-worker/src/media-net.cpp:177-181 | even when ids are reused, a queued task, failure or unlink leaves any other incarnation as it was and says nothing about it |
| MediaOutcomes.AnsweredIff | native/media-worker/src/media-net.cpp:301-328 | in any run media-net reports an answer for an incarnation if and only if gathering was once complete while it was there and not leaving, with the description of the first such moment and no other |
| MediaOutcomes.FailedIff | native/media-worker/src/media-net.cpp:187-193 | it reports a failure of an incarnation if and only if its pads failed to link when it was made, or it failed while it was there and not leaving |
| MediaOutcomes.ClosedIff | native/media-worker/src/media-net.cpp:389-452 | it reports an incarnation closed if and only if it was made, has failed or been asked to go, and since then exactly as many unlinks came as it was made with pads |
| MediaOutcomes.MadeIsThere | native/media-worker/src/media-net.cpp:453-611 | an incarnation that was made is there until then, and is leaving exactly once it failed or was asked to go |
| NetworkLoop.NetworkProcess.RemovePeer | native/media-worker/src/media-net.cpp:430-452 | one unlink to wait for per pad, or the end at once if there is none; a second removal changes nothing |
| NetworkLoop.NetworkProcess.FailPeer | native/media-worker/src/media-net.cpp:187-193 | reports a failure once and starts the removal |
| NetworkLoop.NetworkProcess.AddPeer | native/media-worker/src/media-net.cpp:453-611 | refused, with or without using up an index, or recorded under a new index, and failed if its pads do not link |
| NetworkLoop.NetworkProcess.SendAnswer | native/media-worker/src/media-net.cpp:301-328 | answers once, when gathering is complete, for the incarnation it was queued for |
| NetworkLoop.NetworkProcess.UnlinkDone | native/media-worker/src/media-net.cpp:417-426 | the last unlink of an incarnation destroys it |
| NetworkLoop.NetworkProcess.Command | native/media-worker/src/media-net.cpp:685-718 | a command with an invalid id, a second configuration, or one that is refused, ends the process |
| NetworkLoop.NetworkProcess.Load | native/media-worker/src/media-net.cpp:844-930 | ready for commands once everything has loaded, or fatal before that |
| NetworkLoop.NetworkProcess.BusError | native/media-worker/src/media-net.cpp:274-289 | an error fails the viewer it belongs to, and one that belongs to none ends the process |
| NetworkLoop.NetworkProcess.Session | native/media-worker/src/media-net.cpp:827-935 | from launch, any sequence of commands, callbacks and ends leads the code to the state of the run |
| Protocol.SidesAgree | native/media-worker/src/media-worker.cpp:669-718 | with ids not reused: when both pipes are empty and no unlink is pending, worker and media-net know the same viewers and none is half removed |
| Protocol.EveryRemovalReported | native/media-worker/src/media-worker.cpp:736-784 | and by then every removal the server asked for is followed by a peer-closed, through failures crossing removals and viewers removed while waiting |
| ViewerAnswers.AnsweredOnce | native/media-worker/src/media-worker.cpp:753-763 | with ids not reused, the server gets at most one answer for an id |
| ViewerAnswers.NoAnswerAfterEnd | native/media-worker/src/media-worker.cpp:764-784 | and none for an id that has been added and then reported failed or closed |
| ViewerFates.NobodyIsLost | native/media-worker/src/media-worker.cpp:669-827 | with ids not reused, while the worker is up: whoever was added waits, is a peer, or has been reported failed or closed |
| ViewerFates.AddedIsTaken | native/media-worker/src/media-worker.cpp:674-694 | a viewer with a valid id that is added becomes a peer if media-net is ready, and otherwise waits, behind the others, while fewer than 64 do |
| ViewerFates.WaitersAreAdded | native/media-worker/src/media-worker.cpp:751-752 | when media-net is ready, everyone who waited with a valid id is a peer |
| ViewerFates.PeersAreSentOnce | native/media-worker/src/media-worker.cpp:674-694 | each peer has been sent to media-net by exactly one add-peer command, with the offer that the server made for it |
| AnswerPath.DeliveredIsMade | native/media-worker/src/media-net.cpp:453-611 | whenever media-net takes an add-peer command of this worker and accepts it, it makes a connection with the pads it was accepted with: it has been configured by then, and does not know the id |
| AnswerPath.AnswersArrive | native/media-worker/src/media-worker.cpp:753-763 | once nothing is under way, an answer of 1 to 65536 characters, gathered for a viewer, has been told to the server with that text, unless the viewer has been reported failed or closed |
| AnswerPath.AnswersAreGathered | native/media-worker/src/media-worker.cpp:753-763 | at any time, whatever the server has been told as an answer for an id is the description that was gathered for a connection of that id |
| AnswerPath.FirstViewer | native/media-worker/src/media-net.cpp:685-935 | a run in which a viewer waits, is sent on, made and answered, and both sides come to rest |
| Protocol.ArrivalsRunOut | native/media-worker/src/media-net.cpp:389-452 | each message or unlink that arrives leaves strictly less under way, whatever it causes |
| PipeConduct.NetEndsByItself | native/media-worker/src/media-net.cpp:286-288 | in every run, media-net has ended if and only if it could not load, was refused its configuration, had a pipeline error of no viewer, or ended silently (with a pipe, or unable to give up privileges); and something fatal was reported if and only if one of the first three happened: no other command of this worker ends it |
| PipeConduct.WorkerEnds | native/media-worker/src/media-worker.cpp:722-827 | a report ends the worker if and only if it is fatal; otherwise only the server or the outside does |
| PipeConduct.ReachesQuiet | native/media-worker/src/media-worker.cpp:722-827 | from any moment of a started run with media-net ready and up, letting what is under way arrive, with the configuration accepted, ends nothing and reaches the state in which both sides agree and every removal is reported |
| PacketWindow.WindowIsRecent | native/media-worker/src/transport-telemetry.hpp:16-23 | the window after a packet is exactly the packets less than its width older, as a suffix that holds at least the packet |
| PacketWindow.Counters.Add | native/media-worker/src/transport-telemetry.hpp:12-40 | with nondecreasing times each deque is the last 8192 of its window, each sum that of its deque, and counts, peaks and truncations those of the whole history |
| PacketWindow.Counters.Merge | native/media-worker/src/transport-telemetry.hpp:41-51 | reports the totals and the peaks since the last report, and starts the peaks again |
| PacketWindow.ShortWithinLong | native/media-worker/src/transport-telemetry.hpp:12-40 | the 1 ms deque is always a suffix of the 10 ms one |
| PacketWindow.UntruncatedIsExact | native/media-worker/src/transport-telemetry.hpp:24-33 | a packet leaves `truncated` alone exactly when the 10 ms deque is the whole window; then the 1 ms one is too |
| PacketWindow.PeakIsMaximum | native/media-worker/src/transport-telemetry.hpp:38-39 | a peak is reached by some packet since the last merge and passed by none |
| PacketWindow.SumsFit | native/media-worker/src/transport-telemetry.hpp:10-11 | no sum over a deque wraps around 64 bits while packets are below 2^51 bytes |
| AudioTimeline.NeverWanders | native/media-worker/src/audio-timeline.hpp:38-53 | between two settings of the timeline every stamp is the first one plus the floor of all samples since, times 10^9 / rate |
| AudioTimeline.NearTheClock | native/media-worker/src/audio-timeline.hpp:40-47 | every stamp is within the drift allowance of the clock, or within the chunk's length where the timeline was set |
| AudioTimeline.FollowsOn | native/media-worker/src/audio-timeline.hpp:26-28 | a chunk given by its samples starts 0 or 1 ns after the previous one's end |
| AudioTimeline.SameByDuration | native/media-worker/src/audio-timeline.hpp:26-33 | next_duration and next agree if and only if duration * rate is a multiple of 10^9 |
| AudioTimeline.JitterNeverBreaks | native/media-worker/src/audio-timeline.hpp:38-53 | chunks of any lengths arriving within J of their ideal end, whose samples take at most drift - 1 - 2J less what the first one's length is off by, never break the timeline, in runs of any length |
| AudioTimeline.StampsIncrease | native/media-worker/src/audio-timeline.hpp:38-53 | in any run, at no more than 10^9 samples per second, a chunk with a sample is stamped before the next one unless the timeline is set again |
| AudioTimeline.PunctualStampsIncrease | native/media-worker/src/audio-timeline.hpp:38-53 | in a run of punctual chunks, each with a sample, all stamps strictly increase |
| AudioTimeline.ProductFits | native/media-worker/src/audio-timeline.hpp:51 | samples * 10^9 fits 64 bits exactly up to 9223372036 samples |
| AudioTimeline.AudioStamper.Advance | native/media-worker/src/audio-timeline.hpp:38-53 | the code computes the stamp and the next state that the theorems are about |
| AudioTimeline.AudioStamper.Next | native/media-worker/src/audio-timeline.hpp:26-28 | advances by a number of samples, its length rounded down |
| AudioTimeline.AudioStamper.NextDuration | native/media-worker/src/audio-timeline.hpp:31-33 | advances by a length, its samples rounded down |
| KeyframeLimiter.AtMostOnePerInterval | native/media-worker/src/keyframe-limiter.hpp:6-19 | in any L ms at most floor(L / 500) + 1 join and floor(L / 2000) + 1 recovery requests are let through |
| KeyframeLimiter.RefusedSoonAfter | native/media-worker/src/keyframe-limiter.hpp:9-14 | each refusal lies less than 500 ms, for a join, or 2000 ms, for a recovery, after an accepted request of its kind |
| KeyframeLimiter.NoOverflow | native/media-worker/src/keyframe-limiter.hpp:7-10 | the subtraction stays within 64 bits, the initial value included |
| KeyframeLimiter.Limiter.JoinFrame | native/media-worker/src/keyframe-limiter.hpp:17 | join requests touch only their own limit |
| KeyframeLimiter.Limiter.RecoveryFrame | native/media-worker/src/keyframe-limiter.hpp:18 | recovery requests touch only their own limit |
| LineReaders.ReadLines | native/media-worker/src/net-pipes.hpp:168-186 | delivers a prefix of the newline-terminated lines; all of them and true if no line or tail exceeds the limit; false if the tail exceeds it or a line reaches limit + 8192 |
| LineReaders.InBetweenDepends | native/media-worker/src/net-pipes.hpp:168-186 | for every line length in between, the same bytes are accepted or refused depending on the reads alone |
| LineReaders.ReadLinesSkipping | apps/macos-host/VidVNC/Server/ServerProcess.swift:197-222 | under every chunking each line within the maximum is delivered whole and in order, longer ones whole or not at all, and the final unterminated one if it is not empty |
| LineReaders.SplitMeaning | native/media-worker/src/net-pipes.hpp:168-186 | the lines with their newlines, and the tail, are the text, and none holds a newline |
| LineReaders.KeptAre | apps/macos-host/VidVNC/Server/ServerProcess.swift:197-222 | the lines delivered are exactly those kept, each once and in order |
| LineReaders.KeptInOrder | apps/macos-host/VidVNC/Server/ServerProcess.swift:197-222 | a kept line comes right after all kept lines before it, whatever was discarded around it |
| SdpPayload.StrstrCi | native/media-worker/src/sdp-payload.hpp:42-61 | finds the needle exactly if it occurs somewhere, up to ASCII case |
| SdpPayload.RtpmapPayload | native/media-worker/src/sdp-payload.hpp:13-22 | the one to three digits before the first space, if they are at most 127, and nothing otherwise |
| SdpPayload.FmtpProfileOk | native/media-worker/src/sdp-payload.hpp:67-89 | true exactly if the key is absent or its last occurrence has the value |
| SdpPayload.TokensMeaning | native/media-worker/src/sdp-payload.hpp:67-89 | the parameters are the text cut at every semicolon: joined again they give the text, and none holds one |
| SdpPayload.SelectPayloads | native/media-worker/src/sdp-payload.hpp:95-147 | the nested loops with their early exits make the declared choice: the last match for H.264, the first acceptable payload of the last video section that has one otherwise, and the first Opus payload |
| SdpPayload.ChoiceUnique | native/media-worker/src/sdp-payload.hpp:91-94 | an offer has only one declared video choice, so the result is pinned down |
| SdpPayload.H264ChosenIff | native/media-worker/src/sdp-payload.hpp:95-125 | for H.264 something is chosen if and only if some video section maps a payload to H264/90000 and an fmtp of it holds packetization-mode=1 and profile-level-id=42e0 |
| SdpPayload.H265ChosenIff | native/media-worker/src/sdp-payload.hpp:95-147 | for H.265 if and only if some video section maps a payload to H265/90000, in any case, and its first fmtp, if any, leaves profile-id out or sets it last to 1 |
| SdpPayload.AV1ChosenIff | native/media-worker/src/sdp-payload.hpp:95-147 | for AV1 likewise, with profile left out or set last to 0 |
| SdpPayload.OpusChosenIff | native/media-worker/src/sdp-payload.hpp:138-141 | an audio payload is chosen if and only if some audio section maps one to opus/48000, whatever follows |
| SdpPayload.ChoiceIsPayload | native/media-worker/src/sdp-payload.hpp:11-12 | whatever is chosen is empty or one to three digits of value at most 127 |
| PasswordEntry.AcceptedSymbols | apps/web-client/src/password-entry.js:15-33 | as many symbols are kept as there is room for, all of them symbols of the value, with one gap at most, before the caret |
| PasswordEntry.PasteKeepsOld | apps/web-client/src/password-entry.js:15-37 | inserting any text between old symbols A and B of at most eight gives A, as much of the text as fits, and B, with the caret after the kept part |
| PasswordEntry.CaretMonotone | apps/web-client/src/password-entry.js:26-31 | carets stay inside what is shown and keep their order |
| PasswordEntry.FormatIdempotent | apps/web-client/src/password-entry.js:34-37 | formatting what is shown changes nothing, wherever the caret is |
| PasswordEntry.FormatsToNormalIff | apps/web-client/src/password-entry.js:2-37 | a text accepted as a password is shown as its normal form if and only if it is ASCII but for the space around it |
| PasswordEntry.LongS | apps/web-client/src/password-entry.js:2-13 | a long s is accepted as an S and not shown |
| PasswordEntry.SegmentedSelection | apps/web-client/src/password-entry.js:38-41 | a selection stays one, inside the same text a caret at its end gives |
| PasswordEntry.NormalizeIdempotent | apps/web-client/src/password-entry.js:2-9 | a normal form is accepted and is its own normal form |
| PasswordEntry.EverySpelling | apps/web-client/src/password-entry.js:2-9 | every code of eight symbols of the alphabet is accepted with or without its dash, in either case and with any space around it, and has one normal form |

## Left out

- GStreamer, webrtcbin, encoders, pads, RTP and the OS sandbox: foreign; the model has only their outcomes (a viewer or a configuration refused, pads that fail to link, gathering complete, a pad unlinked, an error on the bus). That the first answer starts the pipeline playing is not modelled either.
- JSON on the control pipes: messages are typed; one that does not parse is the event that ends the source, and a command member out of range stands for any invalid member.
- Key-code, codec and backend tables, rate control, display scaling, settings, manifests and user interfaces: fixed data, I/O or single decisions.
- `stream-subscriptions.js`: it depends on callers that are not part of this model.
- Teardown: every fatal path of the worker, a full command queue and the end of media-net's pipe included, is one absorbing state from which leaving the main loop lifts what is held.
- Worker.Stop: takes effect at once; the source's main loop may still dispatch what was ready in the same iteration as the fatal event.
- The `control-result` and `port-owned` replies, metrics and log lines: they change no state.
- The early return of `new_sample` without buffer, caps or network process: no sample arrives then.
- A read error: taken as the end of the pipe, as the code does.
- Which process a clock is read in: the readings are parameters of each event, nondecreasing over a run. Within one message the clock is read as often as the code's distinct decisions need.
- Worker.Enforce: names the one controller to revoke instead of walking the map, because at most one exists; `WorkerLoop.MediaWorker.EnforcePermission` has the loop.
- MediaNet.Add: `next_peer_index` does not wrap around 32 bits.
- Protocol.SidesAgree: assumes, as do `ViewerAnswers`, `ViewerFates` and `AnswerPath`, that the server never adds an id twice, as the composed worker relies on; `MediaNet` and `ViewerReports` do without.
- FrameGuards.CapsExactlyWhen: ranges over sets of caps; for two given outputs, whether an empty text would go wrong also depends on which sizes can make the queue overflow.
- AudioTimeline.AudioStamper.Advance: unbounded integers; `ProductFits` is the exact bound of the 64-bit product, over two days at 48 kHz without a pause.
- PacketWindow.Counters.Add: unbounded sums, see `SumsFit`; the code empties both deques before it fills them, here one deque is finished before the other.
- PasswordEntry.AcceptSymbols: positions count characters; JavaScript counts UTF-16 units, two of them for a character beyond U+FFFF.
- PasswordEntry.UpperText: names the ten characters outside ASCII that upper-case to ASCII letters; any other stands for itself. The editing of the page itself (`bindPasswordEntry`) is not modelled.
