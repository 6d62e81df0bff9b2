# The MyKVM control core, in Dafny

MyKVM Local lets one machine's keyboard and mouse drive another machine.  Its control core
is a set of small state machines: a gate that any thread can close, a router with deadlines,
two handshakes, a runtime that couples them, a client on a transport that may fail, stream
decoders, a motion mailbox, byte budgets, a ledger of pressed keys, the receiver's session runtime, a clipboard register,
and the geometry of screens.  This project models them and proves what they keep.

`dafny verify dfyconfig.toml` checks everything.

## How the model is laid out

Each stateful entity appears twice.  A value datatype has one function per operation; a class
whose fields are the program's has one method per operation, and each method's `ensures` equates
the object's `View()` with that function applied to the old view, so a body that skips a step
or takes another branch no longer meets its contract.  The theorems are about arbitrary runs
of the value form.  Where such a function decides what leaves the program (a frame, an injected
command, a copy, a place on the screen) or when something happens, a theorem says so without
it: from the run's own events, or by a reference definition stated separately.

Whatever the program cannot decide is a parameter that nothing constrains: answers of the
capture and focus ports, outcomes of transport calls, the random source, clock readings, and
the number of times hook threads ask for local control before each single access to the
shared gate word (`Hooks`).

| files | what they hold |
|---|---|
| `Base` | machine words, options, the protocol's text rule |
| `Gates`, `Routing`, `RouterRuns`, `Timings` | the atomic word, the router, every run of it under any interleaving with hooks, and exactly when a handoff goes on |
| `Handshakes`, `Links` | both handshakes; one connection over two FIFO channels that may be cut anywhere |
| `Runtime`, `RuntimeRuns`, `Agreements`, `Worlds` | the runtime, its coupling invariant, and the handoff between the two handshakes over many connections |
| `Inputs`, `InputRuns` | the receiver's input gate; numbering, cross references and contents of both input streams |
| `Clients`, `ClientRuns`, `Sendings`, `SecondAcks`, `LastNumbers` | the client, exactly when it fails closed, what it puts on the wire, and runs after which it does not close |
| `Framing` | length-prefixed framing and the incremental decoders |
| `Mailbox`, `Budgets`, `Rates` | the transport's shared primitives |
| `Pressed` | the ledger of held keys and buttons against the machine it drives |
| `Receivers`, `ReceiverRuns`, `Partings` | the receiver's session runtime with an injector that may fail, what it keeps over every run, and the runs in which it and its handshake part |
| `Lines`, `Handoffs` | the whole handoff as deployed: controller runtime and session runtime, with everything else that happens to either |
| `Leases`, `Sessions`, `Injections` | when the receiver's session ends for silence, how it begins and ends at all, and what reaches its machine, where |
| `Deliveries` | sender and receiver of input together: what one issues, the other takes |
| `Systems` | handoff and input together, from the hand to the machine: the input that the controller of a handoff issues, and what becomes of it at the receiver |
| `Clipboard`, `ClipboardRuns` | the last-writer-wins register, alone, in a network, and beside the system clipboard |
| `Layouts`, `Placements` | dragging screens, and where they end up |
| `Cursors`, `Crossings` | the cursor that crosses between machines, and exactly when it does |

## Where a plain reading of the code is wrong

* A `CommitAck` that arrives while a session is open makes the client drop its transport, but
  leaves the gate remote and the session open until the next send fails
  (`SecondAcks.SecondAckLeavesTheGateRemote`).  `ClientRuns.FrameOk`, `DrainOk` and `PollOk`
  tell from the state before the call exactly when; in an open session the frames that wait
  and arrive decide alone (`ClientRuns.DrainInSession`).
* In an open session a click or a scroll before the first motion is an error that ends nothing
  (`LastNumbers.ClickBeforeTheFirstMotion`): a click right after crossing is one.
* So are the input, the motion and the ping after the last number of their kind
  (`LastNumbers.NumbersRunOut`, `LastNumbers.LastPingLeavesTheSessionOpen`; `ClientRuns.PingOk`
  and `PollOk` are exact about pings).
* Those, a begin or an input while a handoff is under way, and an acknowledgement before the
  peer is ready are all: `ClientRuns.FailsClosed` is an equivalence.
* The limit of 128 control frames per second lets 256 through within one second that spans the
  start of a window (`Rates.TwiceTheLimitPasses`); 256 is also the most (`Rates.AnySecond`),
  and `Rates.LimitHoldsExactlyWhen` says after which batches a second keeps the limit.
* A Lamport counter at its limit lets the clipboard register go back
  (`Clipboard.SaturationGoesBack`; the exact condition is in `Clipboard.NewOperationIsAbove`).
* The input gate refuses the largest sequence number although it is the one it waits for
  (`Inputs.AcceptsInOrder` is exact about it).
* A commit that arrives while a release is still owed moves the receiver's handshake into a
  session that its runtime refuses to open (`Partings.HandshakeGetsAhead` is such a run), and
  so does a commit that names the session that ended last (`Partings.HandshakeRevivesASession`).
  `ReceiverRuns.CommitOpensExactlyWhen` says that there is no third way.
* A preparation that the receiver's handshake refuses still changes the display that the next
  session opens on (`Partings.RefusedPreparationChangesTheDisplay`);
  `Sessions.OpensOnTheAcceptedDisplayExactlyWhen` is exact about it.  No controller of this
  program sends one.
* A pointer event off the receiver's display is refused before the input gate, and with its
  stream the session ends (`Deliveries.CriticalsRefusedExactlyWhen`).
* A decoder that could not decode a payload keeps it and fails on every later chunk
  (`Framing.AfterAnError`); a framed payload does that if and only if it cannot be decoded
  (`Framing.SticksExactlyWhen`, with five bytes that do in `Framing.ReservedByteSticks`).

## Model

| member | source | states |
|---|---|---|
| Gates.LocalOverride.constructor | src-tauri/src/routing.rs:15-21 | a fresh word is local, generation 1, with an empty history |
| Gates.LocalOverride.IsLocal | src-tauri/src/routing.rs:24-27 | local is the low bit of the word |
| Gates.LocalOverride.RequestLocal | src-tauri/src/routing.rs:29-35 | one atomic step to the next generation, saturating, always local |
| Gates.LocalOverride.Reserve | src-tauri/src/routing.rs:37-46 | a strictly newer local generation, or none when the space is used up |
| Gates.LocalOverride.StillPreparing | src-tauri/src/routing.rs:48-50 | true exactly while the word is the reserved generation |
| Gates.LocalOverride.Activate | src-tauri/src/routing.rs:52-63 | compare-and-exchange: remote only if nothing happened since the reservation |
| Gates.HookedConsistent | src-tauri/src/routing.rs:29-35 | any number of hook requests leaves a legal history, a local word and a later generation, and nothing else |
| Gates.GenerationNeverDecreases | src-tauri/src/routing.rs:23-64 | in every interleaving the generation never goes back |
| Gates.RequestsOvertake | src-tauri/src/routing.rs:29-46 | a request or reservation strictly retires every older generation |
| Gates.LocalRequestWins | src-tauri/src/routing.rs:29-63 | once any thread asked for local control after generation g was reserved, g is never activated |
| Gates.NewestReservationWins | src-tauri/src/routing.rs:37-63 | a later reservation is larger and the older one is never activated after it |
| Gates.ActivatedAtMostOnce | src-tauri/src/routing.rs:52-63 | a generation is activated at most once |
| Gates.StaysRemoteOrMovesOn | src-tauri/src/routing.rs:23-64 | after activating g the word stays there or moves past g, never back |
| Gates.RemoteMeansJustActivated | src-tauri/src/routing.rs:23-64 | a remote word was written by the very last event |
| Gates.ExhaustedStaysLocal | src-tauri/src/routing.rs:29-63 | at the largest word the gate stays local for ever |
| Routing.Router.constructor | src-tauri/src/routing.rs:136-145 | starts on the local desktop, on the gate it was given |
| Routing.Router.SetGameMode | src-tauri/src/routing.rs:164-169 | changes the local mode, at once when local |
| Routing.Router.GoRemote | src-tauri/src/routing.rs:171-220 | new state, port calls, effects and error for every state, port answer and hook interleaving |
| Routing.Router.Ready | src-tauri/src/routing.rs:222-241 | accepts a session only for the current request, and never another one |
| Routing.Router.Advance | src-tauri/src/routing.rs:243-303 | deadlines, key samples, focus and commit, with hooks before each gate access |
| Routing.Router.CommitAck | src-tauri/src/routing.rs:305-350 | activates only the committed session in time and if no hook intervened |
| Routing.Router.GoLocal | src-tauri/src/routing.rs:352-373 | local gate, one restore if it was not local, and the matching end or cancel |
| RouterRuns.StepOk | src-tauri/src/routing.rs:136-373 | every operation keeps the router's invariant, only extends the gate's history and reserves only in go_remote |
| RouterRuns.RunOk | src-tauri/src/routing.rs:136-373 | the router's invariant holds after every run |
| RouterRuns.CaptureConserved | src-tauri/src/routing.rs:171-220 | prepared captures equal restored ones plus one exactly when not local; ReturningLocal is never seen |
| RouterRuns.RemoteGateMeansActive | src-tauri/src/routing.rs:305-350 | a remote gate means an active router and the activation of the request reserved last |
| RouterRuns.LocalRequestEndsRequest | src-tauri/src/routing.rs:15-64 | after a local request the gate never points to the peer for an earlier request |
| RouterRuns.PreparationWasOpened | src-tauri/src/routing.rs:171-220 | a preparation was opened by one go_remote whose clock set both deadlines, and no focus was asked for before the commit |
| RouterRuns.SeenMeansSampledInTime | src-tauri/src/routing.rs:243-271 | the released flag means an in-time sample and released samples ever since |
| RouterRuns.KeyReleaseRule | src-tauri/src/routing.rs:243-301 | a commit needs an in-time released sample, only released samples since, the handoff deadline, and exactly one focus call |
| RouterRuns.CommittedAtMostOnce | src-tauri/src/routing.rs:243-301 | a request is committed at most once |
| RouterRuns.SpentForever | src-tauri/src/routing.rs:136-373 | a committed or abandoned request never becomes committable again |
| RouterRuns.ActivatedAtMostOncePerRequest | src-tauri/src/routing.rs:305-350 | two activations of capture belong to different requests |
| RouterRuns.HeldSampleReturnsLocal | src-tauri/src/routing.rs:243-271 | a key held between commit and acknowledgement returns control at once |
| Timings.RouteRemembers | src-tauri/src/routing.rs:171-301 | a preparation's deadlines are those of the clock it was asked at, and its flag is what the last key sample saw |
| Timings.LocalModeIsTheUsers | src-tauri/src/routing.rs:136-373 | a user who is local is in the mode chosen last, whatever happened in between |
| Timings.AskExactly | src-tauri/src/routing.rs:171-220 | asking for a peer from home starts a preparation for it if and only if the name is valid, deadlines and a number exist, capture can be prepared and nobody wants control back |
| Timings.AdvanceExactly | src-tauri/src/routing.rs:243-303 | a key sample commits, goes on, or goes home for the reason that comes first, told from when the peer was asked for, the last sample, the clock and the gate |
| Timings.AckExactly | src-tauri/src/routing.rs:305-350 | an acknowledgement takes effect if and only if it is for the committed session, in time, nobody wants control back and capture starts; a foreign one changes nothing, any other goes home for the reason that comes first |
| Handshakes.GenerateSession | src-tauri/src/protocol_v2.rs:141-157 | a session of both boots with a non-zero nonce, or the random source's failure |
| Handshakes.ValidControl | src-tauri/src/protocol_v2.rs:630-725 | exactly which control frames are valid |
| Handshakes.ControllerHandshake.New | src-tauri/src/protocol_v2.rs:775-789 | succeeds exactly for a non-zero boot and a valid peer id, and says which was wrong |
| Handshakes.ControllerHandshake.Begin | src-tauri/src/protocol_v2.rs:791-823 | greets and prepares from rest, refuses everything else unchanged |
| Handshakes.ControllerHandshake.Handle | src-tauri/src/protocol_v2.rs:825-896 | the controller's transition for every state and frame, with its error |
| Handshakes.ControllerHandshake.Commit | src-tauri/src/protocol_v2.rs:915-928 | commits only the prepared pair |
| Handshakes.ControllerHandshake.Ping | src-tauri/src/protocol_v2.rs:930-942 | the next ping number of the active session, until the numbers run out |
| Handshakes.ControllerHandshake.Abort | src-tauri/src/protocol_v2.rs:948-950 | ended, without a frame |
| Handshakes.ControllerHandshake.End | src-tauri/src/protocol_v2.rs:952-961 | ends the active session with a valid frame, or changes nothing |
| Handshakes.ReceiverHandshake.New | src-tauri/src/protocol_v2.rs:1022-1030 | succeeds exactly for a valid trusted peer id |
| Handshakes.ReceiverHandshake.AbortActive | src-tauri/src/protocol_v2.rs:1032-1040 | ends exactly the named active session |
| Handshakes.ReceiverHandshake.Handle | src-tauri/src/protocol_v2.rs:1042-1179 | the receiver's transition, reply and error for every state and frame |
| Links.ReceiverFollows | src-tauri/src/protocol_v2.rs:1042-1179 | the receiver answers each frame of a controller's script as expected and refuses none unless it aborted |
| Links.ReceiverTakesInv | src-tauri/src/protocol_v2.rs:1042-1179 | delivery to the receiver keeps the two-party invariant |
| Links.ExpectedReply | src-tauri/src/protocol_v2.rs:825-896 | the next reply in the channel is always the one the controller waits for |
| Links.ControllerFollows | src-tauri/src/protocol_v2.rs:825-896 | the controller takes the reply it waits for, and refuses one only for want of randomness |
| Links.ReceiveInv | src-tauri/src/protocol_v2.rs:825-896 | delivery to the controller keeps the two-party invariant |
| Links.OperateInv | src-tauri/src/protocol_v2.rs:791-961 | every operation of the controller keeps the two-party invariant |
| Links.CutsInv | src-tauri/src/protocol_v2.rs:775-1179 | losing any tail of either channel keeps the two-party invariant |
| Links.ReceiverAbortsInv | src-tauri/src/protocol_v2.rs:1032-1040 | a local abort keeps the two-party invariant |
| Links.ActiveMeansAgreed | src-tauri/src/protocol_v2.rs:825-1179 | an active controller has a receiver in, or aborted out of, that very session, which carries both boots and the agreed request, display and revision |
| Links.NothingIsRefused | src-tauri/src/protocol_v2.rs:775-1179 | without an abort no frame is refused by the receiver, and no reply before the controller ends |
| Runtime.ControllerRuntime.constructor | src-tauri/src/controller_runtime.rs:44-59 | an idle handshake and a local router on the given gate, nothing pending |
| Runtime.ControllerRuntime.New | src-tauri/src/controller_runtime.rs:36-59 | fails exactly when the handshake cannot be made, with its error |
| Runtime.ControllerRuntime.CanBegin | src-tauri/src/controller_runtime.rs:65-70 | true exactly when the route is local |
| Runtime.ControllerRuntime.IsActive | src-tauri/src/controller_runtime.rs:72-74 | true exactly while the handshake has an active session |
| Runtime.ControllerRuntime.Begin | src-tauri/src/controller_runtime.rs:80-112 | router and handshake begin together, or the router is taken back |
| Runtime.ControllerRuntime.HandleControl | src-tauri/src/controller_runtime.rs:114-192 | router, handshake, pending session, counters and actions after any frame |
| Runtime.ControllerRuntime.Advance | src-tauri/src/controller_runtime.rs:194-206 | the router's effects carried out on the handshake |
| Runtime.ControllerRuntime.GoLocal | src-tauri/src/controller_runtime.rs:208-215 | the way home, with the frames to send |
| Runtime.ControllerRuntime.NextInput | src-tauri/src/controller_runtime.rs:217-252 | the next critical frame of the session, stamped with the latest motion; that it carries the event it was given is InputRuns.LogIsWhatWasDone |
| Runtime.ControllerRuntime.NextMotion | src-tauri/src/controller_runtime.rs:254-279 | the next motion frame, naming the critical frames issued before it |
| Runtime.ControllerRuntime.Ping | src-tauri/src/controller_runtime.rs:281-286 | the handshake's ping as an action |
| Runtime.ControllerRuntime.RouteEffects | src-tauri/src/controller_runtime.rs:288-337 | all effects in order, up to the first that fails |
| Runtime.ControllerRuntime.OneEffect | src-tauri/src/controller_runtime.rs:294-335 | one effect on handshake, pending session and counters |
| Runtime.ControllerRuntime.FailLocal | src-tauri/src/controller_runtime.rs:339-346 | local, aborted, nothing pending |
| Runtime.ControllerRuntime.EndAfterFailedAck | src-tauri/src/controller_runtime.rs:348-362 | local, and the end of the session is still announced |
| RuntimeRuns.EffectFits | src-tauri/src/controller_runtime.rs:288-337 | every effect finds the handshake where it needs it: no error branch can be taken |
| RuntimeRuns.ReadyCoupled | src-tauri/src/controller_runtime.rs:120-139 | a Ready keeps router, handshake and pending session in agreement, and an error ends local |
| RuntimeRuns.AckCoupled | src-tauri/src/controller_runtime.rs:140-170 | a CommitAck keeps the agreement, and any error but NotActive ends local |
| RuntimeRuns.AckFailureRests | src-tauri/src/controller_runtime.rs:348-362 | a late or cancelled acknowledgement ends local and tells the peer |
| RuntimeRuns.FailLocalRests | src-tauri/src/controller_runtime.rs:339-346 | failing local is always a coupled local state |
| RuntimeRuns.AdvanceCoupled | src-tauri/src/controller_runtime.rs:194-206 | advance never fails and keeps the agreement |
| RuntimeRuns.GoLocalCoupled | src-tauri/src/controller_runtime.rs:208-215 | going local never fails and ends local |
| RuntimeRuns.LeavingTellsThePeer | src-tauri/src/controller_runtime.rs:208-337 | going home ends the open session at the peer with the reason, gives the input stream up if anything was under way, and says nothing from home |
| RuntimeRuns.ReasonsDiffer | src-tauri/src/controller_runtime.rs:364-376 | the peer can tell the reasons apart |
| RuntimeRuns.ControlCoupled | src-tauri/src/controller_runtime.rs:114-192 | any frame keeps the agreement; any error but NotActive ends local |
| RuntimeRuns.StepCoupled | src-tauri/src/controller_runtime.rs:80-362 | every operation keeps the agreement |
| RuntimeRuns.AlwaysCoupled | src-tauri/src/controller_runtime.rs:25-362 | in every reachable state router, handshake and pending session tell the same story |
| Agreements.ActiveMeansAnswered | src-tauri/src/controller_runtime.rs:80-192 | an open session is with the peer asked for last, which said it can take input on the display and revision asked for, from the boot the session names, and which acknowledged this very session |
| Worlds.LocalByOp | src-tauri/src/controller_runtime.rs:194-337 | whatever the runtime does on its own is at most one handshake operation and its frames |
| Worlds.ControlByOp | src-tauri/src/controller_runtime.rs:114-192 | handling any frame is the handshake's handling and at most one more operation |
| Worlds.AlwaysWorldInv | src-tauri/src/controller_client.rs:198-272 | runtime, connection and receiver keep their joint invariant over runs with many connections |
| Worlds.RemoteInputHasAnAgreedSession | src-tauri/src/controller_runtime.rs:25-362 | end to end: a remote gate means the peer is in the same session, for the newest request on the display in use, unless it aborted |
| Worlds.NoFrameIsRefused | src-tauri/src/protocol_v2.rs:775-1179 | on every connection to a trusting peer that does not abort, neither side refuses a frame before the controller ends |
| Inputs.InputSessionGate.constructor | src-tauri/src/protocol_v2.rs:970-977 | nothing active, nothing ended |
| Inputs.ValidInput | src-tauri/src/protocol_v2.rs:594-628 | exactly which critical and motion frames are valid |
| Inputs.InputSessionGate.Activate | src-tauri/src/protocol_v2.rs:979-989 | opens a valid session of this boot that has not ended, from number 1 |
| Inputs.InputSessionGate.Accept | src-tauri/src/protocol_v2.rs:991-1007 | takes only the expected number of the active session |
| Inputs.InputSessionGate.End | src-tauri/src/protocol_v2.rs:1009-1019 | closes exactly the active session and remembers it |
| Inputs.AcceptsOnlyInOrder | src-tauri/src/protocol_v2.rs:970-1020 | whatever is offered, the accepted frames are the session's, numbered 1, 2, 3, ... |
| Inputs.NothingAfterEnd | src-tauri/src/protocol_v2.rs:1009-1019 | nothing is accepted after the end |
| Inputs.AcceptsInOrder | src-tauri/src/protocol_v2.rs:991-1007 | an in-order run of valid frames is accepted whole if and only if it is shorter than the largest sequence number |
| Inputs.BoundedAcceptance | src-tauri/src/protocol_v2.rs:1002-1004 | the largest sequence number is never accepted |
| InputRuns.LogAlwaysOrdered | src-tauri/src/controller_runtime.rs:217-279 | in every run each issued frame has the next number of its stream and names how far the other had come |
| InputRuns.LogIsWhatWasDone | src-tauri/src/controller_runtime.rs:217-279 | over runs: a session's frames are, one by one and in order, the calls that succeeded in it, each event unchanged but for the number of the last motion and each motion at its own point |
| InputRuns.DependenciesPointBack | src-tauri/src/controller_runtime.rs:217-279 | dependencies over both streams only lead back, so they have no cycle |
| InputRuns.ReferencesResolve | src-tauri/src/controller_runtime.rs:217-279 | every frame a reference names was issued before |
| InputRuns.CriticalsNumbered | src-tauri/src/controller_runtime.rs:217-252 | the critical frames of a session are numbered 1 to n |
| InputRuns.GateAcceptsTheSession | src-tauri/src/protocol_v2.rs:970-1020 | a gate opened once for the session accepts everything the sender numbered |
| Clients.QuicTransport.Connect | src-tauri/src/controller_client.rs:76-94 | the old connection is dropped first; connected exactly on success |
| Clients.QuicTransport.SendControl | src-tauri/src/controller_client.rs:96-101 | a frame is taken only on an open control stream |
| Clients.QuicTransport.OpenInput | src-tauri/src/controller_client.rs:103-113 | both input streams open together, on a connection only |
| Clients.QuicTransport.SendInput | src-tauri/src/controller_client.rs:115-120 | only an encodable frame on an open stream is taken |
| Clients.QuicTransport.SendMotion | src-tauri/src/controller_client.rs:122-127 | only an encodable motion on an open slot is taken |
| Clients.QuicTransport.Disconnect | src-tauri/src/controller_client.rs:129-134 | everything is closed |
| Clients.ControllerClient.constructor | src-tauri/src/controller_client.rs:166-188 | an empty inbox, no overflow, no ping due |
| Clients.ControllerClient.Offer | src-tauri/src/controller_client.rs:38-44 | a full inbox only raises the overflow flag |
| Clients.ControllerClient.Begin | src-tauri/src/controller_client.rs:198-229 | refuses when busy; otherwise clears the inbox, connects, begins and sends |
| Clients.ControllerClient.Poll | src-tauri/src/controller_client.rs:231-272 | overflow, every waiting and arriving frame in order, then the deadline step and the ping |
| Clients.ControllerClient.HandleFrame | src-tauri/src/controller_client.rs:245-254 | one frame: the runtime's actions, or a dropped transport |
| Clients.ControllerClient.AdvanceNow | src-tauri/src/controller_client.rs:263-272 | the deadline step, its actions and the ping |
| Clients.ControllerClient.SendInput | src-tauri/src/controller_client.rs:274-288 | numbers and sends one event, or fails the transport |
| Clients.ControllerClient.SendMotion | src-tauri/src/controller_client.rs:290-305 | numbers and sends one position and returns its number, or fails the transport |
| Clients.ControllerClient.GoLocal | src-tauri/src/controller_client.rs:307-319 | goes local and sends what is left to say |
| Clients.ControllerClient.Apply | src-tauri/src/controller_client.rs:321-341 | carries out actions in order, up to the first the transport does not take |
| Clients.ControllerClient.FailTransport | src-tauri/src/controller_client.rs:343-353 | goes local, tries to say so, disconnects |
| Clients.ControllerClient.PollPing | src-tauri/src/controller_client.rs:355-377 | a ping each interval while active, none otherwise |
| ClientRuns.FailTransportCloses | src-tauri/src/controller_client.rs:343-353 | failing closes gate, session and transport and restores capture, whatever the transport still takes |
| ClientRuns.DrivenOk | src-tauri/src/controller_client.rs:321-341 | a runtime step and its actions keep transport, streams and session in step |
| ClientRuns.PingOk | src-tauri/src/controller_client.rs:355-377 | the ping fails without closing if and only if a session is open, a ping is due and its number is the largest; then runtime and wire are unchanged |
| ClientRuns.FrameOk | src-tauri/src/controller_client.rs:245-254 | an error while handling a frame closes everything if and only if the frame was not an acknowledgement in an open session; NotActive means exactly an acknowledgement that nothing waits for, and costs the transport only |
| ClientRuns.DrainOk | src-tauri/src/controller_client.rs:243-262 | an error in a drain closes everything if and only if the drain met no acknowledgement in an open session, with arrivals between the frames |
| ClientRuns.AdvanceOk | src-tauri/src/controller_client.rs:263-272 | the deadline step and its ping fail without closing if and only if the ping number is used up in a session that the gate lets live |
| ClientRuns.DrainInSession | src-tauri/src/controller_client.rs:243-262 | in an open session emptying the inbox succeeds if and only if all frames that wait or arrive are echoes with rising numbers and no falling count; the first that is not is a stray acknowledgement if and only if it is any acknowledgement |
| ClientRuns.PollOk | src-tauri/src/controller_client.rs:231-272 | a poll fails with NotActive, or with the ping number used up, exactly under conditions on the state and the frames before it; every other error closes everything |
| ClientRuns.SendInputOk | src-tauri/src/controller_client.rs:274-288 | a successful send extends the open stream by one; a transport failure closes everything; other errors change nothing |
| ClientRuns.SendMotionOk | src-tauri/src/controller_client.rs:290-305 | the same for motions |
| Sendings.StreamIsWhatWasSent | src-tauri/src/controller_client.rs:274-305 | while the input stream is open it holds exactly what was sent since it was opened, each stroke unchanged and numbered, each motion at its point |
| Sendings.ControlsInOrder | src-tauri/src/controller_client.rs:321-353 | actions that succeed put all their control frames on the wire in order; nothing sent is taken back |
| Sendings.BeginAsksForTheTarget | src-tauri/src/controller_client.rs:198-229 | a begin that succeeds greets the peer, asks for the target's display under the new request and routes to the target's peer |
| Sendings.OverflowIsReportedOnce | src-tauri/src/controller_client.rs:231-242 | an inbox that ran over fails one poll, and no other poll fails for that |
| Sendings.AlwaysScheduled | src-tauri/src/controller_client.rs:355-377 | while the input stream is open the next ping is scheduled one interval after the opening or the last ping |
| Sendings.PingsExactlyWhenDue | src-tauri/src/controller_client.rs:231-272 | a poll that leaves a session open sends a ping and nothing else if the opening and the last ping are an interval ago, and nothing if not; it fails only without a number left |
| ClientRuns.GoLocalOk | src-tauri/src/controller_client.rs:307-319 | going local ends closed and restored whether or not the last frame left |
| ClientRuns.BeginOk | src-tauri/src/controller_client.rs:198-229 | a begin that succeeds reserved a request newer than the gate's generation; one that fails leaves everything closed |
| ClientRuns.AlwaysInv | src-tauri/src/controller_client.rs:144-383 | in every reachable state the input stream is open exactly while a session is active on a held transport, and its counters count what was taken |
| ClientRuns.FailsClosed | src-tauri/src/controller_client.rs:198-353 | in every reachable state a call fails and leaves gate, session, transport or capture behind if and only if it is a begin or input during a handoff, a click before the first motion, an input, motion or ping without a number left, or met a stray acknowledgement, all told from the state before it; going local always closes |
| ClientRuns.ReceiverAcceptsWhatWasSent | src-tauri/src/controller_client.rs:274-288 | the frames one input stream took are numbered from 1 in one session, and a gate opened for it accepts them all if and only if there are fewer than the largest number |
| ClientRuns.HeldByANewerRequest | src-tauri/src/controller_client.rs:198-229 | once gone, the transport is held again only for a newer request that a begin opened |
| ClientRuns.SendingNeedsANewHandoff | src-tauri/src/controller_client.rs:198-305 | a send that succeeds after the transport was gone follows a successful begin, a reservation and its activation, all later |
| SecondAcks.SecondAckLeavesTheGateRemote | src-tauri/src/controller_runtime.rs:141-144 | a concrete run with two acknowledgements ends without transport, with a remote gate and an active session |
| LastNumbers.PingsOnAndOn | src-tauri/src/protocol_v2.rs:930-942 | a run of any length in which every poll sends one more ping of the same session |
| LastNumbers.LastPingLeavesTheSessionOpen | src-tauri/src/controller_client.rs:355-377 | after the last number a poll fails while gate, session and transport stay as they are |
| LastNumbers.ClickBeforeTheFirstMotion | src-tauri/src/controller_runtime.rs:217-252 | right after a handoff a click or scroll fails and changes nothing, with gate, session and transport open |
| LastNumbers.NumbersRunOut | src-tauri/src/controller_runtime.rs:217-279 | runs to the last input and the last motion number, after which the next one fails and changes nothing |
| Framing.BigEndianRoundTrip | src-tauri/src/protocol_v2.rs:249-265 | the length prefix reads back |
| Framing.FrameDecoder.constructor | src-tauri/src/protocol_v2.rs:446-452 | starts between frames |
| Framing.FrameDecoder.Push | src-tauri/src/protocol_v2.rs:454-491 | the buffered loop equals the byte-at-a-time reference, from every reachable state, and terminates |
| Framing.FrameDecoder.TakePrefix | src-tauri/src/protocol_v2.rs:457-474 | prefix bytes taken together equal the reference; a bad length resets |
| Framing.FrameDecoder.TakePayload | src-tauri/src/protocol_v2.rs:475-490 | payload bytes taken together equal the reference; a payload that does not decode is kept |
| Framing.FrameDecoder.Finish | src-tauri/src/protocol_v2.rs:493-499 | succeeds exactly between two frames |
| Framing.FrameDecoder.Reset | src-tauri/src/protocol_v2.rs:501-506 | back between frames |
| Framing.FeedAppend | src-tauri/src/protocol_v2.rs:454-491 | feeding two pieces is feeding one after the other, up to an error |
| Framing.FeedEncoded | src-tauri/src/protocol_v2.rs:249-283 | one encoded frame decodes to itself |
| Framing.FeedPartial | src-tauri/src/protocol_v2.rs:454-499 | a proper part of a frame completes nothing and blocks the end of the stream |
| Framing.ChunkingIsIrrelevant | src-tauri/src/protocol_v2.rs:454-567 | any split into pushes decodes the same frames, error and state |
| Framing.StreamRoundTrip | src-tauri/src/protocol_v2.rs:249-567 | encoded frames and a proper part of one more, cut anywhere, decode to exactly those frames, and finish succeeds if and only if nothing is left over |
| Framing.ControlStreamRoundTrip | src-tauri/src/protocol_v2.rs:249-506 | the same for control frames with their magic, limit and validation |
| Framing.CriticalStreamRoundTrip | src-tauri/src/protocol_v2.rs:267-567 | the same for critical input frames |
| Framing.AfterAnError | src-tauri/src/protocol_v2.rs:470-491 | after a bad payload every later chunk fails alike; after a bad length decoding starts afresh |
| Framing.SticksExactlyWhen | src-tauri/src/protocol_v2.rs:475-490 | a framed payload sticks in the decoder if and only if it cannot be decoded |
| Framing.ReservedByteSticks | src-tauri/src/protocol_v2.rs:475-490 | five bytes that stop a control stream for good |
| Framing.BufferIsBounded | src-tauri/src/protocol_v2.rs:446-567 | the buffer never exceeds the frame limit |
| Mailbox.RunInv | src-tauri/src/quic_transport.rs:295-350 | the mailbox invariant holds under every interleaving of senders and the loop |
| Mailbox.NothingIsStranded | src-tauri/src/quic_transport.rs:307-350 | an open mailbox at rest is empty, its flag is down and the last payload was flushed |
| Mailbox.ScheduledMeansOneFlush | src-tauri/src/quic_transport.rs:332-350 | at most one flush is queued, and the flag is up exactly while one is queued, about to be, or not past its reset |
| Mailbox.FlushedIsSubsequence | src-tauri/src/quic_transport.rs:1595-1627 | flushed payloads are a subsequence of the stored ones |
| Mailbox.TakesTheLatest | src-tauri/src/quic_transport.rs:1606-1607 | a take gets the payload stored last |
| Budgets.BudgetIsConserved | src-tauri/src/quic_transport.rs:77-127 | under every interleaving of retries and drops the counter is the sum of live reservations and within the limit |
| Budgets.SharedCounter.Reserve | src-tauri/src/quic_transport.rs:373-389 | the loop adds exactly the bytes to the value it was computed from, gives up only without room, and lost every earlier exchange, whatever other threads do in between |
| Budgets.SharedCounter.Release | src-tauri/src/quic_transport.rs:283-287 | a dropped reservation gives exactly its bytes back |
| Budgets.RefusedOfferGivesBack | src-tauri/src/quic_transport.rs:352-370 | a refused offer returns exactly its bytes |
| Budgets.OneInboundPayload | src-tauri/src/quic_transport.rs:55-56 | at most one inbound payload is reserved, and at most 4 MiB beside it |
| Budgets.InputQueueIsBounded | src-tauri/src/quic_transport.rs:352-390 | what waits in the input queue is at most 256 KiB in 256 frames, under every interleaving |
| Rates.ControlRate.Enforce | src-tauri/src/quic_transport.rs:1571-1588 | a window of one second, restarted by its first batch afterwards |
| Rates.AnySecond | src-tauri/src/quic_transport.rs:1571-1588 | any second of an open stream lets at most twice the limit through, and the limit within one window |
| Rates.LimitHoldsExactlyWhen | src-tauri/src/quic_transport.rs:1571-1588 | a second that begins with a batch keeps the limit, however the run goes on, if and only if the window counts from that batch on or is full without it |
| Rates.TwiceTheLimitPasses | src-tauri/src/quic_transport.rs:1571-1588 | twice the limit does pass within a second |
| Pressed.PressedState.Apply | src-tauri/src/pressed_state.rs:62-77 | ledger and commands after any event |
| Pressed.PressedState.ApplyKey | src-tauri/src/pressed_state.rs:79-125 | a target goes down with its first source and up with its last |
| Pressed.PressedState.ApplyButton | src-tauri/src/pressed_state.rs:127-147 | a repeated press only moves the button |
| Pressed.PressedState.UpdatePointer | src-tauri/src/pressed_state.rs:55-60 | every held button moves, nothing else changes |
| Pressed.PressedState.ReleaseAll | src-tauri/src/pressed_state.rs:149-172 | empties the ledger and emits the releases from the newest on |
| Pressed.PressedState.DragButton | src-tauri/src/pressed_state.rs:49-53 | the first held of left, right and middle |
| Pressed.Drives | src-tauri/src/pressed_state.rs:94-121 | whether any held source still drives a target |
| Pressed.MachineFollowsLedger | src-tauri/src/pressed_state.rs:55-172 | replaying all commands keeps the machine's held set equal to the ledger's targets and never presses a held or releases a free one |
| Pressed.LedgerIsHistory | src-tauri/src/pressed_state.rs:79-147 | each entry is what that key's or button's own history says, whatever the mapping does in between |
| Pressed.HeldExactlyWhileDriven | src-tauri/src/pressed_state.rs:79-125 | a target is down if and only if some key that drove it when pressed is still down |
| Pressed.ReleaseAllFreesMachine | src-tauri/src/pressed_state.rs:149-172 | one release per distinct target, one per button at its last place, and nothing stays held |
| Pressed.ReleasesBackInTime | src-tauri/src/pressed_state.rs:149-162 | keys are released in the order in which their last holder comes up when the newest goes first |
| Pressed.ButtonsBackInTime | src-tauri/src/pressed_state.rs:163-170 | buttons are released from the newest on, each at its own place |
| Pressed.KeysBeforeButtons | src-tauri/src/pressed_state.rs:149-172 | all keys before all buttons |
| Pressed.KeyReleasesAgree | src-tauri/src/pressed_state.rs:149-163 | the key releases fit the machine and free every key |
| Pressed.ButtonReleasesAgree | src-tauri/src/pressed_state.rs:164-171 | the button releases fit the machine and free every button |
| Receivers.InjectorPort.Post | src-tauri/src/control_ports.rs:58-64 | a command is posted exactly when the platform takes it, and only then changes what is held |
| Receivers.ReceiverSessionRuntime.constructor | src-tauri/src/session_runtime.rs:186-212 | nothing bound, nothing active, nothing held |
| Receivers.ReceiverSessionRuntime.HandleControl | src-tauri/src/session_runtime.rs:222-353 | binding, display choice, handshake, session and response after any frame on any connection |
| Receivers.ReceiverSessionRuntime.Greet | src-tauri/src/session_runtime.rs:232-262 | a hello lets go of everything and binds a new handshake, or is refused |
| Receivers.ReceiverSessionRuntime.PassOn | src-tauri/src/session_runtime.rs:295-353 | the handshake handles the frame, and session and response follow; what it means for the lease is in Leases |
| Receivers.ReceiverSessionRuntime.Bind | src-tauri/src/session_runtime.rs:245-256 | the greeted connection is bound, with no session, display or activity |
| Receivers.ReceiverSessionRuntime.StartOver | src-tauri/src/session_runtime.rs:252-318 | nothing prepared, nothing applied, no motion seen |
| Receivers.ReceiverSessionRuntime.Open | src-tauri/src/session_runtime.rs:304-323 | a session opens only with nothing held and a willing gate |
| Receivers.ReceiverSessionRuntime.EndOrdered | src-tauri/src/session_runtime.rs:324-335 | the ordered end leaves the session and lets go |
| Receivers.ReceiverSessionRuntime.UpdateDisplays | src-tauri/src/session_runtime.rs:355-384 | a session whose display changed ends and lets go |
| Receivers.ReceiverSessionRuntime.UpdateMapping | src-tauri/src/session_runtime.rs:386-391 | only the mapping of later keys changes |
| Receivers.ReceiverSessionRuntime.HandleInput | src-tauri/src/session_runtime.rs:401-488 | gate, ledger, commands and pointer after any critical frame; what is injected, and where, is Injections.InputPosts |
| Receivers.ReceiverSessionRuntime.Carry | src-tauri/src/session_runtime.rs:473-488 | commands in order; the first failure restores the ledger and ends the session |
| Receivers.ReceiverSessionRuntime.HandleMotion | src-tauri/src/session_runtime.rs:490-537 | stale, refused, buffered as the newest waiting, or applied |
| Receivers.ReceiverSessionRuntime.ExpireIfNeeded | src-tauri/src/session_runtime.rs:539-558 | a session silent for the lease time ends and lets go |
| Receivers.ReceiverSessionRuntime.StreamClosed | src-tauri/src/session_runtime.rs:560-580 | a closed input stream ends the session and lets go |
| Receivers.ReceiverSessionRuntime.FailInjection | src-tauri/src/session_runtime.rs:590-599 | a failed injection ends the session and tries to let go |
| Receivers.ReceiverSessionRuntime.ApplyMotion | src-tauri/src/session_runtime.rs:601-618 | the pointer moves, or the session ends with the ledger as it was |
| Receivers.ReceiverSessionRuntime.FlushPending | src-tauri/src/session_runtime.rs:620-632 | a waiting motion is applied once its references are, unless overtaken |
| Receivers.ReceiverSessionRuntime.ReleasePressed | src-tauri/src/session_runtime.rs:649-665 | every release is tried; if one fails the ledger keeps all entries and the first error is reported |
| ReceiverRuns.SubmitOrderly | src-tauri/src/session_runtime.rs:473-480 | after a failed submission the machine holds what it held before |
| ReceiverRuns.SubmitReleases | src-tauri/src/session_runtime.rs:649-659 | releases only let go, and without a failure all of them took effect |
| ReceiverRuns.ReleaseIsSafe | src-tauri/src/session_runtime.rs:649-665 | letting go keeps the ledger above the machine, and empties both when nothing fails |
| ReceiverRuns.ReleaseReports | src-tauri/src/session_runtime.rs:649-665 | letting go tries every release; it fails if and only if one of them does, reports the first failure, records the last and keeps the ledger |
| ReceiverRuns.CarryOk | src-tauri/src/session_runtime.rs:446-488 | an accepted frame keeps ledger and machine equal, or ends the session |
| ReceiverRuns.InputOk | src-tauri/src/session_runtime.rs:401-488 | an input is carried on, or changes nothing, or a failed injection ends the session; it is not refused when it fits and the gate accepts |
| ReceiverRuns.MotionOk | src-tauri/src/session_runtime.rs:490-537 | a motion is applied only forward and only when what it refers to has been |
| ReceiverRuns.ControlOk | src-tauri/src/session_runtime.rs:222-353 | any frame keeps session, gate, handshake and ledger in agreement |
| ReceiverRuns.AlwaysSessionInv | src-tauri/src/session_runtime.rs:145-665 | the runtime's invariant holds in every reachable state |
| ReceiverRuns.NothingHeldUnknown | src-tauri/src/session_runtime.rs:401-665 | no stuck keys: the machine holds nothing the ledger does not know, exactly its targets during a session, and nothing held is pressed again |
| ReceiverRuns.EndingLetsGo | src-tauri/src/session_runtime.rs:324-599 | however a session ends everything is let go unless a release failed, and a session opens only on a machine that holds nothing |
| ReceiverRuns.SessionGateAndHandshakeAgree | src-tauri/src/session_runtime.rs:222-599 | an open session is the gate's and the handshake's, the gate expects the next number, and no waiting motion is ready |
| ReceiverRuns.RefusedCommitLeavesTheHandshakeAhead | src-tauri/src/session_runtime.rs:295-323 | a commit opens the session if and only if nothing is held and the gate is willing; the handshake moves either way |
| ReceiverRuns.CommitOpensExactlyWhen | src-tauri/src/session_runtime.rs:295-323 | in every reachable state a commit that the handshake takes opens the session if and only if nothing is held and it does not name the session that ended last |
| ReceiverRuns.QuietIsUndisturbed | src-tauri/src/session_runtime.rs:222-665 | whatever is not input either ends an open session or leaves what is held, what was injected and how far input has come as they are |
| ReceiverRuns.NewestMotionIsKept | src-tauri/src/session_runtime.rs:490-537 | a motion that was taken never gives way to an older one: the newest is where the pointer is, was overtaken by a click, or waits |
| Leases.ActivityIsLastSeen | src-tauri/src/session_runtime.rs:344-352 | the lease runs from the last commit or ping taken, input accepted or fresh motion handled in the open session, told from the events alone |
| Leases.ExpiresExactlyWhenSilent | src-tauri/src/session_runtime.rs:539-558 | an expiry check ends an open session if and only if that is the lease time ago, and otherwise changes nothing |
| Leases.ExpiresExactlyWithoutSigns | src-tauri/src/session_runtime.rs:539-558 | on a clock that never runs backwards: if and only if none of all those events came within the lease time |
| Leases.PingedSessionNeverExpires | src-tauri/src/session_runtime.rs:344-352 | a session pinged at least every interval is never ended by an expiry check |
| Leases.SilentSessionExpires | src-tauri/src/session_runtime.rs:539-558 | a session in which nothing is taken any more is over at the first check after the lease |
| Sessions.AlwaysRemembers | src-tauri/src/session_runtime.rs:222-665 | what the runtime remembers of greeting, preparation and display is what the frames said, and what it shows or prepares is there |
| Sessions.OpensAsAsked | src-tauri/src/session_runtime.rs:264-323 | a session opens only with a commit of the bound peer, between the boot it greeted with and this one, for the preparation accepted last (or, if the handshake is in that session already, for any), on the display named last |
| Sessions.OpensOnTheAcceptedDisplayExactlyWhen | src-tauri/src/session_runtime.rs:274-313 | a session opens on the display of the accepted preparation if and only if no later one was refused, or the last of those named the same |
| Sessions.ShownIsThere | src-tauri/src/session_runtime.rs:355-384 | in every reachable state what is shown or prepared is one of the displays there are |
| Sessions.EndsExactlyWhen | src-tauri/src/session_runtime.rs:324-600 | an open session ends if and only if the peer ends it, its stream closes, its display goes away, the injector fails on its input, or it has been silent for the lease |
| Sessions.EndIsRecorded | src-tauri/src/session_runtime.rs:386-618 | why a session ended is recorded, unless letting go failed after it; the peer's own end records nothing |
| Injections.MapLands | src-tauri/src/session_runtime.rs:57-84 | a point is mapped if and only if it is on a well-formed display, and to the native pixel at the same share of the way |
| Injections.PointsLandInOrder | src-tauri/src/session_runtime.rs:78-84 | points land inside the native rectangle, at one place, in order on both axes, corner on corner |
| Injections.InputPosts | src-tauri/src/session_runtime.rs:401-488 | an accepted frame injects what it says where its point lands: a click or, if it changes nothing, a move; a move and its own scroll; the remapped stroke of a target's first and last source; and then the motion it set free |
| Injections.MotionMoves | src-tauri/src/session_runtime.rs:490-618 | an applied motion moves the pointer, and whatever is held with it, to where it lands; any other changes nothing on the machine |
| Injections.InputRefusedExactlyWhen | src-tauri/src/session_runtime.rs:401-447 | whatever arrives from whomever, a critical frame is turned away, changing nothing, if and only if it is not the next valid one of the open session from its peer, onto the display and no further back than the pointer |
| Injections.MotionRefusedExactlyWhen | src-tauri/src/session_runtime.rs:490-523 | a motion is turned away, changing nothing, if and only if it is not one of the open session from its peer, or is fresh and names another display or a point off it |
| Injections.SessionReplaysItsInput | src-tauri/src/session_runtime.rs:401-618 | over runs: in an open session what is held and everything injected, moves aside, is what the ledger makes of the events taken since it opened |
| Injections.DownExactlyWhileDriven | src-tauri/src/pressed_state.rs:62-125 | in an open session a target is down on the machine if and only if some key that drove it when it was pressed in this session is still down |
| Partings.HandshakeGetsAhead | src-tauri/src/session_runtime.rs:295-323 | a run from the start in which the handshake enters a session the runtime refuses, with the last session's key still down |
| Partings.HandshakeRevivesASession | src-tauri/src/session_runtime.rs:304-323 | a run in which the handshake enters the session that ended last, which the runtime refuses, with nothing held |
| Partings.RefusedPreparationChangesTheDisplay | src-tauri/src/session_runtime.rs:274-302 | a run in which a second preparation is refused, and the session of the first opens on the display of the second |
| Lines.ElsewhereFollows | src-tauri/src/session_runtime.rs:222-665 | whatever happens beside this connection only drops its prepared display, leaves its session, or unbinds it while no session is open; applied input never falls |
| Lines.TakesHello | src-tauri/src/session_runtime.rs:232-262 | a greeting binds the connection or is declined with the binding as it was |
| Lines.TakesPrepare | src-tauri/src/session_runtime.rs:274-302 | a preparation is offered on exactly the display asked for, or declined |
| Lines.TakesCommit | src-tauri/src/session_runtime.rs:266-323 | a commit opens the session on the prepared display, or is declined and opens nothing |
| Lines.TakesLater | src-tauri/src/session_runtime.rs:324-352 | a ping is echoed with the input applied so far; an end ends |
| Lines.HappensInv | src-tauri/src/session_runtime.rs:355-665 | events elsewhere keep the invariant of a served connection |
| Lines.DeclineInv | src-tauri/src/lib.rs:1052-1107 | so do rejections and silence |
| Lines.TakesInv | src-tauri/src/lib.rs:1052-1107 | so does a frame served by the session runtime, after its displays were brought up to date |
| Lines.ExpectedReply | src-tauri/src/protocol_v2.rs:825-896 | the next reply is a rejection or the one the controller waits for, and reports no less applied input than the last |
| Lines.ReceivedInv | src-tauri/src/protocol_v2.rs:825-896 | delivery to the controller keeps the invariant |
| Lines.OperateLineInv | src-tauri/src/protocol_v2.rs:791-961 | every operation of the controller keeps the invariant |
| Lines.CutsInv | src-tauri/src/lib.rs:1052-1107 | so does losing any tail of either channel |
| Lines.ActiveMeansOpen | src-tauri/src/session_runtime.rs:222-353 | an active controller's session is open in the session runtime on the display asked for unless the receiver left it, and no more input is reported applied than is |
| Handoffs.AlwaysHandoffInv | src-tauri/src/controller_client.rs:198-272 | runtime, connection and session runtime keep their joint invariant over runs with many connections |
| Handoffs.RemoteInputReachesAnOpenSession | src-tauri/src/controller_runtime.rs:25-362 | end to end: a remote gate means that the session runtime is in that very session, its input gate asks for the next frame, and it shows the display of the newest request, unless it left |
| Handoffs.OnlyRejectionsAreRefused | src-tauri/src/protocol_v2.rs:825-896 | whatever the receiver declines, the controller refuses no other reply before it ends; the monotonicity test of pongs never fails |
| Handoffs.NextMotionIsTaken | src-tauri/src/session_runtime.rs:490-537 | while the gate is remote the next motion carries the session and display the receiver expects, so only its point or the injector can fail it |
| Deliveries.ReadyMotionPrecedes | src-tauri/src/session_runtime.rs:525-533 | a motion whose references are applied was issued before the next critical frame |
| Deliveries.NextInput | src-tauri/src/session_runtime.rs:401-488 | the next critical frame of a log is applied if and only if it can be encoded, points into the display and does not carry the largest number, unless the injector fails; otherwise it changes nothing |
| Deliveries.ReceiverStaysInStep | src-tauri/src/session_runtime.rs:401-537 | a receiver fed a sender's log has applied exactly the critical frames delivered, and no motion issued after the next one |
| Deliveries.CriticalsRefusedExactlyWhen | src-tauri/src/quic_transport.rs:1505-1530 | with motions lost, repeated, reordered or late, a critical frame of the log is refused if and only if it does not fit; then its stream and the session end and what is held is let go |
| Deliveries.SenderMeetsReceiver | src-tauri/src/controller_runtime.rs:217-279 | the same for whatever any sender's runtime issued in the session |
| Systems.DeliverInv | src-tauri/src/controller_runtime.rs:114-192 | frames that reach the controller keep the joint invariant of handoff, issued input and arrived input |
| Systems.FarInv | src-tauri/src/session_runtime.rs:222-665 | so does whatever happens at the receiver and on the wire |
| Systems.InputInv | src-tauri/src/quic_transport.rs:1505-1530 | so does a critical frame that arrives, taken or refused |
| Systems.MotionInv | src-tauri/src/session_runtime.rs:490-537 | so does any issued motion that arrives |
| Systems.AlwaysSystemInv | src-tauri/src/controller_client.rs:198-305 | an open session has applied exactly what arrived of what was issued on its connection, in every reachable state |
| Systems.AppliedIsWhatArrived | src-tauri/src/controller_runtime.rs:217-279 | while the gate is remote: believed applied, applied, arrived and issued come in this order, and no motion is applied that was not issued |
| Systems.ArrivingInputIsRefusedOnlyIfUnfit | src-tauri/src/session_runtime.rs:401-488 | whatever happened at both ends, the next critical frame to arrive in an open session is refused if and only if it does not fit |
| Systems.NextMotionIsFresh | src-tauri/src/session_runtime.rs:490-537 | the motion issued next is never stale: refused if and only if off the display, else applied at once exactly if all input issued before has been |
| Systems.LogMirrorsDone | src-tauri/src/controller_runtime.rs:217-279 | what was issued on a connection is, frame by frame, what was done on it |
| Systems.StrokesReachTheMachine | src-tauri/src/session_runtime.rs:401-488 | from end to end: when the n-th critical frame of a connection is taken, the receiver's machine is made to do what the n-th stroke of the user was |
| Systems.MovementsReachTheMachine | src-tauri/src/session_runtime.rs:490-618 | from end to end: an applied motion moves the pointer to where the hand was in a movement whose preceding strokes have all been applied |
| Deliveries.MotionsWaitForTheirReferences | src-tauri/src/session_runtime.rs:490-537 | the applied motion only moves forward, and only to motions whose references are applied |
| Clipboard.TotalOrder | src-tauri/src/clipboard_sync.rs:7-32 | the order of operations is total |
| Clipboard.FirstDifferenceDecides | src-tauri/src/clipboard_sync.rs:7-12 | peers are ordered by the first character in which their names differ |
| Clipboard.ClipboardSyncEngine.New | src-tauri/src/clipboard_sync.rs:72-95 | succeeds exactly for a valid peer id and a positive limit |
| Clipboard.ClipboardSyncEngine.ObserveLocal | src-tauri/src/clipboard_sync.rs:97-119 | an echo is consumed, a known revision ignored, a new copy sent or refused as too large |
| Clipboard.ClipboardSyncEngine.ManualResend | src-tauri/src/clipboard_sync.rs:121-130 | sends whatever the revision; what is sent, and who takes it, is Clipboard.SentIsTaken |
| Clipboard.ClipboardSyncEngine.NewLocalOperation | src-tauri/src/clipboard_sync.rs:187-250 | the new operation and the engine that now holds it; see Clipboard.SentIsTaken |
| Clipboard.ClipboardSyncEngine.ConsiderRemote | src-tauri/src/clipboard_sync.rs:252-298 | rejects, ignores or applies, and advances the clock for valid operations only |
| Clipboard.ClipboardSyncEngine.CommitRemote | src-tauri/src/clipboard_sync.rs:300-344 | holds the operation and expects its echo |
| Clipboard.GenuineIsTaken | src-tauri/src/clipboard_sync.rs:252-298 | any engine rejects an operation, changing nothing, if and only if it is not genuine or its limits do not admit the content, and applies the others if and only if it holds less |
| Clipboard.SentIsTaken | src-tauri/src/clipboard_sync.rs:187-298 | what is sent has the content, revision, origin and digest of what was copied and the next numbers; every engine with that hash takes it if and only if its limits admit it and it holds less, and rejects it only for its limits |
| Clipboard.AlwaysHoldsMaximum | src-tauri/src/clipboard_sync.rs:187-297 | below saturation the engine holds the greatest operation it has dealt with |
| Clipboard.Convergence | src-tauri/src/clipboard_sync.rs:252-344 | engines that dealt with the same operations hold the same one, whatever the order and repetitions |
| Clipboard.NewOperationIsAbove | src-tauri/src/clipboard_sync.rs:222-250 | a local operation is above everything seen if and only if the clock could advance or the tie falls its way |
| Clipboard.SaturationGoesBack | src-tauri/src/clipboard_sync.rs:234-235 | a concrete run at the limit in which the register goes back |
| ClipboardRuns.NetAlways | src-tauri/src/clipboard_sync.rs:187-344 | in a network of engines of different peers no two operations share a rank and every engine holds its maximum |
| ClipboardRuns.NetworkConverges | src-tauri/src/clipboard_sync.rs:252-344 | engines of a network that dealt with the same set hold the same, greatest operation |
| ClipboardRuns.PoolIsGenuine | src-tauri/src/clipboard_sync.rs:187-250 | every operation ever created in a network of valid peers is genuine |
| ClipboardRuns.PoolIsTaken | src-tauri/src/clipboard_sync.rs:252-344 | such an operation, delivered to any engine at any time, is rejected only for that engine's limits, applied if and only if the engine holds less, and once written it is what the engine holds |
| ClipboardRuns.SendsAreUserCopies | src-tauri/src/clipboard_sync.rs:97-119 | each automatic send belongs to a user copy of its own |
| ClipboardRuns.PeerContentIsNeverSent | src-tauri/src/clipboard_sync.rs:97-119 | what a peer wrote is never sent back |
| ClipboardRuns.UserCopyIsSentOnce | src-tauri/src/clipboard_sync.rs:97-119 | a copy that fits is sent at the first look and not at the second |
| Layouts.SnapAxis | src/layout.ts:197-210 | the loop finds the snapped value |
| Layouts.SnapScreenPosition | src/layout.ts:163-195 | both axes are snapped to the edges of the other screens |
| Layouts.SnapOverlappingScreenPosition | src/layout.ts:45-99 | the loop finds the most overlapped screen and the place beside it, if free; which place that is, is Placements.DropsOnTheNearerSide |
| Layouts.SnapIsNearest | src/layout.ts:197-210 | a snap moves at most the tolerance, to a nearest candidate, and stays put exactly when none is near or it is on one |
| Layouts.ClosestIsNearest | src/layout.ts:197-208 | the scan keeps a nearest candidate below the tolerance plus one |
| Layouts.AreaMeansOverlap | src/layout.ts:132-145 | screens with a size overlap if and only if they share an area |
| Layouts.CoveredIsLargest | src/layout.ts:57-69 | the scan keeps a screen of largest positive overlap, or there is none |
| Layouts.SnapFindsAFreePlace | src/layout.ts:45-99 | the result touches that screen and overlaps none; there is none exactly when nothing was overlapped or the place is taken |
| Layouts.MoveIsFlat | src/layout.ts:101-161 | moving inside the devices is moving in the flat list |
| Layouts.DragKeepsTheRest | src/App.tsx:1054-1090 | a drag changes only the dragged screen's position |
| Layouts.EndDragIsApart | src/App.tsx:1025-1052 | wherever a drag had come, its end overlaps nothing |
| Layouts.NudgeIsApart | src/App.tsx:1344-1360 | a keyboard nudge overlaps nothing |
| Layouts.GestureKeepsApart | src/App.tsx:1025-1052 | any gesture keeps the layout free of overlaps and moves no other screen |
| Layouts.LayoutStaysApart | src/layout.ts:29-210 | no sequence of drags and nudges ever makes two screens overlap |
| Placements.SnapAligns | src/layout.ts:163-210 | on each axis a snap aligns a side with the nearest side of another screen within the tolerance, and moves nothing exactly if it is aligned already or none is that near |
| Placements.SharedRectangle | src/layout.ts:141-145 | the area two screens share is that of the rectangle of their common points |
| Placements.DropsOnTheNearerSide | src/layout.ts:71-99 | a drop over screens goes along the longer axis of the drag to the nearer side of the one most covered, ties by the drag's direction, if that place is free |
| Placements.OnlyOneDropPlace | src/layout.ts:71-97 | there is only one such place |
| Placements.DragFollowsThePointer | src/App.tsx:1054-1090 | while dragged a screen is where the last movement puts it, within the tolerance |
| Placements.EndDragGoesThere | src/App.tsx:1025-1052 | the end of a drag leaves a free screen where it is, puts it on its drop place if that is free, and otherwise back where the drag began |
| Placements.NudgeGoesThere | src/App.tsx:1344-1360 | a nudge goes to the snapped place if that is free, and nowhere if not |
| Cursors.NeighbourIsThere | src-tauri/src/input.rs:5040-5043 | the neighbour is another screen that holds the point, and missing only if there is none |
| Cursors.ActiveTarget.UpdateRemoteScreen | src-tauri/src/input.rs:5020-5068 | stays, roams or returns, with the new position |
| Cursors.ActiveTarget.PinToEntryEdge | src-tauri/src/input.rs:5104-5118 | inside the screen, on the entry edge |
| Cursors.ActiveTarget.Move | src-tauri/src/input.rs:4112-4157 | one movement of the hand: delta, screen change, clamp |
| Cursors.CrossingEntersTheFirst | src-tauri/src/input.rs:4815-4867 | the first crossed target is entered, with the cursor inside its screen, and there is none exactly when none is crossed; what crossing means is Crossings.EntersExactlyWhenPushed |
| Cursors.RoamingKeepsThePoint | src-tauri/src/input.rs:5035-5048 | changing screens preserves the point of the shared layout |
| Cursors.MoveStaysOnScreen | src-tauri/src/input.rs:5020-5068 | the cursor follows the hand if and only if some screen holds the point, and returns only from the entry screen, outward, off every screen |
| Cursors.ReturnsThroughTheEntryEdge | src-tauri/src/input.rs:5050-5068 | over any movements the cursor is on a screen, and on the entry screen's entry edge when control returns |
| Cursors.RoamingFollowsTheHand | src-tauri/src/input.rs:5020-5068 | over the device's screens the cursor is where the sum of all movements puts it |
| Cursors.ReturnPointIsOnTheEdge | src-tauri/src/input.rs:5142-5177 | the return point is inside the local screen, on the edge control left by |
| Cursors.RescaleRoundTrip | src-tauri/src/input.rs:4898-4909 | native to layout and back is the identity |
| Cursors.EnterAndReturn | src-tauri/src/input.rs:4815-5177 | crossing, roaming across and returning restores the coordinate along the edge when neither clamp acts, and away from the corners only then |
| Crossings.MeasuresFit | src-tauri/src/input.rs:4911-4960 | one measure for all edges: a screen is where no edge is behind, and a movement goes outward by as much as it takes a point further beyond |
| Crossings.EntersExactlyWhenPushed | src-tauri/src/input.rs:4815-4960 | the cursor enters if and only if the hand pushes out over some target's edge: far enough, mostly outward, from within the band, up to the edge and within its span; it enters the first, facing home, beside where it left |
| Crossings.EntersThatDeep | src-tauri/src/input.rs:4835-4850 | it enters one pixel plus what the movement carries outward deep, as far as the screen goes |
| Crossings.RescaleIsAffine | src-tauri/src/input.rs:4898-4909 | rescaling takes ends to ends and keeps distances in proportion |
| Crossings.DeltaIsDifference | src-tauri/src/input.rs:4831-4834 | a movement in layout coordinates is what it does to the mapped point |
| Crossings.BackByTheDepth | src-tauri/src/input.rs:5020-5068 | moving straight back by no more than the depth comes that much nearer to the entry edge, on which the whole depth ends; moving further returns control if and only if no screen is there |

## Left out

- QUIC, TLS, certificates, dialing and the tokio runtime: library behaviour; only a connection that takes or refuses frames and loses tails is modelled.
- Windows hooks, event taps, cursor hiding and input injection: foreign calls; the model has their answers and the moments they may interrupt.
- SHA-256 and base64: any hash function is allowed; where two contents must be told apart the lemma says so.
- MessagePack: any pair of functions whose decoder inverts its encoder.
- The motion datagram and the clipboard bulk format: one-shot encodings without a state machine.
- Receivers.InjectorPort.Post: an error means that the command had no effect; readiness and submission are answered together.
- Receivers.ReceiverSessionRuntime.HandleInput: the modifier table is any function on key codes, and an authenticated peer is its id, role and connection.
- Refused and lost input: the stream of critical frames ends with the first refused one, and a frame that the transport does not take simply never arrives.
- Key-code tables, modifier remapping, hotkey parsing, the legacy datagram path: finite tables or switched off.
- Memory ordering weaker than sequential consistency in the gate, the mailbox and the budgets.
- The macOS retry of a crossing with the vertical axis flipped (src-tauri/src/input.rs:4975-4997) and the cooldown after a return: the entered target carries the flag, nothing more.
- Routing.Ports.PrepareCapture: capture and focus ports share one object, whose answers do not change within one operation.
- Runtime.ControllerRuntime.HandleControl: string fields are compared by code point and measured by UTF-8 length; boots and nonces are 128-bit numbers.
- Worlds.RemoteInputHasAnAgreedSession: the far end is the receiver's handshake alone, which declines nothing of its own; `Handoffs` has the session runtime around it.
- Worlds.NoFrameIsRefused: the same; and a Ready that fails only because the random source fails is not counted as refused.
- Lines.TakesInv: the detail text of a rejection is fixed; a frame that finds a poisoned lock gets no answer.
- Handoffs.OnlyRejectionsAreRefused: a Ready that fails only because the random source fails is not counted as refused, and the receiver's boot is not zero.
- LastNumbers.NumbersRunOut: these runs, like the one of the last ping, have 2^64 calls; the code allows them, though no machine runs that long.
- Mailbox.RunInv: threads are program counters over a value, not objects, because one method of a class cannot be interrupted in its middle.
- Budgets.BudgetIsConserved: all threads together are modelled on a value, one thread's loop on the object; the channel behind the input budget is a bounded queue of reservations.
- The first movement after a crossing, which both mouse handlers may swallow, and movements below a tenth of a point, which one ignores.
- Clients.ControllerClient.Poll: the branch for a disconnected inbox is left out, because the client itself holds a sender.
- Clipboard.ClipboardSyncEngine.CommitRemote: considering, writing and committing are one step, as the caller holds the engine's lock throughout (src-tauri/src/lib.rs:6346-6410); texts and images share one operation type.
- Layouts.LayoutStaysApart: the layout changes only by the gesture itself while a drag lasts, and identifiers are unique; rounding of the pointer to the grid is covered by allowing any position.
- Cursors.EnterAndReturn: real numbers instead of floating point, screens of positive size, and a layout that does not change between crossing and return.
- Framing.FrameDecoder.Push: one generic decoder stands for the control and the critical one, which differ in magic, limit and validation.
- Rates.ControlRate.Enforce: the clock is two readings passed in; a batch counts as a number of frames.
