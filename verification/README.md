# Verification model of the cellular driver

A Dafny model of a driver for u-blox cellular modems, and proofs about it. The driver talks to a modem by
AT commands; the model covers its four connected parts and the properties that span them.

* **Registration supervisor** (`StatusCell`, `Supervisor`, `Registration`, `Network`). Three status cells, a
  connection state, a linear backoff, a 15 s poll and a 180 s give-up. `Supervisor` is a transition system of
  the atomic changes the driver makes; its theorems hold over every legal sequence of events. The classes
  `RegistrationState` and `Network` do what the program does, step by step, and their invariants say that the
  fields always hold the state a legal sequence leads to, so the theorems hold in every reachable state.
* **Device lifecycle** (`Lifecycle`, `Device`). Power control with its mutual recursion, the watchdog, the
  initialisation, and the event loop. The invariant of `Device` says that a device that is on and fully
  initialised has had every mandatory command acknowledged, in order, since its power state last became Off.
* **PDP context** (`Milestones`, `Network`, `DataService`, `Device`). The context state can be changed by a URC
  before any command that checks URCs; the model lets that happen at every such command.
* **Data path** (`Hex`, `Ingress`, `Egress`, `Sockets`, `DataService`). In-place hexadecimal decoding (section 8
  of RFC 4648), socket ingress, chunked egress, and the life of a socket handle.

Time is a monotone clock: each reading may be any time not before the last. The modem is an arbitrary source
of replies; `AtTx` keeps a ghost log of every command with its reply, every consumed URC, and marks for the
driver's own steps, and the properties are read off that log. `Milestones.Progress` reads how far a script of
required acknowledgements has been followed, and `CompletedIffInOrder` shows that this is the existence of
increasing places in the log.

`rounds` bounds the mutual recursion of `PowerOn` and `HardReset` on boards without a power pin, where the
program may try for ever. The contracts hold for every value; the outcome `Unfinished` stands for a call of
the program that is still running after that many further rounds, and every caller passes it on at once.

Where the documentation and the code differ the model follows the code: the start-up log
(documentation/at_logs/startup.md) enables the registration URCs and sets CMEE to 0, the code disables the
former and enables extended errors. The default number of attempts of a command and the clock belong to the
transport and are parameters.

## Model

| member | source | states |
|---|---|---|
| Hex.Val | ublox-cellular/src/services/data/hex.rs:13-20 | a character is accepted with a value below 16, or refused as not hexadecimal |
| Hex.FromHex | ublox-cellular/src/services/data/hex.rs:24-34 | the in-place decoder agrees with the pure one although it overwrites its own input: on success the first half is the decoded input and the rest is untouched; on a bad pair exactly the pairs before it have been replaced; on odd length nothing has |
| Hex.DecodeIffEncodes | ublox-cellular/src/services/data/hex.rs:13-34 | s decodes to b exactly when s is some upper-, lower- or mixed-case encoding of b |
| Hex.RoundTrip | ublox-cellular/src/services/data/hex.rs:24-34 | decoding either canonical encoding of any byte string gives it back |
| Hex.JoinSplit | ublox-cellular/src/services/data/hex.rs:31-31 | joining two nibbles by shift and or loses no bit and never exceeds a byte |
| At.AtTx.Send | ublox-cellular/src/network.rs:68-119 | a success clears the counter, a timeout adds the attempts and saturates at 255, other errors leave it alone: the counter stays equal to the unbounded sum cut off at 255 |
| At.PendingIsTimeoutsSinceCleared | ublox-cellular/src/network.rs:96-119 | that sum is the total of the attempts of the commands that timed out since the last success or watchdog trip |
| At.AtTx.Trip | ublox-cellular/src/network.rs:158-160 | a trip clears the counter |
| At.AtTx.NextUrc | ublox-cellular/src/network.rs:121-126 | at most one queued URC is taken, and recorded |
| At.Clock.Wait | ublox-cellular/src/blocking_timer.rs:7-20 | after waiting, at least the given time has passed |
| StatusCell.CellularRegistrationStatus.SetStatus | ublox-cellular/src/registration.rs:56-63 | a report moves the start time only when the status changes, and always the update time |
| StatusCell.CellularRegistrationStatus.Reset | ublox-cellular/src/registration.rs:46-50 | a reset forgets status and both times |
| StatusCell.CellRefinesHistory | ublox-cellular/src/registration.rs:46-63 | for any sequence of reports and resets: status and update time are those of the last report, the start time is that of the first report of the last maximal equal run, unset for a run of None straight after a reset |
| StatusCell.StickyMeaning | ublox-cellular/src/registration.rs:32-36 | sticky and duration equal their definitions over the history, and start never lies after update |
| StatusCell.LastRunStart | ublox-cellular/src/registration.rs:56-63 | every nonempty history has a last maximal run of equal reports |
| StatusCell.StatusCodes | ublox-cellular/src/registration.rs:74-86 | numbers and statuses correspond in both directions, and every other number is no status |
| Supervisor.CounterCountsInterventions | ublox-cellular/src/network.rs:282-283 | the 8-bit counter is min(255, 1 + interventions since the restart) |
| Supervisor.CalledForIff | ublox-cellular/src/network.rs:260-381 | each of the four interventions is called for exactly when, while Connecting, its own cell has been reported again after it came up and has lasted for the counter times 15 s, and the statuses are the ones of that branch; the conditions exclude one another except that EPS evidence goes first |
| Supervisor.RegisteredIff | ublox-cellular/src/network.rs:247-248 | registered means at home or roaming, for circuits and packets, or for EPS |
| Supervisor.StartedSinceRestart | ublox-cellular/src/registration.rs:243-251 | no cell has a start time before the last restart |
| Supervisor.FiringTakesTime | ublox-cellular/src/network.rs:268-269 | an intervention fires only when some cell has lasted for counter times 15 s |
| Supervisor.BackoffBound | ublox-cellular/src/network.rs:265-269 | the n-th intervention after a restart comes at least 15 min(255, n) s after it |
| Supervisor.BackoffEverywhere | ublox-cellular/src/network.rs:260-412 | the same bound for every intervention at any place of a run |
| Supervisor.WaitsAddUp | ublox-cellular/src/network.rs:260-412 | while every intervention resets all three cells (the first three branches, and an attach whose forcing fails at once), start times and clock stay beyond the sum of all waiting times |
| Supervisor.TriangularBackoff | ublox-cellular/src/network.rs:260-412 | then the n-th intervention comes at least 15 n(n+1)/2 s after the restart |
| Supervisor.WaitsAddUpFromStart | ublox-cellular/src/network.rs:151-155 | and, counted from the registration start time, which the initialisation re-arms after the restart, the n-th one lies at least 15 (n(n+1)/2 - 1) s later |
| Supervisor.AtMostFourBeforeTimeout | ublox-cellular/src/network.rs:187-195 | so at most four of them fit in the 180 s registration timeout, measured from the start time as the driver measures it |
| Supervisor.EarliestIsReached | ublox-cellular/src/network.rs:373-409 | an attach that did not fail keeps EPS, and CSD when roaming: the next intervention can come when such a kept start has lasted for the counter times 15 s and a poll has been due, and a continuation of the run that does so is given |
| Supervisor.NoEarlierThanEarliest | ublox-cellular/src/network.rs:373-409 | and never earlier than that, whatever polls, reports and moves come in between |
| Supervisor.TriangleUndercutIff | ublox-cellular/src/network.rs:373-409 | so after any attach that did not fail the next intervention can undercut the triangular bound exactly when that time, computed from the state at the attach, lies below the bound |
| Supervisor.AttachBreaksTriangle | ublox-cellular/src/network.rs:373-409 | and it does happen: a run with a first check at 0 s and a poll at 15 s, where the attach fires at 15 s, can be continued to a second intervention before the 45 s of the bound (at the poll due at 30 s) |
| Supervisor.QuietUntilReport | ublox-cellular/src/network.rs:260-412 | after an intervention of any branch and outcome, none can fire again at any later time until a report has been recorded |
| Supervisor.QuietAfterFiring | ublox-cellular/src/network.rs:260-412 | right after any branch fired, no branch can fire at any time and no registered condition holds |
| Supervisor.StillWanted | ublox-cellular/src/network.rs:260-381 | an intervention once called for is not made superfluous by waiting, though another branch may take its turn |
| Supervisor.CheckTimeCoversPolls | ublox-cellular/src/network.rs:183-183 | the check time never lies before a poll that has been made |
| Supervisor.PollsFarApart | ublox-cellular/src/network.rs:169-183 | any two polls are at least 15 s apart, whatever resets and interventions happen between them |
| Supervisor.PollRate | ublox-cellular/src/network.rs:169-183 | a window of length T holds at most T/15 s + 1 polls |
| Supervisor.NeverDisconnectedAgain | ublox-cellular/src/network.rs:240-258 | once the connection state has left Disconnected it never returns there; this holds by the guard of the moves, as the driver moves only to Connecting or Connected |
| Registration.RegistrationState.Reset | ublox-cellular/src/registration.rs:243-251 | a restart clears the three cells, sets start and check time from two clock readings in this order, forgets the IMSI check and sets the counter to 1; the connection state stays |
| Registration.RegistrationState.SetConnectionState | ublox-cellular/src/registration.rs:253-260 | an unchanged state is no event; otherwise the state moves, and nothing else; times and counter stay |
| Registration.RegistrationState.CompareAndSet | ublox-cellular/src/registration.rs:262-297 | a report reaches the cell of its own type and leaves the other two; an unknown type changes nothing; times and counter stay |
| Registration.RegistrationState.Record | ublox-cellular/src/registration.rs:189-208 | the fields always hold the state that a legal sequence of events leads to |
| Milestones.ProgressIsOrdered | ublox-cellular/src/client.rs:201-320 | progress k through a script means that its first k milestones were met at increasing places since the mark |
| Milestones.OrderedIsProgress | ublox-cellular/src/client.rs:201-320 | and no choice of places gets further than the recorded progress |
| Milestones.CompletedIffInOrder | ublox-cellular/src/client.rs:399-474 | a script is completed exactly when its milestones occur in order since the mark |
| Milestones.PreparedGrows | ublox-cellular/src/services/data/mod.rs:73-121 | a definition once acknowledged stays so until the next setup |
| Milestones.DefinitionFollowed | ublox-cellular/src/services/data/mod.rs:73-121 | following the script of a definition means CFUN=0, the APN definition if one is given, and CFUN=1 acknowledged in order after its beginning |
| Milestones.DefinitionIsScript | ublox-cellular/src/services/data/mod.rs:73-121 | and conversely |
| Milestones.UndisturbedMeaning | ublox-cellular/src/network.rs:474-492 | a setup is undisturbed exactly when every successful +UUPSDA and every +UUPSDD of the own profile since it came after a definition |
| Milestones.UrcDefinesNothing | ublox-cellular/src/network.rs:474-492 | consuming a URC never counts as a definition, and before one a successful +UUPSDA or an own +UUPSDD disturbs the setup |
| Network.ActivationSkipsDefinition | ublox-cellular/src/network.rs:474-484 | why the context property needs its condition: from any log that ends in the beginning of a setup, one exchange that consumes a successful +UUPSDA leaves the context Active with no definition acknowledged |
| Network.UrcKeepsContextIff | ublox-cellular/src/network.rs:474-492 | the exact condition for one URC: that the context has left Setup only after a definition survives it exactly when a definition is there, or it is neither a successful +UUPSDA nor a +UUPSDD of the own profile |
| Network.Network.HandleUrc | ublox-cellular/src/network.rs:432-507 | one URC at most decides the context state: activation result 0 makes it Active, another result Setup, deactivation of profile 1 Activating, anything else leaves it |
| Network.FollowsTransitive | ublox-cellular/src/network.rs:432-507 | that the context state changes only by the URCs consumed, in their order, carries over from steps to stretches of the log |
| Network.Network.SendInternal | ublox-cellular/src/network.rs:509-524 | one exchange: an optional URC when URCs are checked, then the command with its reply; the context state changes only by that URC, and has left Setup only after a definition, unless a URC came first |
| Network.Network.ResetRegTime | ublox-cellular/src/network.rs:151-155 | start and check time are set to the same clock reading, the present one; the driver does so only before any intervention |
| Network.Network.CheckRegistrationState | ublox-cellular/src/network.rs:240-258 | afterwards the state is Connected exactly when (CSD and PSD) or EPS is registered, unless Disconnected by choice; becoming registered is one move and no more; losing registration restarts the supervisor and goes to Connecting |
| Network.Network.SelectBranch | ublox-cellular/src/network.rs:260-381 | the four branches, tested in the order and with the conditions of the transition system |
| Network.Network.CountIntervention | ublox-cellular/src/network.rs:279-283 | a branch resets its cells (all three, or PSD for the attach, which leaves the other two) and adds one to the counter, up to 255 |
| Network.Network.CycleRadio | ublox-cellular/src/network.rs:308-326 | CFUN=0, then CFUN=1, stopping at the first error |
| Network.Network.ForceAttach | ublox-cellular/src/network.rs:385-408 | +CGACT is read and then forced; if forcing fails all cells are reset and the operator reselected; errors end it where the code returns |
| Network.Network.InterveneRegistration | ublox-cellular/src/network.rs:260-412 | exactly the branch called for at the time read from the clock fires, with exactly its commands; otherwise nothing changes; an error is that of the last command of a fired branch, and after a branch nothing can fire and no registered condition holds |
| Network.Network.QueryDomain | ublox-cellular/src/network.rs:417-427 | an answered status query sets the cell of its own domain to the status of the number in the answer and leaves the others; a failed one changes none |
| Network.Network.UpdateRegistration | ublox-cellular/src/network.rs:414-430 | the extended error report and the three status queries are sent in order, each answer recorded |
| Network.Network.Supervise | ublox-cellular/src/network.rs:164-167 | while registering, the intervention called for at the time of the tick is made, with its commands before any other, and none when none is; errors come only from an intervention, and no poll is made; the IMSI is read when that is due; afterwards the connection state agrees with the cells; a stuck registration stays stuck, and an error leaves it quiet; the context state changes only by the URCs consumed |
| Network.Network.PollIfDue | ublox-cellular/src/network.rs:169-202 | a poll with its four queries is made exactly when one is due, and a tick without a poll sends nothing and succeeds; after a poll the 180 s timeout is reported exactly when Connecting has lasted that long |
| Network.Network.ProcessEvents | ublox-cellular/src/network.rs:157-203 | the watchdog trips exactly when the unbounded sum of timed-out attempts exceeds 10, and up to 10 no trip is in the log; without a trip a timeout means 180 s of Connecting; when the cells call for an intervention at the start of the tick, one is the first event; a tick that gets so far polls when that is due, and reports the timeout then; a stuck registration ends in a timeout at once or, after an intervention error, at the next tick |
| Network.Network.TwoTicks | ublox-cellular/src/network.rs:157-203 | of two consecutive ticks over a stuck registration one reports a timeout |
| Network.Network.CheckRunningImsi | ublox-cellular/src/network.rs:205-238 | nothing is sent within 60 s of the last check; when there was none or it is 60 s old the IMSI is read, followed by AT exactly when that fails; the check is marked exactly when the module answered; neither registration nor context changes |
| Sockets.SocketSet.Add | ublox-cellular/src/services/data/tcp_stack.rs:25-51 | a socket is added exactly when there is room and its handle is new |
| Sockets.SocketSet.Recycle | ublox-cellular/src/services/data/tcp_stack.rs:28-34 | only a socket closed by the remote end is dropped, or none |
| Sockets.SocketSet.Notify | ublox-cellular/src/client.rs:535-559 | a socket URC marks the named socket as closed, or sets its available count, and changes nothing else |
| Sockets.PhaseMeaning | ublox-cellular/src/services/data/tcp_stack.rs:54-99 | the phase of a handle says whether it is alive (added, and neither removed nor dropped by a new setup since), its TLS setting acknowledged, and not yet connected in this life |
| Sockets.ConnectedInTurn | ublox-cellular/src/services/data/tcp_stack.rs:64-86 | an acknowledged +USOCO comes only while the handle is alive, after an acknowledged +USOSEC for it, and at most once |
| Sockets.BrokenForGood | ublox-cellular/src/services/data/tcp_stack.rs:64-86 | a handle connected out of turn would stay recorded as such |
| Ingress.AfterPass | ublox-cellular/src/services/data/mod.rs:524-635 | a pass only appends to the receive buffer, keeps identity and capacity, and may only close the socket |
| Ingress.BytesNameTheirSocket | ublox-cellular/src/services/data/mod.rs:596-621 | bytes are appended only from a reply that names the socket, and they are a prefix of what its text decodes to |
| Ingress.RequestIff | ublox-cellular/src/services/data/mod.rs:527-594 | a pass sends a command exactly when the available count is zero and a refresh is due (a read of nothing), or when there is something to read and room (a read, by the command for the kind of socket, of the most bytes within the available count, 256 and the room) |
| Ingress.IngestedMeaning | ublox-cellular/src/services/data/mod.rs:596-632 | the bytes of a data reply are appended, as far as they fit, exactly when it names the socket, carries hexadecimal text and announces their number or zero; a length of zero clears the available count; nothing else changes |
| Ingress.RefreshMeaning | ublox-cellular/src/services/data/mod.rs:527-548 | a refresh sets the available count to the length in the reply, or finds the socket closed; a pass without a command or with a failed read changes nothing |
| Ingress.RefreshRecovers | ublox-cellular/src/services/data/mod.rs:519-646 | when a notification was lost, a refresh answered with the number of unread bytes and one read answered in full take in as many of them as a chunk and the room allow |
| Ingress.ReadsFit | ublox-cellular/src/services/data/mod.rs:546-555 | the length in the command of a data read is at least one, within the available count, 256 and the room, and the greatest that is |
| Ingress.IngestMovesBytes | ublox-cellular/src/services/data/mod.rs:593-632 | with a modem that answers truthfully a pass moves exactly the bytes it takes to the end of the buffer; the text fits 512 characters and enqueuing never falls short |
| Ingress.RunConserves | ublox-cellular/src/services/data/mod.rs:519-646 | over any run of arrivals, notifications, passes, receives and a close: delivered, buffered and unread bytes, in this order, are the bytes that arrived |
| Ingress.DeliveredIsPrefix | ublox-cellular/src/services/data/mod.rs:519-646 | what the caller gets is a prefix of what arrived |
| Ingress.StepConserves | ublox-cellular/src/services/data/mod.rs:519-646 | every single step keeps that conservation |
| Egress.ChunkSizes | ublox-cellular/src/services/data/mod.rs:57-57 | chunks hold 1 to 1024 bytes, all but the last exactly 1024 |
| Egress.ChunksJoin | ublox-cellular/src/services/data/tcp_stack.rs:90-90 | the chunks joined are the buffer, and any number of them is a prefix |
| DataService.DataService.AttachNetwork | ublox-cellular/src/services/data/mod.rs:241-260 | success means the last answer said attached; one to ten queries and no other command are sent, and giving up takes exactly ten and as many seconds |
| DataService.DataService.ActivateProfile | ublox-cellular/src/services/data/mod.rs:425-489 | on success the profile is mapped to the context and was active already or its activation has just been acknowledged; modules without profiles send nothing |
| DataService.DataService.MapProfile | ublox-cellular/src/services/data/mod.rs:429-465 | on success the modem reported no other mapping, or the mapping to the context has been acknowledged |
| DataService.ContextActiveIff | ublox-cellular/src/services/data/mod.rs:414-423 | a context counts as active exactly when the first status listed for its id says so |
| DataService.DataService.ActivateContext | ublox-cellular/src/services/data/mod.rs:404-506 | the first command lists the contexts; success means Active at the end and, unless it was so before, that the first status listed for context 1 was active, and that the profile is mapped and active on modules with profiles; the caller is told to wait only after a list without it and an acknowledged activation |
| DataService.DataService.ConnectContext | ublox-cellular/src/services/data/mod.rs:216-238 | success means Active, whatever URCs were consumed on the way, and, unless it was so before, that the modem listed the context as active or reported its activation; an active context sends nothing; else attach queries come first, at least one, and anything more only after the last of them was answered with attached |
| DataService.DataService.TryNew | ublox-cellular/src/services/data/mod.rs:193-213 | success means a context that was active, or that the modem has listed or reported as active since; then every socket gets its ingress pass, and the log ends with exactly those passes; ingress does not disturb the active context |
| DataService.DataService.Ingest | ublox-cellular/src/services/data/mod.rs:596-632 | a data reply is checked, decoded in place and enqueued exactly as the pure description says |
| DataService.DataService.SocketIngress | ublox-cellular/src/services/data/mod.rs:524-635 | one socket, one pass: state and commands are those of the pure description; a command that is sent is a read for that socket by the command of its kind, of no bytes for a refresh and else of a number within the available count, 256 and the room |
| DataService.DataService.SocketIngressAll | ublox-cellular/src/services/data/mod.rs:519-646 | each socket's outcome depends on its own reply alone, so an error on one leaves the others as without it; the commands are exactly those of the passes |
| DataService.DataService.OpenSocket | ublox-cellular/src/services/data/tcp_stack.rs:25-51 | a full set refuses and sends nothing unless a socket closed by the remote end is dropped, which is then the first entry logged; without one it always refuses; success adds a Created socket under the handle the modem named; otherwise +USOCR was refused, or named a handle already held |
| DataService.DataService.ConnectTo | ublox-cellular/src/services/data/tcp_stack.rs:54-99 | a handle that is not a Created TCP socket fails with its own error and sends nothing; otherwise the TLS setting goes first and success is an acknowledged +USOCO; failure changes no socket |
| DataService.DataService.IsConnected | ublox-cellular/src/services/data/tcp_stack.rs:102-108 | says whether the TCP socket with the handle is connected, and fails exactly when there is none |
| DataService.DataService.WriteChunk | ublox-cellular/src/services/data/tcp_stack.rs:121-149 | one prepare announcing the length of the payload, then the payload; success means an answer for that socket and length, and each error names what was wrong with the last answer |
| DataService.DataService.SendData | ublox-cellular/src/services/data/tcp_stack.rs:112-152 | whatever errors and short writes happen the modem has taken a prefix of the buffer; success means all of it, in exactly one acknowledged prepare and write for each chunk; a failure is that of a missing or unconnected socket, with nothing sent, or of the last answer |
| DataService.DataService.Receive | ublox-cellular/src/services/data/tcp_stack.rs:157-171 | bytes leave the front of the receive buffer, in order |
| DataService.DataService.Close | ublox-cellular/src/services/data/tcp_stack.rs:174-184 | exactly one +USOCL is sent; the socket leaves the set whatever the modem answers, and every other socket stays as it was |
| Device.Device.constructor | ublox-cellular/src/client.rs:118-129 | a new device is off |
| Lifecycle.TallyMeaning | ublox-cellular/src/power.rs:108-164 | the tally of a log counts its power losses, its last reading is that of the last probe, and it is zero in one field exactly when no power loss or silent reset comes right after a probe that said On |
| Lifecycle.SetupAt | ublox-cellular/src/client.rs:201-320 | the setup script place by place: a probe that says On, then the commands of the setup with their arguments |
| Lifecycle.InitAt | ublox-cellular/src/client.rs:416-466 | the rest of the initialisation script, place by place |
| Device.Device.IsAlive | ublox-cellular/src/power.rs:42-53 | success means AT has just been acknowledged; at most the given number of AT commands is sent, and failure has used them all |
| Device.Device.ReadPower | ublox-cellular/src/power.rs:204-218 | one probe, by Vint or by signs of life; without a Vint pin it says On only when the modem has just acknowledged AT; only a Vint error fails |
| Device.Device.WaitPowerOn | ublox-cellular/src/power.rs:221-247 | at most timeout / 5 ms probes, and success exactly when the last one said On, which without a Vint pin takes an AT acknowledged just before; a timeout comes only after the whole time |
| Device.Device.Pulse | ublox-cellular/src/power.rs:136-152 | success takes a probe that said On and 3 s more; giving up takes 10 s, or a probe error |
| Device.Device.SoftReset | ublox-cellular/src/power.rs:75-103 | success exactly when the last probe said On, with the AT acknowledged just before when there is no Vint pin; a failure is a refused command, 30 s of waiting or a probe error; no power loss is recorded |
| Device.Device.HardReset | ublox-cellular/src/power.rs:108-125 | the power state is Off afterwards, and a reset pin costs 5 s; success only with a log ending in a probe that said On, backed by an acknowledged AT without a Vint pin; one power loss of its own and one for each further round that failed; the reason of a failure is stated |
| Device.Device.PowerOn | ublox-cellular/src/power.rs:127-164 | success only with a log ending in a probe that said On, backed by an acknowledged AT without a Vint pin; with a power pin it always ends without a hard reset; without one the hard resets are exactly the rounds in which neither the probe nor the silent reset succeeded (less one when it is still running); no power loss or silent reset follows a probe that said On; failure means an unreadable Vint pin, or, with a power pin, 10 s without success |
| Device.Device.SoftPowerOff | ublox-cellular/src/power.rs:166-177 | success exactly when +CPWROFF has been acknowledged, and then the power state is Off; failure changes no state |
| Device.Device.HardPowerOff | ublox-cellular/src/power.rs:179-200 | off only with a power pin, after a probe that did not fail; success means that, or a last probe that said Off; without a power pin, or on a probe error, unchanged |
| Device.Device.SelectSimCard | ublox-cellular/src/client.rs:354-389 | success only when the module has just reported READY; failure only after two other answers, 2 s, and the radio cycled or a command refused |
| Device.Device.SetupAtCommands | ublox-cellular/src/client.rs:201-320 | success means a probe that said On and every mandatory command of the setup acknowledged in order since the power state last became Off, and no sockets; failure leaves the state alone and has one of the stated reasons |
| Device.Device.Greet | ublox-cellular/src/client.rs:209-216 | success means an acknowledged AT; failure means five commands without one, and a hard reset |
| Device.Device.BeginSetup | ublox-cellular/src/client.rs:202-205 | sockets are dropped, which ends their life in the log, and the contexts are to be configured again |
| Device.Device.EnableRegistrationUrcs | ublox-cellular/src/client.rs:484-530 | the three registration URC settings acknowledged in order; the event report setting may fail |
| Device.Device.ChooseOperator | ublox-cellular/src/client.rs:451-466 | the last answer said that the operator is selected automatically or manually already, or automatic selection has just been acknowledged |
| Device.Device.EnsurePowered | ublox-cellular/src/client.rs:400-411 | an unpowered device first becomes State Off; only a successful power-up, ending in a probe that said On, sets the power state On; failure comes only after a hard reset |
| Device.Device.Configure | ublox-cellular/src/client.rs:416-473 | success means the whole script in order, FullyInitialized and Connecting, the registration queried last and both its times armed at this moment; no sockets are left |
| Device.Device.Initialize | ublox-cellular/src/client.rs:399-474 | a device that is on and FullyInitialized is left entirely unchanged, and that is a success; otherwise success means FullyInitialized with the whole script followed since the power state last became Off, and registration just armed; failure has one of the stated reasons |
| Device.Device.HandleUrcInternal | ublox-cellular/src/client.rs:532-566 | at most one socket URC is taken; it changes the socket it names as stated for Notify, and no other |
| Device.Device.ProcessEvents | ublox-cellular/src/client.rs:568-584 | a trip enters the hard reset and never succeeds; power is lost only when the timed-out attempts exceeded 10 or 180 s of Connecting have passed, so never after a plain AT error, which leaves the device on; a stuck registration ends in Off or leaves nothing to fire; a called-for intervention is the first thing recorded; success leaves power and state as they were, has polled when that was due, and changes the context state only by URCs; at most one socket has been told of a URC |
| Device.Device.TwoTicks | ublox-cellular/src/client.rs:568-584 | a device whose registration is stuck is hard-reset by the second tick |
| Device.Device.Spin | ublox-cellular/src/client.rs:176-194 | success means On, FullyInitialized in order since the power state last became Off, and Connected; being told to wait means neither that nor an Active context; an initialised device gets its tick: no socket is dropped, nothing is set up again, the context changes only by URCs (and by the demotion), interventions and polls are made when due, and power is lost only by the watchdog or the timeout |
| Device.Device.DemoteContext | ublox-cellular/src/client.rs:188-191 | an active context becomes Activating when the connection is lost |
| Device.Device.DefineContext | ublox-cellular/src/services/data/mod.rs:73-121 | success in Setup means CFUN=0, the APN definition if given and CFUN=1 acknowledged in order in this call; otherwise nothing is sent; a failure is that of the last command |
| Device.Device.OpenDataService | ublox-cellular/src/services/data/mod.rs:141-170 | success means On, FullyInitialized, Connected and Active at this moment, for any URCs consumed on the way; a caller told to wait finds the context defined, or its setup disturbed by a URC |
| Device.Device.SurvivesService | ublox-cellular/src/services/data/mod.rs:181-187 | whatever a data service does between ticks keeps the device valid |
| Device.Device.InitialisedInOrder | ublox-cellular/src/client.rs:399-474 | in every reachable state that is On and FullyInitialized a probe said On and then the script was acknowledged, at increasing places after the last power loss |
| Device.Device.ContextDefinedInOrder | ublox-cellular/src/services/data/mod.rs:73-121 | in every reachable state whose context has left Setup, CFUN=0, the APN definition if given and CFUN=1 were acknowledged in order since that setup, unless a successful +UUPSDA or an own +UUPSDD came in before a definition |
| Device.Device.ConnectionsInTurn | ublox-cellular/src/services/data/tcp_stack.rs:64-86 | every acknowledged +USOCO in the log of a reachable state came in turn |
| Device.Device.InterventionsBackOff | ublox-cellular/src/network.rs:260-412 | the backoff bound holds for every intervention a device ever made |

## Left out

- The AT transport: serialisation, retries and the URC channel are not part of this model; a send returns any reply, and a URC check consumes any URC or none.
- The socket library is not part of this model: sockets are values with a bounded queue, the set refuses duplicate handles, pruning empties it, and `can_recv` is arbitrary except that it implies a window. Socket storage is given once, at construction.
- Raw user commands (`send_at`) and user URC handlers: a user may send anything, including the commands the log properties are about.
- UDP sockets beyond ingress: the UDP stack cuts at 1024 bytes while its payload argument declares 512, so its size claim is not carried over.
- TLS security profiles, DNS lookups, the +UPSD build, `factory_reset`, signal strength: straight command sequences, or another build.
- IMSI flag and cell identity of the registration state: recorded by the driver, never used for a decision.
- Pins: setting them cannot fail here, and a Vint reading is arbitrary.
- 64-bit overflow of clock ticks.
- Wait: the busy loop of the blocking timer is taken to end, as a clock that stands still would keep it for ever.
- PowerOn: the recursion without a power pin is cut after `rounds` further rounds, because the program need not terminate; what holds is stated for every number of rounds.
- RunConserves: assumes that a read the transport reports as failed took no bytes from the modem; a reply lost after the modem gave the bytes away is not covered.
- SendRetry: assumes that the length in an acknowledged write is what the modem took, and that a write the transport retries is taken at most once; an answer that lies about it, or a retry after a lost answer, is not covered. The payload command states no number of attempts, so it has the transport's default.
- SetConnectionState: takes only moves to Connecting after a reset and to Connected when the cells say so, because the driver makes no others and every recorded change must be one of the transition system.
- CompareAndSet: takes reports only in their turn of a poll or first check, for the same reason.
- ResetRegTime: re-arms the clocks only before any intervention, for the same reason.
