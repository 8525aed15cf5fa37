# tny: a verified model of its protocol and decision cores

tny runs coding agents: it admits their launches against shared limits, serves them tools over a local socket, and
ships with an offline improvement search, an ABI compatibility comparison, a release planner and an SDK conformance check.
This project models the parts of it whose correctness depends on whole runs or on several functions agreeing, and
proves what those parts are for. `dafny verify dfyconfig.toml` checks everything.

| files | what they model |
|---|---|
| `AdmissionLedger`, `AdmissionFile`, `AdmissionRuns`, `AdmissionService` | The launch admission ledger: an append-only FIFO of permits shared by any number of supervisors through one JSON file. The ledger as a value, its stored form, arbitrary runs of calls (busy locks, host errors, crashes, writes that landed or did not without the caller knowing), and the array-and-counters program proved equal to the value. |
| `BridgeModel`, `BridgeLaws`, `BridgeRuns`, `BridgeReplies`, `BridgeService` | The ACP/MCP tool bridge: four connections with at most one outstanding call each, hooks, verdicts, parked permissions, asynchronous results, deadlines, cancellation and turn ends. Every answer from outside is an arbitrary input. `BridgeRuns` is about runs, `BridgeReplies` about what each peer is told, and `BridgeService` is the class that updates the records in place. |
| `BridgeStreams`, `BridgeContext` | Newline framing of a connection's input, the two-way byte relay, and the durable forward/acknowledge queue. |
| `ImproveNames`, `ImproveSearch`, `ImproveStory`, `ImproveReplay`, `ImproveTheorems`, `ImproveLimits`, `ImproveRun` | The bounded improvement search over an external proposer and evaluator, its evidence archive (a map from file names to bytes), sealing, verification by replay, and promotion, with every size bound the program checks. `ImproveStory` says what a search did in terms of its files alone; `ImproveLimits` shows where recording and verification part ways. |
| `Abi`, `AbiMeaning` | ABI descriptions: the rules `validate` and `compare` apply, how acceptance composes over several releases, and overlay merging; and what acceptance means promise by promise. |
| `FreezeLiteral` | The printer that turns bytes into C string literals, against a reader for such literals. |
| `Conformance` | The event validator of the SDK conformance report and its normalisation. |
| `Release` | The release planner over an abstract repository of tags. |
| `AskScan`, `AskMeaning` | The two independent scanners of the `ask` command line, the swarm preflight around the second, and what such a command line means, stated by position. |
| `Common` | Option and Result, JSON values, decimal numbers and dotted versions. |

Some properties one would like turn out to hold only under a condition; each is stated with its exact condition and a
concrete failing input:

- A completed, eligible, sealed improvement run is accepted exactly when its manifest is at most 1 MiB: `_verify` reads
  the manifest under that bound and `_seal` writes it without one. The length of the manifest follows from the file names
  alone, and a run of one round over 2,000 train cases is already too long (`ImproveTheorems`, `ImproveLimits`).
- An accepted archive is its run's recording, byte for byte, except for two kinds of files: the context, which may hold
  further keys, and the commands' records, which are compared as parsed values, so that `0` may be spelled `false` and `5`
  may be spelled `5.0`. It equals the recording exactly when those are spelled as a run spells them (`ImproveTheorems`).
- Comparing each release only with the one before it is safe exactly when no struct turns from `fixed` to `sized_tail`
  and no struct lets a new field in where it had kept it out: `compare` reads mode and `append_from` of the baseline and
  never looks at the candidate's, and `validate` ties `append_from` to the size of growable structs only (`Abi`).
- An acknowledgement right after a failed prepare may drop items that no prompt carried (`BridgeContext`). The client only
  acknowledges after a successful prepare, and then the promise holds; and a queue that was only fed through
  `session_add_runtime_context` is always prepared whole.
- Normalised conformance events pass validation again, except in a future-event scenario whose event is not of type
  `unknown`, because normalisation drops its `kind` and `payload` (`Conformance`). Normalisation itself fails exactly on
  accepted events that lack a key it takes for granted.
- The two `ask` scanners read every command line the option loop accepts alike, and the swarm preflight refuses such a
  line for exactly four reasons: two swarm files, a file beside a count, an unreadable file, or a swarm in a session that
  is not saved or cannot lead one (`AskScan`).

A stop from the permission hook is requested but leaves the turn active, unlike a stop from the pre-tool hook; no tool
body runs after either until the next turn.

## Model

| member | source | states |
|---|---|---|
| AdmissionLedger.NextKeepsSound | src/core/admission.c:127-191 | No operation by any supervisor can push active, queued, claims or history over its limit or enrol an identity twice, and no attempt's life ever moves backwards. |
| AdmissionLedger.NextTicket | src/core/admission.c:127-191 | A ticket is the attempt's permanent position; an operation on one attempt leaves every other attempt untouched, and no ticket means no change. |
| AdmissionLedger.GrantMeaning | src/core/admission.c:173-189 | Only a CLAIM grants; the granted attempt was the first one waiting, so nobody waits ahead of it afterwards, and exactly one permit and one lifetime claim are spent. |
| AdmissionLedger.ClaimGranted | src/core/admission.c:173-189 | The converse: the first waiting attempt that claims while both budgets have room is always granted. |
| AdmissionLedger.AnswerMeaning | src/core/admission.c:113-191 | For an enrolled attempt each reason corresponds, in both directions, to where the attempt stands afterwards and to the budget that holds it back; QUEUED_FIFO on a CLAIM means somebody is ahead. |
| AdmissionLedger.RefusalMeaning | src/core/admission.c:133-152 | An answer without a ticket leaves the ledger as it was, and its reason is exactly the first of not found, exhausted, history full and queue full that applies. |
| AdmissionLedger.Accounting | src/core/admission.c:127-191 | The three counters move by exactly what happened: claims only by grants, permits by grants and proven releases of held ones, the queue by enrolments, grants and cancellations. |
| AdmissionLedger.CancelSettles | src/core/admission.c:133-166 | Whatever a CANCEL finds (unknown, waiting, owned, full history), it leaves an attempt that can no longer be granted. |
| AdmissionLedger.PhaseAfter | src/core/admission.c:127-191 | For an attempt with a ticket the phase before and the operation fix the phase and the answer afterwards: CANCEL or HOLD of an owned attempt answers CLEANUP_HOLD and leaves a hold, CANCEL of a waiting one leaves it canceled, a proven RELEASE of a held one leaves it released, a grant turns waiting into owned, and nothing else moves a phase. |
| AdmissionLedger.RefusedExactly | src/core/admission.c:167-172 | An operation is refused exactly when it is a RELEASE without proof of an attempt that holds a permit, and then with EPERM. |
| AdmissionLedger.TicketRefused | src/core/admission.c:133-152 | No ticket is given exactly to an unknown attempt that does not ask to enter, or that the lifetime, queue or history limit keeps out. |
| AdmissionLedger.PublicIdExactly | src/core/admission.c:27-34 | A public name has 1 to 63 characters, each an ASCII letter, digit, dash or underscore, and every such text is one. |
| AdmissionFile.LoadAcceptsOnlySound | src/core/admission.c:44-94 | Whatever is on disk, a file that `load` accepts satisfies every limit, with distinct identities and true counters. |
| AdmissionFile.SaveLoadRoundTrip | src/core/admission.c:44-112 | Loading what was saved returns the same ledger exactly when that ledger was sound. |
| AdmissionFile.OtherLimitsRefused | src/core/admission.c:44-94 | A file saved under other limits is refused with EINVAL, never reinterpreted. |
| AdmissionFile.StoredForm | src/core/admission.c:95-112 | The stored document key by key: six members with the limits and the claims, and per attempt its identity and the number of its state, from 0 for waiting to 4 for canceled. |
| AdmissionFile.LoadIsStrict | src/core/admission.c:44-94 | Only that exact form loads: version 1, the caller's very limits, six members, four members per entry, each of its type and range, and claims that count the entries. |
| AdmissionFile.CallExactly | src/core/admission.c:194-199 | Exactly what a caller must pass: a place, two public names, a cap and a queue limit from 1 to 128, a claim limit, and, unless it provisions, a public run name and an attempt that is not 0. |
| AdmissionRuns.ServeRefines | src/core/admission.c:192-242 | A call against the stored JSON answers and changes exactly what the same call does to the ledger it stands for, under every outcome of the write. |
| AdmissionRuns.GateTells | src/core/admission.c:192-222 | Bad arguments, an unsupported host, a nested CLAIM (EDEADLK), a failing host and a busy lock each give their own answer, in that order, and change nothing. |
| AdmissionRuns.InitTells | src/core/admission.c:223-232 | INIT stores an empty ledger when there is none, and answers READY with the counters ever after; without a ledger every other operation gets ENOENT, and under other limits every operation gets EINVAL. |
| AdmissionRuns.TransactionTells | src/core/admission.c:223-232 | A transaction that goes through stores its history and answers with the counters of what is then stored; a refused one changes nothing. |
| AdmissionRuns.WriteIsAllOrNothing | src/core/admission.c:95-112 | Whatever becomes of the write, the file is the old one or the one the call leaves when its write lands, and which of the two follows from the fate of the write. |
| AdmissionRuns.RunRefines | src/core/admission.c:192-242 | Over any run, starting from any sound file, the file is at every moment the saved form of a sound ledger. |
| AdmissionRuns.NoReachableFileIsCorrupt | src/core/admission.c:44-112 | From an empty directory no interleaving, crash or uncertain write leaves a file that a later call calls corrupt, and it loads back as the ledger it was saved from. |
| AdmissionRuns.GrantTicketsIncrease | src/core/admission.h:57-63 | In any run of any supervisors the fresh grants carry strictly increasing tickets. |
| AdmissionRuns.GrantedStaysClaimed | src/core/admission.c:127-191 | After a grant that attempt keeps its place for good and is never again waiting or canceled. |
| AdmissionRuns.GrantedAtMostOnce | src/core/admission.c:173-189 | One (run, task, attempt) is freshly granted at most once, even when earlier writes failed or their outcome was unknown. |
| AdmissionRuns.GrantsArePaidFor | src/core/admission.c:173-189 | Fresh grants handed out never exceed the growth of the stored claims, so a grant is only reported once it is on disk. |
| AdmissionRuns.GrantsWithinLifetimeLimit | src/core/admission.c:136-189 | From an empty directory a run hands out at most `claim_limit` fresh grants, ever. |
| AdmissionRuns.HeldGrantsWithinCap | src/core/admission.c:173-189 | At any moment at most `cap` granted attempts are unreleased in the stored ledger. |
| AdmissionRuns.ReleasedOnlyWithProof | src/core/admission.c:167-172 | If an attempt is found released, some call of the run was a RELEASE of that very attempt with cleanup proof; crashes and cancellations never free a permit. |
| AdmissionRuns.CancelIsFinal | src/core/admission.c:133-166 | Once a CANCEL has returned 0 with any reason but BUSY, that attempt is never granted later in the run. |
| AdmissionRuns.HoldStays | src/core/admission.c:162-172 | A CANCEL or HOLD of an owned attempt that is answered says CLEANUP_HOLD, and in every later file of any run that attempt is on hold or released. |
| AdmissionRuns.CommitsBounded | src/core/admission.c:127-191 | The stored ledger changes at most 4 x 1024 times over its whole life. |
| AdmissionRuns.WorkConserving | src/core/admission.c:127-191 | If every waiting attempt replays CLAIM once in ticket order, exactly min(queued, cap - active, claim_limit - claims) of them are granted. |
| AdmissionService.PublicId | src/core/admission.c:27-34 | Accepts exactly the names of 1 to 63 letters, digits, dashes and underscores. |
| AdmissionService.Ledger.Locate | src/core/admission.c:127-133 | The scan finds the first entry of the attempt, or the end of the history. |
| AdmissionService.Ledger.Status | src/core/admission.c:113-121 | The reported reason follows from the phase and from the real number of held permits, not from a stale counter. |
| AdmissionService.Ledger.Enroll | src/core/admission.c:133-152 | Under true counters, an attempt is refused or appended as the value-level rule says; the equality test for a full queue is sound because the counter is exact. |
| AdmissionService.Ledger.SettleEntry | src/core/admission.c:153-172 | The in-place update of phase and counters is the value-level settlement and leaves all counters true; `changed` is set exactly when the history differs. |
| AdmissionService.Ledger.Decide | src/core/admission.c:173-189 | The search for an earlier waiter and the grant equal the value-level decision and leave all counters true. |
| AdmissionService.Ledger.Transact | src/core/admission.c:127-191 | The whole transaction on the array equals one step of the ledger, and `dirty` is true exactly when something changed, so no change is lost and no idle write is made. |
| AdmissionService.Ledger.Save | src/core/admission.c:95-112 | The printed document is the stored form of exactly the entries in the array. |
| AdmissionService.Ledger.LoadEntries | src/core/admission.c:67-88 | The entry loop succeeds exactly on lists of well-formed, pairwise distinct attempts, and then leaves exactly those with true counters. |
| AdmissionService.Ledger.Load | src/core/admission.c:44-94 | Loading into the array succeeds or fails, with the same error, as reading the document does. |
| AdmissionService.StateFile.Apply | src/core/admission.c:192-242 | One public call: refusals in order, BUSY as a returned answer, then load, transact and save, with the file and the response those of the modelled atomic step. |
| BridgeLaws.LawfulCounts | src/core/acp_bridge.c:239-352 | In a lawful log a call number is admitted, run and answered at most once. |
| BridgeLaws.RunWasAllowed | src/core/acp_bridge.c:281-351 | When a tool body runs, the turn was live and the call had been allowed or approved by then, and no denial or refusal of it occurs before or after. |
| BridgeLaws.CompleteEffect | src/core/acp_bridge.c:162-237 | Ending a call either queues one reply with that call's own id or none at all, and touches no other connection. |
| BridgeReplies.LineReads | src/core/acp_bridge.c:72-85 | Read as a line of the protocol, every queued reply gives back its id, whether it is a result or an error, and its whole body. |
| BridgeReplies.ErrorReplyTells | src/core/acp_bridge.c:87-95 | An error reply is marked as one and carries its code and its message. |
| BridgeReplies.ErrorsAreFlagged | src/core/acp_bridge.c:162-218 | The reply to a call begins `{"isError":true` exactly when its result counts as an error (a replacement's own flag, otherwise the tool's or oversize images) or is over 8 MiB, begins `{"isError":false` exactly otherwise, and within the limit carries the effective text, with the captured images unless it is an error. |
| BridgeReplies.CompleteTells | src/core/acp_bridge.c:162-237 | Ending a call queues exactly that reply whole, or, where it does not fit, none and asks for the connection to be closed; the slot is free and no other connection changes. |
| BridgeReplies.SessionHears | src/core/acp_bridge.c:219-221 | The session is given a call's result exactly when the reply was queued, the call is on record and a session owns the turn. |
| BridgeReplies.DeniedTells | src/core/acp_bridge.c:258-263 | A denied call ends with `error: permission denied` under the error flag, unless a replacement says otherwise. |
| BridgeReplies.ExecuteTells | src/core/acp_bridge.c:239-257 | An approved call ends with its tool's own text and flag if its body ran to the end, with `error: ACP tool call cancelled` or `error: extension stopped subagent` if it could not run, and stays open while the body runs on. |
| BridgeReplies.AdmissionTells | src/core/acp_bridge.c:264-352 | For every combination of hooks, preparation, record, verdict, prompt and cancellation, whether a fresh call ends at once and with which text and flag. |
| BridgeReplies.SessionRecords | src/core/acp_bridge.c:275-325 | An admitted call has the next number and its request's id, and is put on record once, right before its verdict, when hooks and preparation let it through. |
| BridgeReplies.ExecuteStops | src/core/acp_bridge.c:239-257 | When running an approved call leaves the turn with a stop requested: exactly when one was, or when a hook on the way asked for one. |
| BridgeReplies.TickTells | src/core/acp_bridge.c:459-475 | A poll ends a running call with its asynchronous result, or past its deadline with `error: ACP tool call timed out`, and leaves a parked or idle connection alone. |
| BridgeReplies.CancellationEndsCall | src/core/acp_bridge.c:409-415 | A cancellation that names the outstanding call ends it, with one error reply under its id or a connection that is closed. |
| BridgeReplies.OwnerTells | src/core/acp_bridge.c:616-628 | What the peer of a parked call sees of the owner's answer: the denial, or the outcome of running the call. |
| BridgeReplies.EndTurnTells | src/core/acp_bridge.c:596-605 | The end of a turn answers every outstanding call, in every slot, with `error: owning ACP turn ended` under the error flag or closes its connection, and leaves all others as they were. |
| BridgeRuns.StepKeeps | src/core/acp_bridge.c:162-480 | Every input, whatever hooks, tools, peers and the owner answer, keeps the bridge invariant (balanced replies, lawful logs, unique call numbers, output within its limit). |
| BridgeRuns.RequestsAndReplies | src/core/acp_bridge.c:72-85 | On every connection neither closed nor aborted, the ids asked are, as a multiset, the ids answered plus the one outstanding call; the bytes sent and waiting are those replies, whole and in order, and at most 8 MiB wait. |
| BridgeRuns.NotificationGetsNoReply | src/core/acp_bridge.c:409-415 | A message without an id gets no reply of its own; the only reply it can cause is the cancelled call's, under that call's id. |
| BridgeRuns.ToolSafety | src/core/acp_bridge.c:239-352 | Over any run each call's body runs at most once, only while the turn is active with no stop requested, only if allowed or approved by then, never if denied or refused at any time; numbers are not reused and the session gets at most one result per recorded call. |
| BridgeRuns.CallOrRefusal | src/core/acp_bridge.c:264-281 | A `tools/call` request takes the next call number exactly when the turn is active and owned, the connection is free and the request is well-formed; any other changes nothing but at most one error reply under its own id, -32602 for the request's own faults, looked at last, and -32000 otherwise. |
| BridgeReplies.RequestTells | src/core/acp_bridge.c:416-428 | Every request but an initialized connection's `tools/call` gets exactly one reply, which its method and the initialization fix, if it fits; it is noted as asked, and nothing else changes. |
| BridgeReplies.OtherMessagesTell | src/core/acp_bridge.c:391-415 | A malformed message asks for the connection to be closed; a notification that does not cancel the outstanding call changes nothing. |
| BridgeReplies.RefusedCallTells | src/core/acp_bridge.c:264-275 | A `tools/call` that is turned away gets the first error that applies, with its code and text, and changes nothing else. |
| BridgeReplies.FlushTells | src/core/acp_bridge.c:470-480 | A tick writes exactly as much of what waits as the socket takes, and asks for the close exactly when the write broke or nothing can follow. |
| BridgeReplies.AcceptTells | src/core/acp_bridge.c:650-662 | A new connection takes the lowest free slot, and is refused exactly when all four are taken. |
| BridgeReplies.OwnerReaches | src/core/acp_bridge.c:616-628 | The owner's answer reaches a call exactly when some parked call has that number, and otherwise changes nothing. |
| BridgeReplies.TurnTells | src/core/acp_bridge.c:538-611 | A turn begins live, unstopped and unblocked; an abort ends it and forgets every outstanding call without a byte. |
| BridgeReplies.EndOfInputTells | src/core/acp_bridge.c:442-456 | A connection whose input ends inside a line is closed; otherwise it is read no more and stays for what is owed to it. |
| BridgeRuns.AdmissionOutcome | src/core/acp_bridge.c:264-352 | Exactly which combination of hooks, verdict, prompt, cancellation and stop makes a call run, wait for the owner or count as blocked, and which stops end the turn: the pre-tool stop does, the permission hook's stop does not. |
| BridgeRuns.ExecuteOutcome | src/core/acp_bridge.c:239-257 | An approved call runs its body exactly when the turn is active, not cancelled and not stopped, and stays open exactly when that body is asynchronous. |
| BridgeRuns.OwnerOutcome | src/core/acp_bridge.c:616-628 | A parked call the owner answers is unparked; it runs exactly when approved while the turn is still live, and blocks the turn's permission exactly when denied. |
| BridgeRuns.ParkedNeverTimesOut | src/core/acp_bridge.c:459-475 | No tick ends a call that waits for the owner, whatever the clock or an asynchronous result says. |
| BridgeRuns.RunningCallTimesOut | src/core/acp_bridge.c:459-475 | In every reachable state a running call has its deadline set, and the first tick past it ends the call. |
| BridgeRuns.EndTurnClears | src/core/acp_bridge.c:596-605 | After the end of a turn no connection has an outstanding call, whatever arrives, until the next turn begins. |
| BridgeService.AcpBridge.RequestStop | src/core/acp_bridge.c:337-339 | A stop is always recorded; the turn itself is ended only when asked for. |
| BridgeService.AcpBridge.QueueReply | src/core/acp_bridge.c:72-85 | A reply is appended whole or, when it does not fit 8 MiB, not at all and the connection is to be closed. |
| BridgeService.AcpBridge.PendingClear | src/core/acp_bridge.c:53-62 | Exactly the call fields of one connection are reset; its streams and every other connection stay. |
| BridgeService.AcpBridge.CompleteCall | src/core/acp_bridge.c:162-237 | The in-place completion equals the modelled one, including which stop flags it leaves. |
| BridgeService.AcpBridge.ExecuteCall | src/core/acp_bridge.c:239-257 | The in-place execution equals the modelled one for every answer of the hooks and the tool. |
| BridgeService.AcpBridge.JudgeCall | src/core/acp_bridge.c:326-351 | Verdict, permission hook, prompt and parking, in place, equal the modelled decision. |
| BridgeService.AcpBridge.Admit | src/core/acp_bridge.c:275-281 | The call is pending under a number one higher than any before, and the request's id is kept for its reply. |
| BridgeService.AcpBridge.AdmitCall | src/core/acp_bridge.c:275-352 | Numbering, the pre-tool hook, preparation, recording and the save, in place, equal the modelled admission. |
| BridgeService.AcpBridge.HandleToolCall | src/core/acp_bridge.c:264-352 | A refused request changes nothing but its own reply; any other becomes a call. |
| BridgeService.AcpBridge.HandleMessage | src/core/acp_bridge.c:391-430 | The method dispatch on one message equals the modelled one. |
| BridgeService.AcpBridge.Drain | src/core/acp_bridge.c:459-480 | The part of a tick after the input: asynchronous result, deadline, write and the decision to close. |
| BridgeService.AcpBridge.RespondPermission | src/core/acp_bridge.c:616-628 | The owner's answer reaches the first parked call with that number, or nothing. |
| BridgeService.AcpBridge.BeginTurn | src/core/acp_bridge.c:538-545 | A new turn clears the stop and the permission block. |
| BridgeService.AcpBridge.EndTurn | src/core/acp_bridge.c:596-605 | The loop over the connections ends every outstanding call, in slot order, after the turn is inactive. |
| BridgeService.AcpBridge.Abort | src/core/acp_bridge.c:606-611 | Every outstanding call is forgotten without an answer and the turn ends. |
| BridgeService.AcpBridge.Accept | src/core/acp_bridge.c:650-662 | A connection takes the first free slot and is refused exactly when there is none. |
| BridgeFrames.LinesAppend | src/core/acp_bridge.c:432-458 | Splitting a stream at a newline splits its lines. |
| BridgeFrames.RestSplits | src/core/acp_bridge.c:432-458 | Any stream is a part that ends at a newline followed by an unbroken rest. |
| BridgeFrames.OneLine | src/core/acp_bridge.c:432-441 | An unbroken text and its newline are framed as that one line with nothing left over; an empty one is skipped. |
| BridgeFrames.ChunkIndependent | src/core/acp_bridge.c:432-458 | Two readers of the same bytes that have handed over their complete lines have handed over the same lines and hold the same remainder, wherever reads and ticks fell. |
| BridgeFrames.DeliveredIsPrefix | src/core/acp_bridge.c:432-458 | At every moment the lines handed over are a prefix of all lines of the bytes received. |
| BridgeFrames.Reader.Consume | src/core/acp_bridge.c:436-441 | Taking one line out keeps lines handed over, buffer and bytes received in step. |
| BridgeFrames.Reader.ReadMore | src/core/acp_bridge.c:442-456 | One read: nothing received is lost; a stream is refused as too long only when its unfinished line exceeds 8 MiB less one read, and as truncated only when bytes remain after its end. |
| BridgeFrames.Reader.DrainInput | src/core/acp_bridge.c:432-458 | A tick of at most 32 steps hands over only accepted lines, in order, never buffers more than 8 MiB, and leaves no complete line behind when the peer has nothing more. |
| BridgeRelay.RelayConserves | src/core/acp_bridge.c:687-763 | At every point of every run the bytes read on each side are the bytes written to the other followed by what is buffered, at most 8 MiB each way; the half-close comes only after stdin ended and was flushed; exit code 0 means everything read was delivered. |
| BridgeRelay.RoundTells | src/core/acp_bridge.c:710-757 | The exact effect of one round: each side brings what it has within the room and one 16 KiB chunk, exactly the bytes the other side takes are written, the half-close comes once stdin has ended and nothing waits for the socket, and the relay leaves once the socket has ended and nothing waits for stdout, with code 0 unless something failed or stays behind. |
| BridgeRelay.OtherRoundsTell | src/core/acp_bridge.c:704-708 | An interrupted wait changes nothing, any other failed wait ends the relay with code 1, and a relay that is done stays as it is. |
| BridgeRelay.HalfCloseIsFinal | src/core/acp_bridge.c:687-763 | After the half-close nothing more is read from stdin or written to the server, so it happens at most once. |
| BridgeRelay.RelayMain | src/core/acp_bridge.c:687-763 | The loop over two buffers and four flags computes the modelled run for any sequence of readiness. |
| BridgeContext.AckLeavesWhatWasNotForwarded | src/core/acp_bridge.c:546-594 | After a successful prepare, any later items and a successful acknowledgement, the queue is exactly the later items. |
| BridgeContext.PrepareTells | src/core/acp_bridge.c:546-570 | A prepare succeeds exactly when the queue has at most 256 items, all of them texts of at most 1 MiB together; it forwards the longest front part that fits. |
| BridgeContext.PromptCarries | src/core/acp_bridge.c:560-566 | The prompt carries every forwarded text whole, under its own heading, in the order of the queue. |
| BridgeContext.AckTells | src/core/acp_bridge.c:572-594 | An acknowledgement succeeds exactly when nothing was forwarded, or what remains can be rebuilt and saved; then exactly the forwarded items are gone. |
| BridgeContext.FailedAckRestores | src/core/acp_bridge.c:572-594 | An acknowledgement that fails leaves queue and count as they were, so the same items can be forwarded or acknowledged again. |
| BridgeContext.QueueIsFaithful | src/core/acp_bridge.c:546-594 | Over any run the queue is everything that arrived, in order, less a prefix that was acknowledged. |
| BridgeContext.AckedOnlyAfterForwarded | src/backends/acp/acp_events.c:28-40 | Under the client's protocol every item is carried by a prepared prompt before it is removed. |
| BridgeContext.AckAfterPrepare | src/core/acp_bridge.c:546-594 | Without that protocol, from any state in which the promise holds: an acknowledgement right after a prepare stays within what prompts carried exactly when the prepare succeeded, or what it took had been carried before, or the acknowledgement cannot go through. |
| BridgeContext.AckAfterFailedPrepareLoses | src/core/acp_bridge.c:556-569 | The failing input, a session document made elsewhere: an item that fits followed by one that does not; the acknowledgement drops the first, which no prompt carried. |
| BridgeContext.GateKeepsBounded | src/core/session.c:505-534 | `session_add_runtime_context` accepts a text exactly when the queue it leaves is within 256 texts and 1 MiB, so a queue that only it has fed stays within those bounds, also after items are taken off its front. |
| BridgeContext.BoundedQueueIsPrepared | src/core/acp_bridge.c:546-594 | Such a queue is always prepared whole, and any acknowledgement after it is safe. |
| BridgeContext.Session.PreparePrompt | src/core/acp_bridge.c:546-570 | The prepared text is the rendering of exactly the items counted as forwarded, and the state is the modelled one, also when it fails half-way. |
| BridgeContext.Session.AckContext | src/core/acp_bridge.c:572-594 | The rebuilt queue is the rest after the forwarded items; a failed save puts the old queue back. |
| ImproveNames.KeyApart | python/tny_improve.py:379-434 | Two files of a run are never spelled alike: the formatting of labels, rounds, splits, padded indices and suffixes is injective. |
| ImproveNames.KeySpelled | python/tny_improve.py:379-457 | How every file of a run is called, spelled out: stage, split, index of at least four digits and part, or round of at least two digits. |
| ImproveNames.PadExactly | python/tny_improve.py:379-402 | A padded number is its decimal digits, filled up with zeros to the width and never cut. |
| ImproveReplay.EveryNameOnce | python/tny_improve.py:378-457 | Over a whole run every archive name, as it is spelled, is written exactly once, so exclusive creation never collides. |
| ImproveReplay.ArchiveIsDetermined | python/tny_improve.py:511-553 | An archive that holds each expected file, byte for byte, and no other is the recording. |
| ImproveReplay.SearchAgree | python/tny_improve.py:378-457 | The search depends on nothing but the answers it records. |
| ImproveTheorems.RecordedRunVerifies | python/tny_improve.py:460-553 | A completed, eligible, sealed run is accepted exactly when its manifest is at most 1 MiB, and then verification rebuilds the identical report and final body. |
| ImproveTheorems.RecordedHead | python/tny_improve.py:482-490 | The recording holds the raw spec, the baseline, the cases of all three splits, the context and the report, byte for byte under their names. |
| ImproveTheorems.GoodRecordMeaning | python/tny_improve.py:302-311 | Replay accepts a record exactly when it can be read and names the spec's own command for that label, the same directory, an equal time limit, exit code 0 and no error. |
| ImproveTheorems.SizesExactly | python/tny_improve.py:288-296 | A body is admitted exactly up to 64 KiB if it passes its check, and a record is kept exactly up to 1 MiB if it has a UTF-8 form. |
| ImproveTheorems.RecordsTellSuccess | python/tny_improve.py:312-375 | The record a run files of a command is one that replay accepts exactly when the command went well. |
| ImproveTheorems.ManifestBinds | python/tny_improve.py:511-529 | An accepted archive has exactly the files its manifest lists, each with the digest listed there, and neither they nor the manifest exceed 1 MiB. |
| ImproveLimits.ManifestIsThatLong | python/tny_improve.py:460-467 | The size of a manifest, counted entry by entry, is the length of its printed text. |
| ImproveLimits.RunCount | python/tny_improve.py:378-457 | The exact number of files of a run, from the numbers of cases and rounds alone. |
| ImproveLimits.LargeRunsAreRefused | python/tny_improve.py:460-553 | Every completed, eligible, sealed run with too many cases and rounds is refused, whatever it holds. |
| ImproveLimits.SealedRunIsRefused | python/tny_improve.py:460-553 | The failing input: one round over 2,000 train cases completes, is eligible and sealed, and is refused. |
| ImproveTheorems.VerifiedArchiveIsARun | python/tny_improve.py:511-553 | For any accepted archive, report, final body, the set of names and every file but the context and the commands' records are, byte for byte, what its own search re-run on its archived answers writes, whatever its report file claimed; each record says what that run's record says, and the context is as printed. |
| ImproveTheorems.AcceptedIsRecorded | python/tny_improve.py:302-311 | An accepted archive equals the recording exactly when its context and records are spelled as a run spells them. |
| ImproveTheorems.SpellingDoesNotMatter | python/tny_improve.py:302-311 | Respelling the context and the records of any accepted archive and sealing it again changes neither the verdict nor the result. |
| ImproveLimits.RespelledArchiveIsAccepted | python/tny_improve.py:302-311 | The failing input for equality: a note in the context, `false` for 0 and `5.0` for 5 in a record; accepted like the recording it differs from. |
| ImproveStory.GateIsPareto | python/tny_improve.py:223-236 | A candidate is accepted exactly when it loses no passing case and raises no exact total on either split and strictly gains train passes or train cost. |
| ImproveStory.GateExplains | python/tny_improve.py:223-236 | The reason given with a verdict is the first thing that went wrong, train before validation and passes before costs, or that nothing did. |
| ImproveStory.SearchTells | python/tny_improve.py:378-457 | The whole story of a completed search in terms of its files: every body was proposed on its parent's own train results, every result it is judged by is the parsed answer to a request of that stage that shows that very body and case, it is adopted exactly when it is new and a strict Pareto gain, each decision file and the report give the true digests, reasons and counts, and the holdout is run on the baseline and the final body. |
| ImproveStory.StoryImproves | python/tny_improve.py:400-438 | In any such story the body in force after any number of rounds, by its own requests and answers, loses nothing the baseline passed and costs no more, and once a candidate was accepted gains on train. |
| ImproveStory.SearchCompletes | python/tny_improve.py:378-457 | Nothing but a failed command or an answer that does not parse keeps a search from its report, whatever the results are. |
| ImproveTheorems.SearchImproves | python/tny_improve.py:396-438 | Over any number of rounds and any answers the final body was judged by requests among the search's files that show it, and by those results loses no case the baseline passed and raises neither total; with at least one acceptance it strictly gains on train, with none it is the baseline. |
| ImproveTheorems.HoldoutDoesNotInterfere | python/tny_improve.py:379-445 | Worlds that differ only in test answers make the same files, decisions, final body and eligibility. |
| ImproveTheorems.ProposerSeesOnlyTraining | python/tny_improve.py:402-418 | What the proposer is asked depends only on the parent, the round and the train results. |
| ImproveTheorems.PromotionIsImprovement | python/tny_improve.py:564-634 | Whatever is promoted is the archive's final body; requests in the archive that show it, and the archived answers to them, make it strictly better than the baseline on train and no worse on validation; and the target had the baseline's digest at both checks. |
| ImproveTheorems.RecordedRunIsPromoted | python/tny_improve.py:564-634 | A completed, eligible, sealed run is promoted, to its final body, exactly when its manifest fits and the target is readable and has the baseline's digest at both checks. |
| ImproveRun.Evidence.PutFile | python/tny_improve.py:288-296 | Recording refuses a name already there and replay refuses different bytes; both refuse a record that has no UTF-8 form or exceeds 1 MiB; a file that is put is stored and marked used. |
| ImproveRun.Evidence.Call | python/tny_improve.py:298-375 | A command succeeds exactly when it exits cleanly and its files are admitted, request and record size included, live or archived, and yields the same output either way. |
| ImproveRun.Evidence.Recall | python/tny_improve.py:302-311 | Replay answers from the archive exactly when the archived request is byte for byte the one derived now and the archived record, read, equals the one asked for, numbers by value. |
| ImproveRun.Evidence.Execute | python/tny_improve.py:312-375 | Running files request, output and outcome under names not used before, each within 1 MiB, and fails exactly when one of them cannot be filed or the command failed. |
| ImproveRun.SumUp | python/tny_improve.py:217-220 | The running sums are the exact total cost and pass count. |
| ImproveRun.PassRegression | python/tny_improve.py:229-230 | Found exactly when some case passed before and does not pass after. |
| ImproveRun.RunGate | python/tny_improve.py:223-236 | The step-by-step gate gives the modelled decision and reason. |
| ImproveRun.EvaluateCases | python/tny_improve.py:381-392 | The evaluation loop succeeds exactly when the split's script does and its files are admitted, and leaves exactly those files and marks. |
| ImproveRun.RunRound | python/tny_improve.py:400-438 | One round puts the files of its script in order and fails exactly where the script or the archive does. |
| ImproveRun.RunSearch | python/tny_improve.py:378-457 | The same code, recording or replaying, carries out the search script: same result, same files, same marks. |
| ImproveRun.RunRecorded | python/tny_improve.py:470-503 | A run completes exactly when spec, baseline and every answer pass their checks and every request, decision, report and other record fits 1 MiB; its archive is the recording of the search and the manifest seals it. |
| ImproveRun.CheckSeal | python/tny_improve.py:511-529 | The manifest is readable within its bound, lists exactly the files there are, and every file is readable and as digested. |
| ImproveRun.VerifyArchive | python/tny_improve.py:511-553 | Verification by replaying the run over the evidence is the specified acceptance, bounds, extra context keys and respelled records included. |
| Abi.StructComposes | scripts/check_abi_baseline.py:557-607 | Two accepted steps of a struct make one accepted step exactly when no fixed struct has become growable and grown, and every field new in the second step stands where the first struct would have let it in. |
| Abi.AcceptanceComposes | scripts/check_abi_baseline.py:420-608 | If B is accepted against a valid A and C against B, and the step from A to B is safe (no fixed struct turned growable, no byte opened that had been closed), C is accepted against A, over every rule of the comparison. |
| Abi.ComposesExactlyWhenSafe | scripts/check_abi_baseline.py:507-508 | After an accepted step from a valid baseline it is safe to compare every later candidate with B alone exactly when the step is safe in that sense. |
| Abi.BoundariesGuard | scripts/check_abi_baseline.py:388-389 | Where B keeps `append_from` at the size of all its structs, growable or not, only the modes matter. |
| Abi.ModeChangeBreaksComposition | scripts/check_abi_baseline.py:572-585 | The first failing input: fixed at 8 bytes, then growable at 8, then grown to 16. |
| Abi.LowerBoundaryBreaksComposition | scripts/check_abi_baseline.py:596-602 | The second, with fixed structs only: the boundary falls from 8 to 4 and a field enters at 4. |
| Abi.ChainKeepsLayout | scripts/check_abi_baseline.py:557-607 | Along any chain of accepted releases, whatever happens to modes and boundaries, every original field keeps its record, no struct shrinks, and every later field was let in by some step at or after the boundary that stood before it. |
| Abi.LaterFieldsStayClear | scripts/check_abi_baseline.py:395-416 | Along any such chain no later field overlaps an original field. |
| Abi.BoundariesProtectBytes | scripts/check_abi_baseline.py:572-607 | If every release but the last keeps its boundaries at the end of its structs, later fields leave all original bytes alone. |
| AbiMeaning.AcceptsExactly | scripts/check_abi_baseline.py:420-608 | Without the checks: a candidate is accepted exactly when it is valid, keeps every single promise of the baseline (each constant but the version ones, export node, signature, struct field, alignment, size and platform fact), keeps fixed sizes, lets versions advance, and everything new is announced by a later minor version, at a later node, past the append boundary. |
| AbiMeaning.ChainKeepsPromises | scripts/check_abi_baseline.py:420-608 | Along any chain of accepted releases the last one still makes every promise of the first. |
| AbiMeaning.OneChangeIsRefused | scripts/check_abi_baseline.py:484-607 | One changed or missing constant, export, capacity entry, signature, callback or struct fact, and the candidate is refused. |
| AbiMeaning.ValidStructExactly | scripts/check_abi_baseline.py:365-416 | A struct is valid exactly when its numbers are, and any two of its fields, however far apart, have different names and stand one after the other inside it. |
| AbiMeaning.ValidExactly | scripts/check_abi_baseline.py:278-417 | What the comparison asks of a whole description: major version 1, a minor version, every export at a node with the fixed prefix, capacity entries and signatures of exports only, and at least one struct, all valid. |
| AbiMeaning.NodeMinorExactly | scripts/check_abi_baseline.py:503-509 | A node names a minor version exactly when decimal digits of that value follow the fixed prefix. |
| Abi.CheckFields | scripts/check_abi_baseline.py:395-416 | The loop complains about no field exactly when all fields have distinct names, positive sizes, lie inside the struct and do not overlap. |
| Abi.Validate | scripts/check_abi_baseline.py:278-417 | Accepts exactly the descriptions with the structure the comparison relies on. |
| Abi.CompareStruct | scripts/check_abi_baseline.py:557-607 | No complaint exactly when the candidate struct may follow the baseline's. |
| Abi.CompareStructs | scripts/check_abi_baseline.py:557-607 | No complaint exactly when no struct is missing or changed against the rules and added ones come with a new minor version. |
| Abi.CompareConstants | scripts/check_abi_baseline.py:484-494 | No complaint exactly when every constant but the version ones is preserved and additions come with a new minor version. |
| Abi.CompareExports | scripts/check_abi_baseline.py:495-516 | No complaint exactly when exports and their version nodes are preserved and every new one carries a node of a newer minor version and a signature. |
| Abi.CompareCapacity | scripts/check_abi_baseline.py:517-533 | No complaint exactly when capacity signatures are preserved and every new one belongs to a new export of a new minor version. |
| Abi.CompareSignatures | scripts/check_abi_baseline.py:534-551 | No complaint exactly when function and callback signatures are preserved and new callbacks come with a new minor version. |
| Abi.Compare | scripts/check_abi_baseline.py:420-608 | The comparison makes no complaint exactly when the candidate is accepted. |
| Abi.MergeReads | scripts/check_abi_baseline.py:254-260 | A merged document reads like the overlay wherever the overlay speaks and like the base everywhere else. |
| FreezeLiteral.EscapeReadsBack | scripts/cpython_freeze_stdlib.py:63-73 | A three-digit octal escape is read back as its byte whatever follows, so it never absorbs a following digit. |
| FreezeLiteral.LiteralRoundTrip | scripts/cpython_freeze_stdlib.py:63-73 | For every byte string a C compiler (trigraphs, line splicing, escapes and concatenation; sections 5.1.1.2, 5.2.1.1, 6.4.4.4 and 6.4.5 of ISO/IEC 9899:2011) reads the printed lines as exactly those bytes. |
| FreezeLiteral.EncodeExactly | scripts/cpython_freeze_stdlib.py:63-73 | A byte is printed as itself exactly when it is printable ASCII and neither quote, backslash nor question mark, and otherwise as a backslash and three octal digits of its value. |
| FreezeLiteral.LinesExactly | scripts/cpython_freeze_stdlib.py:63-73 | Line `k` holds bytes `64k` to `64k+63`, the last line what remains. |
| FreezeLiteral.TrigraphsAreReplaced | scripts/cpython_freeze_stdlib.py:63-73 | Why question marks are escaped: three printable bytes that print as a trigraph are read as one other byte. |
| FreezeLiteral.ShortEscapesAbsorbDigits | scripts/cpython_freeze_stdlib.py:63-73 | Why three digits are printed: a one-digit escape before a digit is read as another byte. |
| FreezeLiteral.PrintLiteral | scripts/cpython_freeze_stdlib.py:63-73 | The chunked printing loop prints that text, and the text compiles to the data. |
| Conformance.GreedyIsSubsequence | sdk/conformance/validate.py:157-166 | The greedy cursor accepts exactly the expected lists that are subsequences of the actual types. |
| Conformance.OrderIsGlobal | sdk/conformance/validate.py:168-185 | Checking neighbours orders any two events that no permitted reset separates. |
| Conformance.AcceptsExactly | sdk/conformance/validate.py:139-252 | The whole validation without lists or scans: events are well typed, the expected types occur in order, any two events no permitted reset separates are in order, the turns end for the told reasons and the last event ends a turn, and the single rejection, error or future event is as it must be. |
| Conformance.NormalizedStillAccepted | sdk/conformance/validate.py:447-472 | Normalised events of an accepted scenario pass validation again exactly when it is not the future-event scenario or its event is of type `unknown`. |
| Conformance.ExpectedUnknownSurvives | sdk/conformance/validate.py:447-472 | A future-event scenario that expects `unknown` always survives normalisation. |
| Conformance.FutureEventLosesItsKind | sdk/conformance/validate.py:447-472 | The failing input: a future event under its own name is accepted, and its normalised form is not. |
| Conformance.NormalizationSucceeds | sdk/conformance/validate.py:460-466 | Normalisation fails on a missing key exactly when some steer rejection has no text or some unknown event lacks its kind or payload. |
| Conformance.NormalizeMeaning | sdk/conformance/validate.py:450-471 | Key by key, what a normalised event keeps, renumbers and drops. |
| Conformance.NormalizeKeepsNoMore | sdk/conformance/validate.py:450-471 | A normalised event has exactly the keys its type allows, and of provider, session and turn it only says whether they were set. |
| Conformance.TruthyExactly | sdk/conformance/validate.py:466-469 | An id counts as set unless it is null, false, zero or empty. |
| Conformance.ScanExpected | sdk/conformance/validate.py:157-166 | The cursor loop succeeds exactly on subsequences. |
| Conformance.ScanOrder | sdk/conformance/validate.py:168-185 | The pairwise loop succeeds exactly when sequence numbers rise and timestamps do not fall between permitted resets. |
| Conformance.ValidateEvents | sdk/conformance/validate.py:139-252 | All checks in order succeed exactly on the accepted event lists. |
| Release.TagNames | scripts/next_release_version.py:59-64 | A version has exactly one stable tag name, and parsing and printing are inverse. |
| Release.TagSpelled | scripts/next_release_version.py:48-56 | The tag of a version is `v` and its three decimal numbers between dots. |
| Release.HighestMeaning | scripts/next_release_version.py:67-69 | The highest stable version is one of the tags' and no tag's is above it; there is none exactly when no tag is stable. |
| Release.BumpGoesUp | scripts/next_release_version.py:91-101 | Every bump of every version gives a strictly higher version. |
| Release.BumpIsLeast | scripts/next_release_version.py:91-101 | A bump is the least version as far above its base as its kind asks, where below 1.0.0 a breaking change asks for a minor step only. |
| Release.BumpKind | scripts/next_release_version.py:82-88 | The loop returns the weightiest kind among the messages, or patch. |
| Release.PlannedTagIsSafe | scripts/next_release_version.py:140-229 | Whatever tag the planner returns is at least every stable tag there is, and equals an existing one only when that tag already points at the planned commit. |
| Release.UnrequestedPlan | scripts/next_release_version.py:186-229 | Without a request a commit gets a tag exactly when it does not opt out, there are messages to release, and the newest release among its ancestors is neither superseded anywhere nor this very commit; the tag is then the least version as far above that release, or above 0.0.0, as the forced or weightiest kind asks. |
| Release.RequestedPlan | scripts/next_release_version.py:140-183 | A request that is not a stable version fails; one that is tagged is retried on that very commit, gives nothing where it is superseded or released by an ancestor, and otherwise fails; a new one fails where it is superseded, and is created by the commit that changes the request. |
| Release.TagsNeverMove | scripts/next_release_version.py:140-229 | Over any run of plans, each carried out to the letter even where it names an existing tag, no tag is moved or removed. |
| Release.ReleaseGoesUp | scripts/next_release_version.py:186-229 | A newly created tag is strictly above every stable tag there was. |
| Release.ReleasesIncrease | scripts/next_release_version.py:186-229 | Repeated planning and tagging, on any commits, gives strictly increasing versions. |
| AskScan.OptionsAgree | src/cli/globals.c:250-275 | On any option the `ask` loop accepts, the preflight learns the same and skips the same arguments, unless it selects a second swarm file. |
| AskScan.ScannersAgree | src/cli/globals.c:250-275 | For every command line the `ask` loop accepts, the preflight's scan sees the same arguments as values, the same flags and the same file, and stops early exactly on a second swarm file. |
| AskMeaning.AskUnderstands | src/cli/cmd_ask.c:533-632 | The option loop understands exactly what the command line means, position by position: which arguments are values, which flags were given, which swarm files selected. It reports an error exactly on a line with no meaning, because an option that is read is unknown, lacks its value, has a wrong one, or is the seventeenth image. |
| AskMeaning.OneReading | src/cli/cmd_ask.c:533-632 | There is only one way to tell the values of a command line from its options. |
| AskMeaning.SwarmSpelled | src/cli/cmd_ask.c:574-582 | A swarm is asked for by the bare option or by the option, an equals sign and any text. |
| AskScan.PreflightRefusesExactly | src/cli/globals.c:246-317 | The exact reasons for which the whole preflight refuses a command line the `ask` loop accepts, in terms of what that loop understood and of the global options, and the agreement of both when it does not. |
| AskScan.SecondFileDiffers | src/cli/globals.c:261-267 | The failing input: the option loop accepts a second swarm file, the preflight does not. |
| AskScan.CountBesideFileDiffers | src/cli/globals.c:277-281 | A second failing input: the option loop and the scan accept a count beside a file, the preflight does not. |
| AskScan.ScanAsk | src/cli/cmd_ask.c:533-632 | The index loop with its skips and its raw mode reads the command line as specified. |
| AskScan.ScanPreflight | src/cli/globals.c:250-275 | The preflight's own scan reads the command line as specified. |
| AskScan.RunPreflight | src/cli/globals.c:246-317 | The flags and the closing checks around that scan are the specified preflight. |
| Versions.DecimalOfDigits | scripts/next_release_version.py:59-64 | A number has only one spelling without leading zeros. |
| Versions.PartsOf | scripts/check_abi_baseline.py:201-205 | Three parts without dots are read back from their dotted form. |

## Left out

- File locking, atomic rename, directory creation and fsync of the ledger file: one call is an atomic step that may also answer BUSY, fail in the host, crash, or fail with its write landed or not.
- Null pointers and allocation failure in the ledger; allocation failure in the bridge appears only as a closed connection or an abort.
- JSON text: parsing and printing are not modelled; documents are values with keys in order and possibly repeated.
- AdmissionService.StateFile.Apply: the document is saved to a value and discarded when nothing changed, where the program skips the printing.
- BridgeService.AcpBridge.Admit: does not model the wrap-around of the 64-bit call counter.
- BridgeService.AcpBridge.HandleMessage: the schema of `tools/list` is an input, and ids are compared as they are printed.
- BridgeService.AcpBridge.CompleteCall: the printed form of texts and of captured images, and hook bodies, are inputs; the notifications sent to the owner's event callback are not modelled.
- BridgeFrames.Reader.DrainInput: the handling of a line is an arbitrary accept-or-reject function, so framing and message handling are proved separately.
- BridgeRelay.RelayMain: assumes its buffers can be allocated, as the program does; poll and socket results are arbitrary inputs.
- BridgeContext.Session.PreparePrompt: delivery of new coordination items is an input, and between prepare and acknowledgement the queue is only appended to.
- Granting a permission for good (`allow always`) changes the permission rules outside the bridge, which are inputs here.
- ImproveRun.Evidence.Call: process control, timeouts and signals are one arbitrary exit per command; symlink checks are not modelled, and a failed run's own report and seal are left out.
- ImproveRun.VerifyArchive: SHA-256 is an arbitrary function, and the field checks of spec, proposal and evaluation are arbitrary parsers; JSON printing and reading are arbitrary functions that undo each other on documents small enough to be read, and a manifest has the length of its printed entries.
- ImproveTheorems.PromotionIsImprovement: a request shows a body as the printed document of that request; the replacement of the target file itself (temporary file, mode, fsync) is not modelled.
- Abi.Validate: only the checks that `compare` relies on; the remaining schema checks (encodings, sort order, hashes, the frozen first release) and the Mach-O version parser are left out.
- AbiMeaning.AcceptsExactly: two version constants may change freely, as the comparison skips them.
- Abi.Compare: validates the candidate by that part of `validate` only.
- FreezeLiteral.LiteralRoundTrip: reads string literals only, not the rest of the generated C file.
- Conformance.ValidateEvents: the report outside the events (capabilities, secret scan, manifest) is not modelled; strings are compared as sequences of characters.
- Release.PlannedTagIsSafe: git is an abstract list of tags and facts about the commit; message patterns are given as kinds, and digits are ASCII.
- AskMeaning.AskUnderstands: covers the option loop and not the conflicts between options that are looked at after it.
- AskScan.PreflightRefusesExactly: the shared swarm option parser, the manifest parser and what makes a host able to lead a swarm are inputs; prompt text is not concatenated, and the early `--events` scan of `ask` is not part of it.
- The counted and delimited agent arguments in the global option parser.
- `src/core/code_policy.c`, rendering, the terminal interface, packaging scripts and site generation: case-by-case conversions.
