# Verified model of redis-sentinel-proxy

A Dafny model of the proxy's four hard parts, and proofs about them:

- **RESP framing.** The chunked line reader, the command parser, and the reply copier that counts owed values
  instead of recursing (`Reader`, `Commands`, `Requests`, `Replies`, `Grammar`, `Resp3`).
- **The routed session.** One client, a master and perhaps a replica; per-command routing, mirrored state commands
  and the irreversible pin (`Router`, `Routing`, `Session`, `SessionLaws`, `Dispatch`, `Meaning`).
- **The resolver.** Address validation, retry loops, the concurrent update/refresh/read system, replica lists and the
  round robin (`Resolve`, `Retry`, `ResolverSystem`, `Replicas`, `RoundRobin`).
- **Proxy concurrency.** Connection slots, session life cycles with the pipe handshake, and idle timeouts over a
  shared clock (`Slots`, `IdleClock`).

The end-to-end results are `Meaning.RoutingPreservesMeaning` and `Meaning.WholeRunTransparent`. Take any client byte
stream, any replication schedule (a replica may stop anywhere in the master's log) and any backends whose streams
carry their replies. At every loop head of a routed session, every reply is what the master answers on its current
dataset, or on an earlier version under the same connection state. The master's dataset and both connection states are
those of a session on the master alone. Without lag the client's whole transcript is the same byte for byte, through a
pin and to the end of the session. They rest on the byte-level result that copyRESP splits a reply stream in exactly
one way. `Session.RoutedSession.Run` states that what it leaves behind is a `Routing.WholeRun`, and the laws in
`SessionLaws` and `Meaning` are stated of every `WholeRun`, so they hold of every run of the loop.

## How the model is built

- A byte string is a Dafny `string`, one character per byte. Streams are what a peer delivers before EOF or any read
  error; how a stream is cut into reads is arbitrary.
- Code that updates buffers and connections step by step is imperative here too: `BufReader`, `Sink`,
  `RoutedSession`, the parsers, the retry loops. Each method is tied to a function of the bytes to come, and the laws
  are proved of that function.
- Concurrent code is a step system: `Enabled` says when a step may happen, `Apply` what it does, and the theorems
  quantify over every sequence of enabled steps.
- `remaining` is modelled twice, as an ideal integer and as the wrapping int64 it is.
- Hypotheses that are explicit in the contracts, and asked only for the commands served: each gets one reply, listed
  read-only commands leave the dataset alone, only state commands change the connection state and do so independently
  of the dataset (`Meaning.Lawful`); in `IdleClock`, processing takes no time and a read that ends by its deadline
  delivered nothing.
- How Go upper-cases names outside ASCII is the parameter `fold`. All results hold for every `fold`, except that
  `EmptyName` asks that it maps no text to the empty one.

## Where the code differs from its documentation

- The longest line returned whole is not maxLineLen (65536) but 69632, because only whole buffers are checked
  (`LineCapFormula`, `LineLimitExample`).
- An empty command name also arises from a negative array length and from an empty first argument, not only from an
  empty array; such frames are dropped without a reply (`EmptyName`, `NullArrayHasNoName`, `EmptyNameExample`).
- The counter in copyRESP can overflow, at 2^42 lines and not before (`NoOverflow`, `OverflowAtLimit`), but never on a
  complete reply below 2^63 bytes (`CopyTree`).
- Of RESP3, streamed strings and streamed aggregates (`$?`, `*?`, `~?`, `%?`) are not relayed: the copy fails at their
  header (`RelaysResp3`).
- The update loop gives up after `resolve_retries`+1 counted failures since the last success; not-ready results in
  between neither count nor reset. A negative setting makes it return nil at once.
- A reader that was already waiting at the last traffic gives up only at its second deadline, up to one tick short of
  twice the idle timeout after that traffic (`TimeoutAfterSilence`, `LatestTimeout`).
- Only a literal placeholder address is rejected; a host name that resolves to one is accepted, and published as the
  master if it answers the probe (`PlaceholderIff`, `PlaceholderExample`).
- Router mode is documented to find replicas like a replica endpoint does, but they are tracked only if a replica
  endpoint is configured as well. With `-router` alone no replica is ever known and everything goes to the master
  (`NoReplicasUntracked`).
- Round robin is even within one connection only while the counter does not wrap; with wraps, exactly when the number
  of replicas divides 2^64.

## Model

| member | source | states |
|---|---|---|
| Reader.BufReader.ReadSlice | pkg/proxy/resp.go:28-40 | for every way the bytes arrive: up to the first LF if it lies within one buffer, else one full buffer, else the stream has ended |
| Reader.BufReader.ReadLine | pkg/proxy/resp.go:26-45 | a line is returned exactly when the plain "up to the first LF" reader with cap LineCap(size) returns it, and then just that line is consumed |
| Reader.LineCapFormula | pkg/proxy/resp.go:28-40 | the cap is (floor(maxLineLen / size) + 1) * size for every buffer size, wherever the line starts |
| Commands.LineLimitExample | pkg/proxy/resp.go:37-39 | with the default buffer a line of 69632 bytes is returned whole and one of 69633 is refused |
| Bytes.ParseIntDecimal | pkg/proxy/resp.go:47-53 | printed lengths are read back unchanged over the whole non-negative int64 range |
| Bytes.ParseIntIff | pkg/proxy/resp.go:47-53 | a length is accepted if and only if it is a signed, possibly zero-padded spelling of an int64, and is that number |
| Commands.ReadCommand | pkg/proxy/resp.go:58-109 | outcome, name and raw bytes are those of ParseCommand on the bytes to come; raw is exactly what was consumed; an inline client loses nothing |
| Commands.NameIff | pkg/proxy/resp.go:104-106 | the name of a command with an ASCII first argument is that argument in capitals and nothing else |
| Commands.NameIgnoresCase | pkg/proxy/resp.go:104-106 | two spellings of a command that differ in case have the same name |
| Requests.CommandRefinesGrammar | pkg/proxy/resp.go:58-109 | readCommand returns these arguments and consumes k bytes if and only if the stream begins with a request of k bytes in the grammar of arrays of bulk strings, limits included; inline exactly when the first byte is no asterisk |
| Commands.EmptyName | pkg/proxy/resp.go:55-109 | the name of a command is empty if and only if its count is not positive or its first argument is empty, for every `fold` that empties no text |
| Commands.NullArrayHasNoName | pkg/proxy/resp.go:78-83 | the null array is a complete command without a name, whatever follows |
| Commands.EmptyNameExample | pkg/proxy/resp.go:104-106 | an array of one empty string is a complete command with an empty name, though not an empty array |
| Commands.CommandRoundTrip | pkg/proxy/routing_test.go:132-136 | for all argument lists within the limits and any bytes behind, parsing a printed command returns the arguments and leaves the rest |
| Commands.CommandExtend | pkg/proxy/resp.go:58-109 | bytes behind a command cannot change how it is read |
| Commands.CommandShrink | pkg/proxy/resp.go:58-109 | the consumed bytes alone are the same command |
| Commands.FramesConcat | pkg/proxy/resp.go:58-109 | commands written back to back are read back one by one |
| Commands.ScriptRoundTrip | pkg/proxy/routing_test.go:128-145 | a whole script of printed commands is read back as that script, whatever follows |
| Commands.FramesPart | pkg/proxy/resp.go:58-109 | no proper prefix of a command contains a command |
| Replies.CopyResp | pkg/proxy/resp.go:114-194 | a success writes exactly the bytes consumed and consumes what Copy with the int64 counter says; a failure means no complete reply or a failed write; in every case what was written is exactly what Relayed says, or a part of it if a write failed |
| Replies.RelayedReply | pkg/proxy/resp.go:114-194 | what copyRESP sends on is the reply and nothing behind it if there is a whole one, else a prefix of the stream |
| Replies.RelayedAtMost | pkg/proxy/resp.go:114-194 | of a stream that begins with a reply or breaks off within it, nothing but that reply is ever sent on |
| Replies.BrokenOff | pkg/proxy/resp.go:117-141 | a reply that breaks off in a blob is sent on to its last byte, one that breaks off in a header line not at all from there |
| Replies.CopyExtend | pkg/proxy/resp.go:114-194 | success does not depend on what follows the reply |
| Replies.CopyNeedsAll | pkg/proxy/resp.go:114-194 | replies are prefix-free: with fewer bytes than consumed, the copy never succeeds |
| Replies.RelayConcat | pkg/proxy/resp.go:114-194 | k calls take a pipeline of k replies apart exactly where it was put together |
| Replies.UniqueSplit | pkg/proxy/resp.go:114-194 | no stream is the concatenation of k replies in two ways |
| Replies.LinesAdvance | pkg/proxy/resp.go:116-120 | every iteration consumes at least three bytes |
| Replies.AgreeIffFits | pkg/proxy/resp.go:115-188 | the int64 counter does what an ideal one does if and only if the ideal one never exceeds the largest int64 |
| Replies.CounterBound | pkg/proxy/resp.go:126-188 | after i iterations the counter is at most its start plus 2 * maxRESPElements * i |
| Replies.NoOverflow | pkg/proxy/resp.go:115-188 | so below 2^42 lines the two counters agree |
| Replies.OverflowAtLimit | pkg/proxy/resp.go:167-177 | the bound is sharp: 2^42 attribute headers pass for a reply although they are none |
| Grammar.CopyTree | pkg/proxy/resp.go:114-194 | every well-formed reply tree followed by anything is copied whole and nothing more, by the int64 counter too for every tree below 2^63 bytes |
| Grammar.CopiedSlots | pkg/proxy/resp.go:114-194 | whatever was copied is the text of exactly the owed values, with the trees as witnesses |
| Grammar.CopyRefinesGrammar | pkg/proxy/resp.go:114-194 | the flat counter succeeds with k bytes if and only if the input begins with a reply tree of k bytes |
| Grammar.ReplyIsTree | pkg/proxy/resp.go:111-114 | below 2^42 lines the code's int64 notion of one reply is the grammar's |
| Grammar.Unambiguous | pkg/proxy/resp.go:114-194 | a text has one tree only, also with arbitrary bytes behind it |
| Grammar.CounterIsStack | pkg/proxy/resp.go:115-192 | after every iteration `remaining` is the sum over an explicit stack of open aggregates, attributes and pushes; counting replaces the stack |
| Resp3.RelaysResp3 | pkg/proxy/resp.go:111-194 | every legal RESP3 reply below 2^63 bytes, as its specification prints it, is relayed byte for byte if and only if no part of it is streamed or above the proxy's maxima; otherwise the copy fails, whatever follows |
| Resp3.ReplyLimits | pkg/proxy/resp.go:15-19 | the maxima by number: a blob of 536870912 bytes and a count of 1048576 pass, one more of either is refused |
| Router.SubscriptionsAreListed | pkg/router/router.go:68-70 | every subscription command is in the read-only table and is nevertheless routed as a pin |
| Router.DirectionIgnoresCase | pkg/router/router.go:111-118 | an ASCII name and its upper-cased form have the same direction |
| Session.Pipe | pkg/proxy/proxy.go:374-390 | all remaining bytes are copied unless the writer fails, and then a prefix |
| Session.RoutedSession.Forward | pkg/proxy/routing.go:164-178 | one reply moves from the chosen backend to the client, and the frame to that backend; a failure leaves part of the frame (all of it unless that write failed), and the client with part of that one reply (exactly what there is of it unless a write failed) |
| Session.RoutedSession.StateCommand | pkg/proxy/routing.go:184-202 | the frame reaches both backends, the client gets the master's reply, the replica's single reply is consumed; a failure leaves parts of the frame, and the client with part of the master's one reply |
| Session.RoutedSession.PinTo | pkg/proxy/routing.go:206-228 | the replica is dropped and every later client byte reaches the master, every later master byte the client |
| Session.RoutedSession.Handle | pkg/proxy/routing.go:156-178 | one routed iteration moves all streams by exactly one event, or stops for a named reason, off-route backends untouched and the client's output within the one reply |
| Session.RoutedSession.Run | pkg/proxy/routing.go:133-180 | at the last loop head all six streams are cut behind completed, correctly routed and answered events; the session ends only on malformed input (nothing more is written), on a failed write or missing reply (each peer got a part of one command or one reply), or by a pin (every remaining byte is handed over) |
| Routing.AlignedStep | pkg/proxy/routing.go:133-180 | one event keeps all streams aligned |
| SessionLaws.FramesByRoute | pkg/proxy/routing.go:147-170 | each backend's frames are the client's frames on its routes, in order; as many replies as non-dropped commands |
| SessionLaws.EventsAreClientCommands | pkg/proxy/routing.go:134-149 | the events are the first commands of the client's stream, whatever the backends answer |
| SessionLaws.InputsFromClient | pkg/proxy/routing.go:133-180 | byte accounting: both backends' inputs are functions of the client's stream, and the unread rest is exactly what remains |
| SessionLaws.FinalMasterInput | pkg/proxy/routing.go:133-228 | for every run, the master's whole final input is the frames routed to it, then behind a pin every remaining client byte; never anything else |
| SessionLaws.MasterSeesAllButDropped | pkg/proxy/routing.go:147-228 | without a replica the master's whole final input is the client's whole stream minus frames with an empty name before a pin |
| SessionLaws.LockStep | pkg/proxy/routing.go:171-178 | each backend's consumed replies match its forwarded commands one to one, and the client's output splits into one reply per non-empty-name command |
| SessionLaws.ReplicaIsolation | pkg/proxy/routing.go:147-228 | however a run ends and wherever it is cut, all the replica was ever sent decodes only to state commands and to read-only commands that do not pin |
| Dispatch.InputsByTable | pkg/proxy/routing.go:133-228 | for every run, in order: the replica's whole input is exactly the client's state and read-only commands in front of a pin, the master's exactly the state commands and all others, then every byte behind the pin; a stopped run adds part of one command |
| Dispatch.EventByTable | pkg/proxy/routing.go:147-170 | who answers a command is decided by its name in the tables: dropped, mirrored, replica or master |
| Dispatch.PinsInAnyCase | pkg/proxy/routing.go:27-34 | the nine pinning commands, in any mixture of case, are never served as ordinary ones, and a run that has served all in front of one ends there |
| Dispatch.StateInAnyCase | pkg/proxy/routing.go:21-25 | the five state commands, in any mixture of case, reach both backends |
| Dispatch.ReadsInAnyCase | pkg/router/router.go:17-109 | read commands from every part of the table, in any mixture of case, are served by the replica |
| Dispatch.WritesInAnyCase | pkg/router/router.go:12-17 | write and may-write commands, in any mixture of case, go to the master |
| SessionLaws.StateInSync | pkg/proxy/routing.go:184-202 | both backends have received the same state commands, byte for byte and in order |
| SessionLaws.StreamsDetermineRun | pkg/proxy/routing.go:133-180 | the incoming streams determine the events and every cut |
| SessionLaws.StreamsDetermineWholeRun | pkg/proxy/routing.go:133-228 | two runs on the same streams without failed writes complete the same events, end the same way at the same command, and have sent every peer the same bytes |
| SessionLaws.EndServesScript | pkg/proxy/routing.go:133-180 | a run that does not stop has served every command of the client's stream, or every command in front of the pin |
| SessionLaws.WholeScriptServed | pkg/proxy/routing.go:133-180 | when no write fails and each backend has a reply to every command of the script on its routes, the run serves the whole script and does not stop |
| Meaning.StepMeaning | pkg/proxy/routing.go:151-178 | one iteration keeps both connection states and the master's dataset equal to the master-only session's |
| Meaning.RunExplained | pkg/proxy/routing.go:133-202 | at any lag, also between two writes of other clients, every reply is the master's, now or at the replica's version, under the same connection state |
| Meaning.RunLikeSolo | pkg/proxy/routing.go:133-202 | dataset, connection states and, without lag, all replies agree with the master-only session |
| Meaning.RoutingPreservesMeaning | pkg/router/router.go:12-17 | the two results above from byte streams alone, for every script and every schedule in which the replica follows the master's log |
| Meaning.HalfwayReplica | pkg/router/router.go:12-17 | such schedules include a replica that has part of what others wrote between two commands of the session |
| Meaning.WholeRunTransparent | pkg/proxy/routing.go:133-228 | without lag the client's whole final transcript, for all its commands and through a pin with any raw conversation behind it, is that of a session on the master alone, or a prefix of it if a write fails; a stopped run's is a prefix of that session's with the interrupted command answered too, and holds all earlier replies |
| Retry.BackoffTotal | pkg/master_resolver/master_resolver.go:34-44 | k consecutive backoffs total 2^k - 1 seconds up to five, then 31 + 30 (k - 5) |
| Retry.NotReadyTransparent | pkg/master_resolver/master_resolver.go:249-251 | a not-ready result anywhere in the schedule changes no later failure count |
| Retry.FailuresInARow | pkg/master_resolver/master_resolver.go:246-254 | k counted failures in a row behind a success count k |
| Retry.UpdateLoop | pkg/master_resolver/master_resolver.go:232-263 | fails exactly at retries+1 counted failures since the last success, with the exact total of waits; not-ready results neither count nor reset; nil only on cancellation or a negative setting |
| Retry.InitialLoop | pkg/master_resolver/master_resolver.go:269-297 | ends with the first success, or at the same count with one backoff fewer, or when a wait is cancelled |
| ResolverSystem.MasterAddressSafe | pkg/master_resolver/master_resolver.go:137-158 | in every interleaving MasterAddress returns the text of an address that Sentinel reported under a host that is no placeholder and that answered ROLE with master, or empty only if the initial resolve failed and nothing was published |
| ResolverSystem.ReplicaListSafe | pkg/master_resolver/master_resolver.go:174-222 | a published replica list is always empty or the sorted filter of one Sentinel reply, holding exactly the replicas that its entries stand for |
| ResolverSystem.NoReplicasUntracked | pkg/master_resolver/master_resolver.go:204-223 | without a replica endpoint no run ever publishes a replica |
| ResolverSystem.ReplicasTracked | pkg/master_resolver/master_resolver.go:204-223 | with one, every list that a Sentinel reply allows is published by some run, behind any confirmed master |
| ResolverSystem.OnlySuccessPublishes | pkg/master_resolver/master_resolver.go:204-223 | a failed master resolve changes nothing: each write of master or replicas follows a successful resolve of the same caller with no other resolve of that caller begun or failed in between, and writes the address confirmed there |
| ResolverSystem.CallEnds | pkg/master_resolver/master_resolver.go:204-223 | a call ends by a failed master resolve, or having set the master and, if tracked, the replicas to what its own last replica resolve gave, none if that failed; the update loop hears of a failure exactly in the first case |
| ResolverSystem.CallsComplete | pkg/master_resolver/master_resolver.go:188-223 | no deadlock: every caller has a step to take or waits for a lock whose holder has one, each step brings it nearer its end, and the lock is freed |
| ResolverSystem.RefreshDecision | pkg/master_resolver/master_resolver.go:195-201 | a refresh is turned away if and only if another started less than a throttle ago; otherwise it resolves |
| ResolverSystem.RefreshPublishes | pkg/master_resolver/master_resolver.go:188-202 | after any run with the lock free and no such recent start, a caller can publish any confirmed master to the readers |
| ResolverSystem.LoopPublishes | pkg/master_resolver/master_resolver.go:225-264 | so can the update loop after any successful initial resolve, and never after a failed one |
| ResolverSystem.RefreshesAreSerial | pkg/master_resolver/master_resolver.go:195-201 | refresh-triggered resolves never overlap each other |
| ResolverSystem.RefreshesAreThrottled | pkg/master_resolver/master_resolver.go:188-202 | at most floor(window / 1s) + 1 of them start in any window, for any number of callers |
| Resolve.PortByValue | pkg/master_resolver/master_resolver.go:378-380 | printed port numbers are accepted exactly from 1 to 65535 |
| Resolve.LiteralNeverPlaceholder | pkg/master_resolver/master_resolver.go:366-394 | a reported IP literal, however spelled, never yields an unspecified address, and yields its own |
| Resolve.PlaceholderIff | pkg/master_resolver/master_resolver.go:366-394 | an unspecified address comes out if and only if the host is a name whose lookup gives one |
| Resolve.PlaceholderExample | pkg/master_resolver/master_resolver.go:299-323 | with 0.0.0.0 and :: waited out as they should be, a name that resolves to 0.0.0.0 is accepted as the master |
| Resolve.ResolveMasterIff | pkg/master_resolver/master_resolver.go:299-323 | a resolve succeeds exactly for a reported host that is no placeholder, resolves, and answers ROLE with master; its failure is waited out exactly for a placeholder or a vanished name; every other failure counts |
| Resolve.BudgetSpent | pkg/master_resolver/master_resolver.go:236-255 | the retry loops' failure count is the number of other failures since the last success, for every sequence of reports |
| Resolve.UnansweredCounts | pkg/master_resolver/master_resolver.go:300-309 | an unreachable Sentinel or an unknown master name counts attempt by attempt |
| Resolve.WaitedOut | pkg/master_resolver/master_resolver.go:371-392 | any number of placeholder and vanished-name reports leaves the failure count at zero |
| Resolve.AddrRoundTrip | pkg/master_resolver/master_resolver.go:145-146 | host and port can be read back from the published text of an address |
| Replicas.SortByAddr | pkg/master_resolver/master_resolver.go:358 | sorted by address and a permutation |
| Replicas.ResolveReplicas | pkg/master_resolver/master_resolver.go:329-364 | the result is the sorted filter of the reply with addresses and names aligned |
| Replicas.PublishedExactly | pkg/master_resolver/master_resolver.go:337-363 | a published list holds a replica exactly as often as entries stand for it: unflagged, link up, host no placeholder, port in range, resolvable, role slave, under that address |
| Replicas.HeldBackIsSkipped | pkg/master_resolver/master_resolver.go:338-344 | an entry with s_down, o_down or disconnected anywhere in its flags, or a link status other than ok, contributes nothing |
| Replicas.LexLeIff | pkg/master_resolver/master_resolver.go:358 | the order is bytewise: the first difference decides, a proper prefix comes first |
| Replicas.OrderIndependent | pkg/master_resolver/master_resolver.go:325-358 | the published addresses do not depend on the order in which Sentinel lists the replicas |
| RoundRobin.Picker.ReplicaAddress | pkg/master_resolver/master_resolver.go:162-172 | the n-th successful call returns the address at n mod 2^64 mod k, through both wrap-arounds of the code |
| RoundRobin.OneRound | pkg/master_resolver/master_resolver.go:170-171 | k consecutive picks that cross no wrap visit every replica once, however often the counter wrapped before |
| RoundRobin.FairWithoutWrap | pkg/master_resolver/master_resolver.go:170-171 | counts in any window between two wraps, any two, differ by at most one |
| RoundRobin.FairAcrossWrap | pkg/master_resolver/master_resolver.go:170-171 | across one wrap, any one, they differ by at most two |
| RoundRobin.FairAcrossWraps | pkg/master_resolver/master_resolver.go:170-171 | in every window they differ by at most the number of stretches between wraps that it touches |
| RoundRobin.UnfairAcrossWrap | pkg/master_resolver/master_resolver.go:170-171 | a window in which one replica is chosen twice and another never, for every k that does not divide 2^64 |
| RoundRobin.FairIffDivides | pkg/master_resolver/master_resolver.go:170-171 | a difference of at most one over all windows holds if and only if k divides 2^64 |
| Slots.SlotsConserved | pkg/proxy/proxy.go:203-224 | in every interleaving tokens equal live sessions and never exceed the limit, and a release never blocks |
| Slots.AcceptedIffRoom | pkg/proxy/proxy.go:203-211 | a connection is rejected if and only if live sessions have reached the limit |
| Slots.FailedHandshake | pkg/proxy/proxy.go:345-359 | a client that fails the handshake has cost no dial, and its slot is two steps from free |
| Slots.SlotFreedLast | pkg/proxy/proxy.go:254-304 | no deferred close and no release of the slot while a pipe copies or waits to signal; sigChan is closed only after both signals were received, each once; every offered signal is received |
| Slots.FreesItsSlot | pkg/proxy/proxy.go:254-304 | once neither pipe copies, the session alone frees its slot, whatever other sessions do: until then one of its own steps can happen, and their number is fixed in advance |
| Slots.TwoAttempts | pkg/proxy/proxy.go:240-252 | a backend is dialed at most twice per connect, the second time only after the one refresh; a routed session's replica adds at most one of each |
| Slots.ConnectedIff | pkg/proxy/proxy.go:240-266 | a backend is connected if and only if the first dial succeeds, or there is a refresher and the second does; otherwise the session is closed |
| Slots.ReplicaIsOptional | pkg/proxy/routing.go:113-131 | an unknown or unreachable replica leaves the session running on the master alone |
| Slots.PinOutcome | pkg/proxy/routing.go:206-228 | a pin closes the replica's connection and pipes the master's, or closes all if the command could not be sent |
| Slots.BackendsBounded | pkg/proxy/routing.go:50-67 | at most two backend connections per routed session and one per piped session |
| IdleClock.NoTimeoutWhileLively | pkg/proxy/proxy.go:327-343 | if every silence on all connections together stays below T, no reader ever times out |
| IdleClock.TimeoutAfterSilence | pkg/proxy/proxy.go:327-343 | after the last reception at a, a reader blocked since m times out at exactly a+T if m = a and at m+2T otherwise, in every interleaving, and never stays blocked past that |
| IdleClock.LatestTimeout | pkg/proxy/proxy.go:327-343 | for every T a run that times out as late as a+2T-1 |

## Left out

- TLS setup, certificate loading and client handshakes: foreign libraries; a handshake is a step that succeeds or fails.
- Flags, environment, YAML and `Merge`: wide field copying that would only add easy members.
- The go-redis client, DNS, the spelling of IP literals other than 0.0.0.0 and ::, and the ROLE probe: oracles; one resolve sees them as functions of their arguments.
- Reverse DNS names beyond their alignment with addresses, logging, debug counters (`reads`, `writes`, byte counts) and version information.
- Redis command semantics: servers are arbitrary functions within the stated assumptions, so clients that use commands that suppress their reply or close the connection (CLIENT REPLY, QUIT) are excluded by hypothesis.
- Session.RoutedSession.PinTo: runs the two pipes one after the other; they share no object, so their interleaving and the half-closes are only modelled in `Slots`.
- Slots: accept errors, the wait between them and the shutdown of the listeners.
- IdleClock: the time between a deadline and its handling, and between a reception and its recording, is taken as zero.
