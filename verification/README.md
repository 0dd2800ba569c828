# A verified model of hostapd_grpc

This project models hostapd_grpc, a Go service that talks to hostapd over its control sockets, and the C code it
is built on. It states what the service relies on as theorems and proves them with Dafny's verifier.
`dafny verify dfyconfig.toml` checks everything.

## What is modelled

**The socket manager** (`socket/manager.go`) appears twice.

- `machine*.dfy` is an interleaving machine with one program counter a thread. Its steps are the critical sections
  of `Get`, `Close` and `SendRawCmd` under the three locks `mu`, `fmu` and `smu`; `Close` and `SendRawCmd` of any
  number of threads run between the sub-steps of a `Get`, and evict visits the map in any order. Each thread
  owns at most one handle and closes it once. A thread may also send on a socket without owning a handle (a *stray*
  send, as when several goroutines share a handle or one keeps using it after another closed it). A Go panic ends
  the process.
  `machine_calls.dfy` gives the exact effect of each call that no other thread interrupts.
- `manager_class.dfy` is the same code as objects updated in place, one call at a time. Both are built from the
  functions of `shared.dfy`.

A socket is connected, broken (its reconnect failed, `s` is nil, and it is still referenced) or closed.

`isOpen` (`socket/manager.go:140-145`) returns the same expression that `inc` and `cache` call *closed*, so the first
guard in evict (`socket/manager.go:173`) is the opposite of what the code around it expects: it deletes the entries
that are open. `Config.guard` selects the guard as written (`Verbatim`) or as evidently meant (`Intended`). The
results that depend on it are proved for the intended guard with any limit and for the code as written with limit 0,
which is what `cmd/hostapd_grpc/main.go:25-28` ships; and `MachineGuard` and `MachineLeak` prove for each of them that
these are exactly the configurations in which it holds, by building for every other limit a run of the code as written
that breaks it. The gravest is `MachineLeak.ConnectionsLeak`: connections nobody holds and nobody can close, without bound.

**The control request** (`control.dfy`, `cstrings.dfy`, `session.dfy`) is `wpa_ctrl_request` with its send-retry and
receive loops over arbitrary finite traces of what send, the clock, select and recv return, the cookie framing, and the
Go caller; `Session` lifts it to whole runs of requests on one socket.

**The server** (`parser.dfy`, `keys.dfy`, `printer.dfy`, `stations.dfy`, `gauge.dfy`) is the `STA-FIRST`/`STA-NEXT` loop, the reply
parser, stated in literals and with a reference printer it inverts, and the gauge with a recount it must agree with.

`collection.dfy` joins the loop and the gauge.

**The low-level algorithms** (`backtrace.dfy`, `greed.dfy`, `allocator.dfy`, `tokenizer.dfy`) are the backtrace-pattern
matcher of the fault injection, the traced allocator, and the in-place argument splitting of `os_exec`. The matcher is
greedy and can miss; `greed.dfy` settles for which patterns it never does.

## Model

| member | source | states |
|---|---|---|
| MachineSafety.RefsExact | socket/manager.go:96-163 | in every reachable state, under every interleaving, `refs` is the number of handles out plus the one a running Get holds; a socket is closed iff nobody holds it and the cache does not |
| MachineSafety.ClosedAbsorbing | socket/manager.go:96-163 | once a socket is closed, no run of Gets, Closes, sends and evictions revives it |
| MachineSafety.CachedWrittenUnderMu | socket/manager.go:108-138 | a step that changes `cached` is taken by the thread that holds `mu`, which is why evict and store may read the flag without `fmu` |
| MachineSafety.PanicsOnlyAfterFailedReconnect | socket/manager.go:66-92 | the panic in store never fires; a call through nil happens to a handle owner, to Close or to evict only on a socket whose reconnect failed, and to a stray sender otherwise only on a closed socket |
| MachineBroken.PanicsIff | socket/manager.go:66-166 | exactly which steps panic: a handle owner's request, the last Close's close and uncache's close do if and only if a reconnect of their socket failed before, a stray request also when the socket was closed to the end, and no other step ever does |
| MachineBroken.BrokenForever | socket/manager.go:66-73 | once a reconnect of a socket failed, the socket has no connection in any later state of any run |
| MachineBroken.NilCallHappens | socket/manager.go:75-94 | in every configuration a run (Get, a request that cannot reconnect, one more request) ends in a handle owner's call through nil |
| MachineSafety.HeldIsConnected | socket/manager.go:75-166 | while a reference is held the socket is not closed, and its `s` is nil only after a failed reconnect or during one |
| MachineSafety.ConnectionsConserved | socket/manager.go:35-166 | connections opened minus closed equals the number of sockets with non-nil `s`; no connection serves two sockets and no closed one is used again |
| MachineSafety.ClosedOnce | socket/manager.go:66-166 | a step closes at most one connection, one that was open until then and belonged to the socket that loses it |
| MachineSafety.RequestsSerialized | socket/manager.go:75-94 | at most one thread is inside the request part of a socket at any time, reconnect included |
| MachineSafety.LockOrder | socket/manager.go:75-192 | whoever waits for a lock holds only locks earlier in the order mu, fmu, smu |
| MachineSafety.NoDeadlock | socket/manager.go:75-222 | whenever a thread is inside a call, it or a thread at the end of at most three links of waiting can take a step |
| MachineProgress.RunsEnd | socket/manager.go:171-222 | every step of a call lowers a measure, so a run without new calls is no longer than the measure of its start, whatever the scheduler does |
| MachineProgress.CallsFinish | socket/manager.go:75-222 | such a run can stop only when the process died or nobody is inside a call: every call finishes |
| MachineCalls.SendSpares | socket/manager.go:75-94 | a request run without interference that spares its socket ends in the very state it began in |
| MachineCalls.SendReconnects | socket/manager.go:66-94 | one that finds it dead ends with the old connection closed, one new one opened and in place, and the command sent again: exactly these fields change |
| MachineCalls.SendBreaks | socket/manager.go:66-89 | if it cannot be reopened the call ends there, without a second attempt, and the socket is broken |
| MachineCalls.CloseKeeps | socket/manager.go:147-165 | a Close that is not the last, or of a cached socket, gives up one reference and changes nothing else |
| MachineCalls.CloseReleases | socket/manager.go:155-162 | the last Close of an uncached socket closes its connection |
| MachineCalls.GetHits | socket/manager.go:194-213 | below the limit, a Get of an open cached entry adds one reference and changes nothing else |
| MachineCalls.GetRecaches | socket/manager.go:194-213 | one of an open entry that was uncached also caches and counts it again |
| MachineCalls.GetOpens | socket/manager.go:194-221 | one that finds no open entry opens one connection, and enters and counts one new cached socket |
| MachineCalls.GetFails | socket/manager.go:207-218 | if it cannot be opened, the state is what it was |
| MachineCalls.FullStoreEvicts | socket/manager.go:195-197 | at the limit store begins to evict, with every entry ahead |
| MachineCalls.TurnDeletes | socket/manager.go:173-174 | a turn of evict deletes an entry under the first guard, read either way, and changes nothing else |
| MachineCalls.TurnSpares | socket/manager.go:175 | it leaves an entry alone that is not cached, or when no more than `Limit - 1` are |
| MachineCalls.TurnKeeps | socket/manager.go:175-182 | otherwise it uncaches it; with handles out the entry stays |
| MachineCalls.TurnReleases | socket/manager.go:175-182 | without handles the connection is closed and the entry goes |
| MachineCalls.LockedOut | socket/manager.go:75-192 | no step of a call that needs a lock is taken while another holds it |
| MachineInv.BaseNext | socket/manager.go:75-222 | the joint invariant (each lock held by who says so, typed map entries, exact references, conserved connections, explained nil sockets) is kept by every step |
| MachineTidy.OneOpenSocketPerName | socket/manager.go:171-222 | between Gets every open shared socket is the map's entry for its own name, so a name never has two |
| MachineTidy.CachedIsExact | socket/manager.go:171-205 | between Gets `m.cached` is the number of entries with the flag set, and stays within a positive limit |
| MachineTidy.EvictMakesRoom | socket/manager.go:171-184 | evict(1) ends with `m.cached <= Limit-1` for every visiting order, also when it uncaches the socket being fetched |
| MachineTidy.ConnectionsBounded | socket/manager.go:119-205 | open connections are at most Limit plus the sockets with handles out |
| MachineTidy.ConnectionsListed | socket/manager.go:119-222 | open connections are at most the entries of the map, for limit 0 as well |
| MachineTidy.TidyNext | socket/manager.go:171-222 | the cache invariant (listing, exact count, eviction quota) is kept by every step |
| MachineGuard.SameSocketForever | socket/manager.go:186-222 | limit 0, code as written: once stored, a name's entry stays in the map, cached, and every later Get of the name has that same object in hand |
| MachineGuard.SameSocketReturned | socket/manager.go:207-222 | limit 0, code as written: the step that ends a later Get of the name returns that same object |
| MachineGuard.EvictDropsOpen | socket/manager.go:171-184 | with the guard as written evict can sweep the whole map, deleting every open entry and uncaching none |
| MachineGuard.GuardAsWrittenOpensTwice | socket/manager.go:173 | for every non-zero limit a run of the code as written ends between Gets with one name opened twice |
| MachineGuard.GuardAsWrittenMiscounts | socket/manager.go:173-202 | for every non-zero limit such a run ends with `m.cached` above the limit and above the number of set flags |
| MachineGuard.OneOpenPerNameIff | socket/manager.go:171-205 | one open socket a name in all states between Gets, if and only if the limit is 0 or the guard is the intended one |
| MachineGuard.CountExactIff | socket/manager.go:171-205 | `m.cached` exact in all states between Gets, under the same condition and no other |
| MachineGuard.LimitKeptIff | socket/manager.go:171-205 | for a positive limit, `m.cached` stays within it if and only if the guard is the intended one |
| MachineGuard.EvictMakesRoomIff | socket/manager.go:171-184 | for a positive limit, evict always ends with `m.cached <= Limit-1` if and only if the guard is the intended one |
| MachineLeak.ConnectionsLeak | socket/manager.go:171-205 | with the guard as written, for every n a run ends with no call running, no handle out and n connections open; with a limit, limit + 1 names are enough for it |
| MachineLeak.ConnectionsBoundedIff | socket/manager.go:119-205 | for a positive limit, open connections stay within Limit plus the sockets with handles out if and only if the guard is the intended one |
| MachineLeak.ConnectionsListedIff | socket/manager.go:119-222 | no more open connections than entries of the map, if and only if the limit is 0 or the guard is the intended one |
| ManagerClass.SharedSocket.SendRawCmd | socket/manager.go:66-94 | at most one reconnect a call: what is closed, opened and returned in each case, nil call and failed reopening included |
| ManagerClass.SharedSocket.Inc | socket/manager.go:96-106 | adds a reference unless the socket is closed, and says which |
| ManagerClass.SharedSocket.Cache | socket/manager.go:108-117 | sets the flag unless the socket is closed, and says which |
| ManagerClass.SharedSocket.Uncache | socket/manager.go:119-138 | gives up the cache's reference, and closes the connection exactly when no other is left |
| ManagerClass.SharedSocket.Close | socket/manager.go:147-166 | gives up one handle, refuses at zero, and closes the connection exactly with the last reference |
| ManagerClass.Manager.Evict | socket/manager.go:171-184 | for every visiting order: as written it deletes exactly the open entries and changes no socket, count or connection; as meant it deletes exactly the closed ones, uncaches only down to `limit - need` and reaches it, keeps the count exact, and closes exactly the connections that uncaching released |
| ManagerClass.Manager.Store | socket/manager.go:194-205 | the socket ends up cached under its name; what happens to every other entry and its socket, by guard and fullness; exactly which connections are closed; the count stays exact and within the limit |
| ManagerClass.Manager.Get | socket/manager.go:186-222 | an open entry gains a reference and is returned, otherwise one fresh connection is opened; a failed open leaves map, count, sockets and connections alone; the effect on every other entry, and exactly which connections are closed |
| Control.ReltimeSub | socket/os.h:77-86 | the difference is exact in microseconds and normalized for normalized operands |
| Control.ReltimeExpired | socket/os.h:99-108 | true iff strictly more than the timeout has passed, to the microsecond |
| Control.SendWithRetry | socket/wpa_ctrl.c:461-486 | retries while busy; ends at the first attempt accepted, refused for good, or busy more than 5,000,000 microseconds after the first clock reading with a non-zero second; within the bound below when every sleep lasts a second |
| Control.RetryBound | socket/wpa_ctrl.c:461-484 | with sleeps of at least a second a request makes at most 7 sends, 8 if the first clock reading has second 0 |
| Control.RetryBoundTight | socket/wpa_ctrl.c:471-472 | both bounds are reached |
| Control.Receive | socket/wpa_ctrl.c:488-519 | the reply is the first datagram that does not start with `<`, cut to the buffer; the callback gets exactly the events before it, in order; nothing outside the buffer changes and the length never grows |
| Control.FirstOfIs | socket/wpa_ctrl.c:494-514 | in literals: the result of a trace is its first turn that is no interrupted select and no datagram starting with `<` |
| Control.MessagesAre | socket/wpa_ctrl.c:499-511 | in literals: the callback gets the datagrams starting with `<`, in order, each cut to leave room for a NUL, and nothing else |
| Control.CutIs | socket/wpa_ctrl.c:497-499 | a datagram is cut to the buffer's length, and is an event if it starts with `<` and the buffer has room for that |
| Control.Request | socket/wpa_ctrl.c:431-520 | result, reply, callbacks and sent bytes of a whole request as functions of the trace |
| Control.EndOfSending | socket/wpa_ctrl.c:464-486 | whether a request is sent, abandoned or still trying depends on the trace alone |
| Control.SendRawCmd | socket/wpa_ctrl.go:60-81 | the Go call returns the cut reply or one of the two error codes as the trace dictates, and its panic about an overrun buffer is unreachable |
| CStrings.StrlCpy | socket/os_unix.c:409-428 | returns the source length, leaves a terminated prefix of length min(len, siz-1), and writes nothing else |
| CStrings.Frame | socket/wpa_ctrl.c:443-453 | the framed command is exactly cookie, space, command, for every cookie and command |
| Session.RepliesCorrelate | socket/wpa_ctrl.c:488-518 | every reply ever returned is the peer's answer to the command as many requests earlier on its connection as had given up there by then: its own command's when none had (what these counts are is stated by the next two rows) |
| Session.ReconnectStartsOver | socket/manager.go:66-93 | told from events alone: after a reconnect, whatever happened before, the k-th reply is the k-th text the peer sent as an answer since, commands and timeouts count from then on, and without timeouts every command since, the resent one included, gets a reply |
| Session.FirstConnection | socket/wpa_ctrl.c:488-518 | the same law for the first connection |
| Session.NothingStaleBetweenRequests | socket/manager.go:75-94 | between requests, answers queued or still owed number exactly the requests of this connection that timed out, also after reconnects |
| Session.RequestsAreLoops | socket/wpa_ctrl.c:488-519 | while answers and events keep arriving, a request of a session waits, returns its reply or gives up exactly as the verdict of the receive loop on what it meets says, with the same reply |
| Session.DatagramsConserved | socket/wpa_ctrl.c:497-513 | on one connection, what the requests took and what still waits is, in order, what waited and what the peer sent |
| Session.LoopTakesOldestAnswer | socket/wpa_ctrl.c:497-514 | on the datagrams waiting in a queue the receive loop returns the oldest answer |
| Session.LateAnswerShifts | socket/wpa_ctrl.c:515-517 | a run where one timeout makes the next request return the answer to the command before |
| Session.PairedNext | socket/manager.go:75-94 | the pairing invariant is kept by every delivery, answer, event, receipt, timeout and reconnect |
| Parser.ParseUint32Iff | server/service.go:100-107 | the result is a positive n exactly for the decimal form of n, leading zeros allowed, with n at most 2^32-1; every other string, malformed or too large, gives 0 |
| Parser.DecimalInverse | server/service.go:100-107 | the value read from a number's decimal digits is the number |
| Parser.Record.ParseKV | server/service.go:109-129 | the loop over the flag matches and the switch over the keys compute the setting's effect on a client, which Keys.LineIs states |
| Keys.LinesAre | server/service.go:132-135 | a line break ends a line and one carriage return before it is dropped; this settles the lines of every text |
| Keys.ParseIs | server/service.go:131-150 | no line gives an empty client, the first the address of one, every other applies to what those before it left |
| Keys.LineIs | server/service.go:109-148 | what one line does to every field: its key, the text before the first `=` stripped and lowered, sets the counter of that name and no other, or adds flags; a line without `=` does nothing |
| Keys.UnknownKeyIgnored | server/service.go:110-128 | a line under any other key than the seven gives back the client unchanged |
| Keys.TrimIs | server/service.go:110-127 | stripping cuts out a slice, drops only white space, and leaves none at either end |
| Keys.LowerIs | server/service.go:110 | lowering changes A to Z letter by letter and no other ASCII character; of the rest only the Kelvin sign and the dotted capital I become ASCII letters |
| Keys.FlagsLeftmost | server/service.go:98-115 | the flags of a value are the text of its leftmost non-empty brackets and then those of the rest |
| Keys.FlagsNone | server/service.go:98-115 | a value without such brackets holds none |
| Parser.ParseCli | server/service.go:131-150 | the line loop with its address flag computes the parse of the whole text |
| Printer.LastOccurrenceWins | server/service.go:109-148 | each counter is that of its last line, whatever the other lines say |
| Printer.FlagsAccumulate | server/service.go:111-115 | flags of all flags lines add up in order; settings never touch the address |
| Printer.ParsedIsPlain | server/service.go:98-148 | whatever the text, the address has no line break and no flag is empty or holds `]` or a line break |
| Printer.BracketsInverse | server/service.go:98-115 | the flag pattern finds exactly the flags that were printed in brackets |
| Printer.PrintedParses | server/service.go:131-150 | parsing a printed client gives it back |
| Printer.RoundTripIff | server/service.go:131-150 | the clients with 32-bit counters that survive printing and parsing are exactly those with a one-line address without a final carriage return and non-empty one-line flags without `]` |
| Stations.ListClientsOnSock | server/service.go:158-173 | the loop computes the walk over its replies, the listing and the commands sent, which the next row states |
| Stations.ListingIs | server/service.go:158-173 | on any results: an error is returned as it is, at an empty text or `FAIL` the reports so far are returned, field by field and with the socket's name, otherwise the loop still runs; the commands are STA-FIRST and then STA-NEXT with each address |
| Stations.EnumerationComplete | server/service.go:152-174 | against a stable list with distinct addresses the loop takes one reply a station and one more, and lists every station in order, parsed and tagged |
| Stations.RepeatedAddressNeverEnds | server/service.go:163-172 | if two stations share an address the loop never ends |
| Stations.EndsIffDistinct | server/service.go:163-172 | given replies enough, the loop ends if and only if the addresses are distinct |
| Collection.ScrapeCountsStations | server/metrics.go:57-89 | after a scrape of distinct sockets, whatever came before, the label of every socket with a stable server and distinct addresses reads the number of its stations |
| Gauge.ListClients | server/service.go:176-197 | request errors become error entries beside all clients found; the first other error aborts, and only that |
| Gauge.ListOne | server/util.go:23-30 | one socket: a request error reads as no clients, any other error as failure |
| Gauge.ConnectedClientsGauge.Scrape | server/metrics.go:69-89 | the new gauge state, which the next rows state, and exactly the sockets that failed; a failed listing changes nothing |
| Gauge.RoundLabels | server/metrics.go:57-66 | a scrape's labels are exactly those before it and the sockets that did not fail outright |
| Gauge.LabelsExact | server/metrics.go:57-89 | after any run a label is known exactly if some scrape read that socket without an outright failure |
| Gauge.ScrapeAllAgrees | server/metrics.go:57-89 | after a scrape of zeroed labels every label reads the recount, and no label is lost |
| Gauge.LabelsOnlyGrow | server/metrics.go:78-80 | labels never disappear, over any run of scrapes |
| Gauge.GaugeAgrees | server/metrics.go:69-89 | after any run ending in a scrape of distinct sockets each known label reads the number of clients found on it, and 0 if unlisted, failed or answered with a request error; the labels are those before and the sockets that did not fail outright |
| Backtrace.Match | socket/os_unix.c:473-510 | the pointer-walking loop decides the greedy scan, and ends |
| Backtrace.MatchFits | socket/os_unix.c:476-509 | whenever the scan matches, the pattern read as a relation fits the frames |
| Backtrace.MatchEmbeds | socket/os_unix.c:476-509 | a match implies an order-preserving embedding of the required items into the frames |
| Backtrace.ScanTakes | socket/os_unix.c:476-509 | the scan on the string, with its positions and re-read marks, makes the same choices as one on the list of items |
| Greed.GreedExact | socket/os_unix.c:476-509 | for every pattern, the scan matches all the stacks the pattern fits if and only if the pattern is safe: behind each plain item no `=` demands a text before the next plain one, and no optional item can take the frame the next required one needs (a last item with a second mark has clauses of its own) |
| Greed.GreedExactWithoutOptionals | socket/os_unix.c:480-509 | without `?` that is: no `=` with a text stands behind a plain item |
| Greed.UnmarkedMatchIff | socket/os_unix.c:476-509 | without `=` and `?` the scan matches if and only if an order-preserving embedding exists |
| Greed.GreedMissesExactItem | socket/os_unix.c:492-501 | a pattern with `=` and a stack that fit and do not match |
| Greed.GreedTakesOptional | socket/os_unix.c:493-508 | a pattern with `?` and a stack that fit and do not match |
| Backtrace.HitIsOnCallers | socket/os_unix.c:463-473 | whichever wrappers the call came through, the pattern is matched against their caller and out from there |
| Backtrace.AllocSeenFromCaller | socket/os_unix.c:464-471 | an allocation through any of the listed wrappers is matched against the wrapper's caller |
| Backtrace.FaultPoint.Fail | socket/os_unix.c:454-521 | one call's effect on the counter, and whether it fires |
| Backtrace.OnlyNthMatchFires | socket/os_unix.c:460-520 | over any run of calls from any stacks, with initial count n, a call fires iff the pattern matches its stack and exactly n-1 earlier ones matched |
| Allocator.Allocator.Malloc | socket/os_unix.c:593-605 | an injected or real failure changes nothing, otherwise the block is live and listed |
| Allocator.Allocator.Realloc | socket/os_unix.c:607-628 | each case's result and new state; a failure leaves the old block live and unchanged, a dead block aborts |
| Allocator.Allocator.Free | socket/os_unix.c:630-646 | unlists and kills a live block, ignores NULL, aborts on a dead one |
| Allocator.Allocator.Deinit | socket/os_unix.c:315-331 | the reported total is the sum over the list |
| Allocator.StepAgrees | socket/os_unix.c:593-646 | every call keeps the list, the live blocks and their contents in agreement with the client's own book of what it holds |
| Allocator.AllocationsConserved | socket/os_unix.c:315-646 | after any run the list holds exactly the blocks in the client's book, each once, with the contents the book says (so os_realloc keeps the first min(old, new) bytes and no call disturbs another block), and the reported total is the sum of their lengths |
| Tokenizer.StrChr | socket/os_unix.c:695 | finds the first occurrence before the terminator, without reading past it |
| Tokenizer.PiecesSplit | socket/os_unix.c:691-697 | a space splits any text into the pieces before it and the pieces behind it |
| Tokenizer.OnePiece | socket/os_unix.c:691-697 | a text without spaces is its own piece |
| Tokenizer.CutPiece | socket/os_unix.c:695-696 | cuts the next piece off in place and changes nothing before it |
| Tokenizer.SplitLoop | socket/os_unix.c:689-697 | argv gets exactly the first 29 non-empty pieces, at most 29 however long the argument |
| Tokenizer.SplitArgs | socket/os_unix.c:679-698 | read back as C strings from the final buffer, `argv[1..]` are those pieces, NULL follows them within bounds, and only spaces were overwritten |

## Left out

- Handles are closed at most once for each Get, and a thread owns at most one; a second Close through a stale handle
  is not in the machine. `listClientsOnSock` never closes its handle, unlike `pingSocket`; in the machine that is a
  thread that stays in `Holding`.
- MachineProgress.CallsFinish: each system call is one step, so a run in which Open or a send never returns is outside it.
- MachineSafety.NoDeadlock: likewise takes Open and sends to return in the end.
- MachineTidy.ConnectionsBounded: counts when no Get and no closing is under way; in between, a socket whose last
  reference is gone keeps its connection until its closer has taken `smu`.
- ManagerClass.Manager.Get: one call at a time; what other threads do between its sub-steps is in the machine.
- ManagerClass.Manager.Evict: states the cached count reached, not which entries are chosen, which the map's order decides.
- isSocketDead: which errno means a dead socket is a choice of the environment (`SendDead`, `Dead`).
- Session.RepliesCorrelate: the peer answers every command of a connection once and in order, and no answer starts with `<`;
  a reconnect drops the old connection's answers.
- CStrings.StrlCpy: the source and the destination are different arrays, as C requires of them.
- Backtrace.Match: reading a frame's name past its terminator, which comparing `len` bytes can do, is not modelled; a
  prefix test takes its place, and a name may be any text, the empty one included. The 256-byte limit of the pattern and the depth limit of the stack are left out.
- Allocator.Allocator.Free: a freed block's header stays readable, which is what the code's double-free report relies on; list links
  are a sequence.
- Parser.ParseCli: text is a sequence of characters, not bytes; a line of 64 KiB, where bufio.Scanner stops, is not modelled
  (replies have at most 4096 bytes).
- Keys.LowerIs: letters beyond ASCII whose lower case is not ASCII either are left as they are, since no key holds any.
- Stations.ListClientsOnSock: Get failing before the first command returns that error and is left to the caller's result type.
- Integers are unbounded: wrap-around of os_time_t, size_t and the counters is not modelled.
- The overflow guards of os_calloc and os_realloc_array, os_remove_in_array and os_memcmp_const: single expressions or
  copies that would add only easy members.
- Real sockets, select and bind, file creation and unlinking, `Available`, ListSockets and Ping: replaced by traces or left out.
- The named-pipe, Android and UDP-open variants of wpa_ctrl: foreign calls only.
- Error-code mapping to gRPC statuses, message texts, logging, HTTP and Prometheus registration, generated protobuf code.
