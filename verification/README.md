# Verification of the tunnel server and client

This project models the parts of the tunnel program that carry state and proves what they promise. The program lets
clients behind a firewall offer local services: a client keeps one SSH connection to the server, asks it to listen on
ports, and relays every user that connects there to a local address. The server protects its password check with a
per-address failure blocker.

| files | what they model |
|---|---|
| `auth/lru.dfy`, `auth/lru_cache.dfy` | the bounded LRU cache: its recency list as a value with the laws of every run, and the class with its index and its list |
| `auth/records.dfy`, `auth/blocker_spec.dfy`, `auth/blocker.dfy` | the failure blocker: cached and simple machine on values, and the class over disk, cache and shared record objects |
| `auth/memory_mode.dfy`, `auth/interleaving.dfy` | the blocker without a database; its calls taken apart into interleaved steps |
| `server/gate.dfy`, `server/gatekeeper.dfy` | pre-handshake check and password callback over whole runs |
| `server/sessions_spec.dfy`, `server/sessions_laws.dfy`, `server/sessions.dfy` | connections, sessions, ports and permits: step system, laws of every run, and the classes |
| `server/lookups.dfy` | the two tunnel lookups of a user connection taken apart, with cancels and forwards in between |
| `client/reload_spec.dfy`, `client/client.dfy` | configuration reload: what it means, and the client class |
| `client/reload_client.dfy`, `client/reload_session.dfy`, `client/reload_converges.dfy` | the goroutines of a reload as steps, the server as one session sees it, and client and server together |
| `relay/pump.dfy`, `relay/copy.dfy`, `relay/relay.dfy`, `relay/watchdog.dfy` | the steps of a copy loop, the loop itself, a relayed connection with half-close, the idle watchdog |
| `server/status.dfy`, `decimals.dfy` | the uptime printer and a parser that inverts it |
| `options.dfy`, `basics.dfy` | the option type; facts about set sizes, products and lists of sets |

Code that changes things step by step is a class whose methods are proved to make the steps of a machine on values; the
properties of whole runs are lemmas about that machine. `dafny verify dfyconfig.toml` checks everything.

Conventions and assumptions:

- An instant is an integer, the nanoseconds since Go's zero time, so that 0 is the time for which IsZero holds; the clock
  reading of each `time.Now()` is an argument. The properties over time assume readings that never go back. The
  watchdog, which compares whole seconds, uses real numbers of seconds.
- The disk is a map from addresses to record values, and its operations succeed (the code ignores their errors).
  Counters are unbounded integers. A restart is an empty cache over the same disk with the same parameters.
- Public calls of the blocker are atomic, except in `auth/interleaving.dfy`, which interleaves the steps of
  RecordFailure, IsBlocked and ResetFailure for pairwise different addresses; there the assignments to the fields of one
  record are one step, as no other thread holds that record.
- `ValidateResponse` is an arbitrary predicate.
- Session ids are distinct. The request goroutine has drained before the cleanup loop of a disconnect runs. In
  `server/sessions_spec.dfy` and its laws accepting a user and the handler's own lookup of the tunnel are one step;
  `server/lookups.dfy` and the class take the two apart and say exactly when that makes a difference. At stake is the
  server itself: `semaphore.Weighted.Release` panics when more permits are given back than were taken, so that where the
  model's count would fall to -1 the program has ended. `Lookups.Panics` marks these events.
- Reads and writes of `connInfo.Tunnels` are atomic, although accept loops and handlers (pkg/server/server.go:477, :508)
  read the map without a lock while the request goroutine writes it (:419, :452). So are the updates of ActiveConns
  (:492, :514), plain increments and decrements by several goroutines. What `SessionsLaws.SlotConservation` and
  `Lookups.ConservedIff` say holds only under these assumptions; for the permits, which the semaphore keeps under its
  own lock, the first is enough.
- What the operating system decides comes with the event: the port it picks for port 0, whether a bind can work at all,
  and which ports other programs hold.
- The limits on connections and tunnels may be any natural numbers, so the positivity that configuration validation
  demands is not needed; MaxConnsPerTunnel may be zero, in which case nobody is admitted.
- A reload runs over one connection, with no creation still pending from an earlier reload. The two cancels of one handle
  (one from cancelPortForward, one sent when the client's listener is closed, which the server refuses) are two moves;
  the removal of the table entry belongs to the second.
- A relay handler that ends closes its end of the channel; a loop of the other side that still writes to it then breaks.

Where code and comments differ, the code is followed: the comment in RecordFailure speaks of extending a running block,
but both branches do the same, and a blocked address never reaches it through the password callback.

## Model

| member | source | states |
|---|---|---|
| Lru.StepWellformed | pkg/auth/blocker.go:365-401 | one get, put or remove keeps the keys distinct and the size within the capacity (the single eviction suffices), and leaves every surviving entry the value it had |
| Lru.RunWellformed | pkg/auth/blocker.go:375-392 | so does every run |
| Lru.ListIsInLastUseOrder | pkg/auth/blocker.go:365-392 | after every run from an empty cache the list is in the order of last use, most recent first |
| Lru.Retention | pkg/auth/blocker.go:375-392 | a key not removed survives as long as fewer than capacity other distinct keys have been put or hit since its last use; without removals it is lost otherwise |
| Lru.Inclusion | pkg/auth/blocker.go:365-401 | on any common trace a larger cache lists, in the same order and with the same values, everything a smaller one does, and so hits with the same answer whenever the smaller does |
| LruCaches.InStepFacts | pkg/auth/blocker.go:342-352 | index and list are in bijection with the distinct keys of the view |
| LruCaches.LruCache.constructor | pkg/auth/blocker.go:354-363 | an empty cache, with the default capacity for one that is not positive |
| LruCaches.LruCache.Get | pkg/auth/blocker.go:365-373 | returns the record object cached for the key and moves it to the front; a miss changes nothing |
| LruCaches.LruCache.Put | pkg/auth/blocker.go:375-392 | makes the put step on the list: known key updated and moved to the front, new key pushed, last one dropped beyond the capacity; no two entries share a record object |
| LruCaches.LruCache.Remove | pkg/auth/blocker.go:394-401 | drops exactly the entry of the key |
| Records.Config.Normalized | pkg/auth/blocker.go:76-91 | each parameter on its own: kept if it is positive, otherwise replaced by its default (3 failures, 600 s, 1000 entries, 86400 s, 60 s) |
| BlockerSpec.FetchAgrees | pkg/auth/blocker.go:254-282 | getRecord, with its backfill and evictions, returns what the plain table holds and keeps every cached record equal to the disk record of its key |
| BlockerSpec.StepRefines | pkg/auth/blocker.go:138-175 | each public call answers like one unbounded map, leaves the disk equal to it, and keeps cache and disk in agreement |
| BlockerSpec.CachedRefinesSimple | pkg/auth/blocker.go:138-312 | for every cache size and every run of calls, restarts included, all answers are those of one unbounded map |
| BlockerSpec.CountsWhatIsBlocked | pkg/auth/blocker.go:187-197 | the block count is the number of addresses for which IsBlocked would say yes at that instant: those with a block end that is set and still to come; without a database it is zero |
| BlockerSpec.CleaningRemovesExactly | pkg/auth/blocker.go:219-250 | a cleaning removes exactly the unblocked records whose last failure is before the cutoff or unset, from disk and cache, and touches no other |
| BlockerSpec.CleaningIsInvisible | pkg/auth/blocker.go:187-250 | a run with a cleaning inserted gives the same answers, block counts included, at every later time, until a cleaned address fails again |
| Blockers.AuthBlocker.constructor | pkg/auth/blocker.go:76-135 | a blocker with normalized parameters, an empty cache and the given disk |
| Blockers.AuthBlocker.GetRecord | pkg/auth/blocker.go:254-282 | returns the cached object, or a fresh one made from the disk and now cached, or none; makes the fetch step of the cached machine |
| Blockers.AuthBlocker.IsBlocked | pkg/auth/blocker.go:138-144 | answers and steps like the cached machine: yes exactly when the record found has a block end that is set and still to come |
| Blockers.AuthBlocker.RecordFailure | pkg/auth/blocker.go:147-169 | mutating the shared record in place, writing the disk and putting the cache amount to the one failure step of the cached machine |
| Blockers.AuthBlocker.BumpCached | pkg/auth/blocker.go:154-168 | the mutation through the shared pointer changes no other cached value, and the put that follows hides it |
| Blockers.AuthBlocker.ResetFailure | pkg/auth/blocker.go:172-175 | forgets the address on disk and in the cache, and no other |
| Blockers.AuthBlocker.BlockedCount | pkg/auth/blocker.go:187-197 | one pass over the disk counts exactly the records whose block end is set and still to come |
| Blockers.AuthBlocker.CollectExpired | pkg/auth/blocker.go:226-237 | the first pass lists exactly the expired addresses |
| Blockers.AuthBlocker.CleanExpired | pkg/auth/blocker.go:219-250 | the two passes together make the cleaning step of the cached machine |
| MemoryMode.NeverOverBlocks | pkg/auth/blocker.go:147-175 | without a database, whatever the blocker reports blocked after any run, an unbounded one reports blocked too |
| MemoryMode.ExactWhileItFits | pkg/auth/blocker.go:254-262 | while no more distinct addresses have failed than the cache holds, all answers equal the unbounded blocker's |
| MemoryMode.EvictionForgets | pkg/auth/blocker.go:385-391 | for every capacity and threshold, a blocked address is let in again once as many others have failed as the cache holds |
| MemoryMode.ExactIff | pkg/auth/blocker.go:254-262 | all runs in which at most n distinct addresses fail are answered like the unbounded blocker exactly when the cache holds n |
| Interleaving.StartIsSafe | pkg/auth/blocker.go:93-126 | any disk with an empty cache and idle threads satisfies the invariant of the interleaved system |
| Interleaving.CacheAgreesOutsideFlight | pkg/auth/blocker.go:138-175 | at every step of every interleaving of failures, checks and resets the cached record of an address not in flight equals its disk record |
| Interleaving.TurnsAreProgress | pkg/auth/blocker.go:138-175 | each turn a thread gets brings it one step nearer to its end, whatever the others do |
| Interleaving.InterleavingIsSequential | pkg/auth/blocker.go:138-282 | threads that record failures, check and reset, each for its own address: under every schedule that gives each six turns per call, all finish, the disk is that of any sequential order of the same calls, and every check has had the answer it has there |
| Gate.BlockHoldsForItsWindow | pkg/server/server.go:179-203 | after the failure that reaches the threshold at time t, every check and callback for that address that starts before t + blockDur is barred, over all runs |
| Gate.BlockHoldsThroughEvictions | pkg/server/server.go:244-250 | the same for the bounded cache over its disk, whatever it evicts meanwhile |
| Gate.BarredIff | pkg/auth/blocker.go:37-39 | from any table without a record of the address, over every run: a check or callback is barred if and only if the failures counted since the record began reach maxFailures and it starts before the last of them + blockDur; logins and cleanings begin the record anew |
| Gate.BarredIffThroughEvictions | pkg/auth/blocker.go:138-144 | the same for the bounded cache over its disk |
| Gate.BlockEnds | pkg/auth/blocker.go:37-39 | a check or callback that starts at or after the last counted failure + blockDur is not barred, whatever was counted before |
| Gate.FewFailuresDoNotBar | pkg/auth/blocker.go:147-169 | an address with fewer than maxFailures counted failures is never barred |
| Gate.AcceptanceClears | pkg/server/server.go:201-203 | after an accepted password, from any table, only failures counted since can bar the address, and fewer than maxFailures do not |
| Gate.AcceptedIff | pkg/server/server.go:186-204 | on every event of every run, a password is accepted exactly when the address is not barred, it has 32 bytes of challenge and the rest is valid for them; it is refused exactly when not barred and that fails |
| Gate.FailureRate | pkg/server/server.go:175-205 | an address that is never accepted has at most maxFailures * (1 + T / recordTTL) + T / blockDur failures counted in any window of length T |
| Gate.GateStepRefines | pkg/server/server.go:175-205 | each check and callback over the cached blocker gives the verdict it gives over the plain map |
| Gatekeepers.Gatekeeper.PreHandshake | pkg/server/server.go:244-250 | the pre-handshake check makes its step, and bars exactly when the record found blocks now; without a blocker everyone proceeds |
| Gatekeepers.Gatekeeper.PasswordCallback | pkg/server/server.go:175-205 | the callback makes its step: barred exactly when the record found blocks now; otherwise accepted exactly with 32 bytes of challenge and a valid response, and refused if not |
| Gatekeepers.Serve | pkg/server/server.go:173-205 | the real objects, over any sequence of connections, callbacks, counts, cleanings and restarts on any disk, give the verdicts of the plain map |
| SessionsSpec.OwnedKept | pkg/server/server.go:303-467 | every event keeps open listeners and map entries of the live sessions in one-to-one correspondence |
| SessionsSpec.SlotsKept | pkg/server/server.go:483-516 | every event keeps permits taken, ActiveConns and live handlers of every tunnel object equal and within the limit |
| SessionsSpec.PermitsKept | pkg/server/server.go:225-237 | every event keeps the global permits equal to the live connection handlers and each session within its limit |
| SessionsLaws.RunKeepsInv | pkg/server/server.go:225-516 | all three hold in every state a started server can reach |
| SessionsLaws.PortOwnership | pkg/server/server.go:303-459 | in every reachable state the listening ports are the disjoint union of the live sessions' maps, and at most MaxConnections times MaxTunnels |
| SessionsLaws.ForwardIsGranted | pkg/server/server.go:429-446 | in every reachable state a port asked for is granted exactly when it is in range, the session is below its limit, the bind can work, and neither another program nor any live session holds it |
| SessionsLaws.ForwardIsExclusive | pkg/server/server.go:452-459 | in every reachable state a grant never overwrites a live entry of any session and changes nothing but one new entry; a refusal changes nothing |
| SessionsLaws.ChosenPortIsGranted | pkg/server/server.go:429-446 | in every reachable state a request for port 0 is granted with the port the operating system offers exactly when the bind can work, the session is below its limit and nobody holds that port |
| SessionsLaws.DisconnectFreesItsPorts | pkg/server/server.go:300-311 | in every reachable state a disconnect frees exactly its session's ports, gives one permit back and leaves the other sessions' maps and listeners alone |
| SessionsLaws.InfoSetsItsTunnel | pkg/server/server.go:327-348 | in every reachable state tunnel info is answered yes and sets name, address and timeout of the tunnel under its port, if the session has one, and nothing else |
| SessionsLaws.CancelFreesItsPort | pkg/server/server.go:399-420 | in every reachable state a cancel frees its port and says yes exactly when the session has it, and a repeated one is refused and changes nothing |
| SessionsLaws.EveryPortWasGranted | pkg/server/server.go:429-467 | every port in use goes back to a request of the session that holds it; if the request named a port it named this one, in the configured range |
| SessionsLaws.ChosenPortIsUnchecked | pkg/server/server.go:429-459 | a port the operating system chooses for request 0 is granted whatever the range |
| SessionsLaws.ConnectionIsLetIn | pkg/server/server.go:225-231 | in every reachable state a connection is let in, with one permit taken, exactly when fewer connection handlers and sessions live than MaxConnections; otherwise nothing changes |
| SessionsLaws.HandshakeIsExact | pkg/server/server.go:235-267 | in every reachable state a connection turned away gives its one permit back; one established keeps it and gets a session without ports; nothing else changes |
| SessionsLaws.SlotConservation | pkg/server/server.go:225-237 | in every reachable state global permits equal live handlers, and for every tunnel permits, ActiveConns and live users agree and respect the limit |
| SessionsLaws.AdmissionIsExact | pkg/server/server.go:477-500 | in every reachable state the accept loop's lookup always finds the tunnel of its own listener, and the user is admitted exactly when fewer handlers are live than the limit |
| SessionsLaws.ExitReleasesOnce | pkg/server/server.go:508-542 | in every reachable state both ways out of a handler give back one permit that was taken, of its own tunnel and no other, and a handler goes on exactly when address and channel are there |
| Sessions.Server.HandleForwardRequest | pkg/server/server.go:422-468 | the method makes the forward step on the objects: checks in order, new tunnel object under the bound port |
| Sessions.Server.HandleCancelForwardRequest | pkg/server/server.go:399-420 | the method makes the cancel step |
| Sessions.Server.HandleTunnelInfoRequest | pkg/server/server.go:327-348 | the method sets name, address and timeout of the tunnel under the port, if the session has it |
| Sessions.Server.CloseListeners | pkg/server/server.go:303-308 | the cleanup loop closes the listeners of all tunnels of the session, and no other |
| Sessions.Server.Disconnect | pkg/server/server.go:300-311 | cleanup, deletion of the session and release of its permit make the disconnect step |
| Sessions.Server.Accept | pkg/server/server.go:218-231 | the accept loop makes the connect step: a permit taken, or the connection rejected |
| Sessions.Server.Establish | pkg/server/server.go:258-267 | a new session with an empty map replaces the starting handler |
| Sessions.Server.TurnAway | pkg/server/server.go:235-256 | a blocked or failed connection gives its permit back |
| Sessions.Server.AcceptUser | pkg/server/server.go:470-502 | one round of the tunnel's accept loop makes the admission of the split step system: its own lookup, permit and count |
| Sessions.Server.LookUp | pkg/server/server.go:504-516 | the handler's lookup makes the second move; without a tunnel nothing will be released |
| Lookups.TogetherAnArrival | pkg/server/server.go:470-516 | with nothing in between the two lookups make the one arrival step of the laws above |
| Lookups.ConservedIff | pkg/server/server.go:477-516 | over every run that leaves no handler before its lookup, permits, ActiveConns and live handlers agree for every tunnel exactly when no cancel of a tunnel fell between the two lookups of one of its handlers |
| Lookups.StraightNeverPanics | pkg/server/server.go:477-516 | while no handler's lookup finds another tunnel than the one whose permit was taken for it, no tunnel has fewer permits taken than live handlers and no release panics, at every step of every run |
| Lookups.StrayLeavesOneShort | pkg/server/server.go:508-516 | the first lookup that finds another tunnel leaves that one exactly one permit short of its handlers, live or waiting |
| Lookups.ShortEndsInPanic | pkg/server/server.go:509-516 | a tunnel with fewer permits taken than live handlers: if all of them end before a user comes, one of the releases panics |
| Lookups.ReleasesWhatNobodyTook | pkg/server/server.go:477-516 | from any sound state: user admitted, tunnel cancelled, port forwarded again, and the handler's release, of a permit of the new tunnel that nobody took, panics |
| Sessions.Server.OpenChannel | pkg/server/server.go:504-542 | a handler without address or channel releases its slot at once, any other goes on |
| Sessions.Server.Release | pkg/server/server.go:509-516 | the deferred function gives back permit and count |
| ReloadSpec.LastOneWins | pkg/client/client.go:429-432 | of several configured tunnels with one name the last one counts |
| ReloadSpec.ReloadReconciles | pkg/client/client.go:436-467 | once the creations are stored the table is exactly the configuration, the cancelled names are exactly those that went or changed, and the same reload again does nothing |
| ReloadSpec.QuietIffSettled | pkg/client/client.go:436-467 | a reload cancels and creates nothing exactly when the table already is the configuration |
| Clients.Client.ByName | pkg/client/client.go:429-432 | the first loop builds the map of the configuration |
| Clients.Client.Visit | pkg/client/client.go:436-462 | the range callback drops a tunnel that went or changed, sending its two cancels, and otherwise takes it out of the new tunnels |
| Clients.Client.Sweep | pkg/client/client.go:436-462 | the whole range, in any order |
| Clients.Client.ReloadTunnels | pkg/client/client.go:415-474 | an unreadable file, or one in which a required field is missing, changes nothing; otherwise exactly the tunnels that went or changed are cancelled, by two requests each with their port, and inactive, the rest untouched, exactly the missing ones launched, and the configuration replaced; the requests in their order, the table and the launches are those of the sweep moves of the reload machine |
| ReloadClient.SweepIsReload | pkg/client/client.go:434-467 | the sweep moves of the reload machine, two for each handle to cancel and one more, send both cancels of each in order, leave the kept handles, and start a creation for each missing tunnel |
| Clients.Client.CreateTunnel | pkg/client/client.go:384-399 | a refused request stores nothing; a granted one stores a new active handle with its configuration and port |
| Clients.Client.ReloadAndCreate | pkg/client/client.go:415-474 | after all creations the table is the configuration, and unchanged tunnels are the very objects they were |
| Clients.Client.ReloadTwice | pkg/client/client.go:415-474 | a second reload of the same file sends nothing and launches nothing |
| ReloadConverges.FirstConnectionIsReady | pkg/client/client.go:119-121 | creating the tunnels of a new connection, in any state a server can reach, is such a reload: from an empty table over an empty session |
| ReloadConverges.MoveIsSafe | pkg/client/client.go:434-467 | every move of the client's goroutines, and of everybody else at the server, keeps client table, pending creations and server in step |
| ReloadConverges.EveryCreationSucceeds | pkg/client/client.go:384-399 | in every state of every run each creation's request is answered with the port it names, port swaps included |
| ReloadConverges.Converges | pkg/client/client.go:415-474 | when all is done the session's ports at the server are exactly the configured ones; the tunnel under each has the configured name and timeout and as address the local address, a colon and digits that read as the local port; the table is the configuration, and both agree again |
| ReloadConverges.SweepTurn | pkg/client/client.go:434-467 | each turn of the sweep takes one step off what the sweep has left, and no other move touches that |
| ReloadConverges.CreateTurn | pkg/client/client.go:384-399 | once the creations have started, each turn of one takes one step off its own way, and no other move does |
| ReloadConverges.FairSchedulesFinish | pkg/client/client.go:384-467 | every schedule that gives the sweep two turns for each handle it cancels and one more, and then each creation three turns, ends with the reload finished, however the turns are mixed and whatever others do at the server in between |
| ReloadSession.SoundForward | pkg/server/server.go:422-468 | a request for a free port of the configuration adds exactly that port to the session |
| ReloadSession.SoundCancel | pkg/server/server.go:399-420 | a cancel takes exactly its port from the session, and one for a port that is gone takes none |
| ReloadSession.SoundInfo | pkg/server/server.go:327-348 | tunnel info changes what the server was told of that port, and nothing else of the session |
| Copy.CopyBuffer | pkg/server/server.go:631-642 | whatever the chunks and the buffer size, the writer receives the data before the reader's error as far as it takes it, the timestamp is the clock of the last successful read, and the rounds are steps of the pump that the relay is made of, without a fault exactly when nothing was lost |
| Copy.CompleteIff | pkg/client/client.go:355-365 | the whole stream arrives exactly when no write fails and no data comes with the error |
| Copy.CopyTwice | pkg/server/server.go:619-629 | two sources with the same data, cut into any chunks and read through buffers of any size, leave the same bytes at equal writers |
| Relay.AlwaysAPrefix | pkg/server/server.go:576-591 | at every step of every run, broken or not, each side has received a beginning of what the other sends |
| Relay.AllOfItAtTheEnd | pkg/client/client.go:329-350 | where nothing broke in one direction, whatever happened in the other, its last loop ends only after delivering everything, and the closing of a finished handler cuts off nothing |
| Relay.DirectionsAreIndependent | pkg/server/server.go:576-614 | a direction in which nothing broke is where its own steps alone would have brought it, whether the other ended or broke |
| Relay.NeverStuck | pkg/client/client.go:332-348 | a direction that has not ended, broken or not, always has a step that brings it nearer to its end |
| Relay.IdleCutEnds | pkg/server/server.go:602-608 | after an idle cut both loops of the server are at their end, and stay there in every run |
| Relay.ClosingIsExact | pkg/client/client.go:329-350 | a handler closes its connections once both its loops have ended and no sooner, and that ends the other side's loop towards it and nothing else |
| Relay.LoopsArePumps | pkg/server/server.go:576-591 | after every run, however the two loops of a direction took turns and whatever broke, they have made the steps of two pumps behind each other, the second over all that the first has written, and each is the pump that the copy loop is proved to run; where nothing broke in that direction neither made a faulty step |
| Watchdog.Watch | pkg/server/server.go:569-612 | the loop cuts at the first check that is due, never with a zero timeout; a cut comes more than the timeout less one second, in numbers, after the start and after every activity before it, with 300 seconds for a negative timeout |
| Watchdog.NotTooEarly | pkg/server/server.go:602-608 | a cut comes only more than the timeout less one second after the last activity |
| Watchdog.NotTooLate | pkg/server/server.go:595-608 | with a check each second, a connection idle for the timeout and one second more is found due within that time |
| Watchdog.MayBeEarly | pkg/server/server.go:602 | the bound is tight: for every eps in (0, 1] a connection may be cut eps above that bound after its last activity |
| Watchdog.IdleCut | pkg/server/server.go:569-612 | with a check each second, moreover, a connection idle from some instant on is cut by the timeout and one second later, with 300 seconds for a negative timeout |
| Status.UnitsOfSeconds | pkg/server/status.go:12-16 | days, hours, minutes and seconds add up to the whole seconds, the last three below 24, 60 and 60 |
| Status.TextOfDuration | pkg/server/status.go:12-31 | the text in full: of an uptime days, hours, minutes and seconds in this order, from the largest that is not zero on; of a negative duration the seconds within the minute alone |
| Status.ReadBackIff | pkg/server/status.go:12-31 | the printed text determines the whole seconds, by a parser, exactly above minus one minute, and so for every uptime |
| Status.PrintingIsInjective | pkg/server/status.go:12-31 | durations of different whole seconds print differently, from zero on |
| Decimals.ValueOfDigits | pkg/server/status.go:20-28 | reading a printed number inverts printing it |
| Decimals.NoLeadingZero | pkg/server/status.go:20-28 | no printed number but zero begins with a zero |

## Left out

- TCP, SSH and TLS themselves, host keys, the HMAC challenge and its hex encoding: library code and cryptography.
- bbolt pages, file creation, JSON text and storage errors; extracting the address from a remote address.
- Concurrent callbacks for one address, a cleaner between the steps of another call, and a forward request that races
  with the cleanup of its session: the code does not synchronise them, so the model takes these calls as atomic.
- Jumps of the clock, and monotonic against wall readings: one clock that never goes back.
- Overflow of the failure count and of clock arithmetic: integers are unbounded.
- Floating-point rounding in formatDuration and in the timeout's conversion to seconds: exact integers instead.
- formatTime, the status tables, logs, colours, the command line, signals, reconnecting, keepalives and buffer pools.
- Health checks, health reports and the state labels of tunnels: single assignments.
- Defaults and validation of the server configuration: field by field.
- The status snapshot of all sessions, which copies them without a lock.
- A client's stale handles after a reconnect: one connection is assumed for reloads.
- Clients.Client.ReloadTunnels: the configuration file comes as a value that is there or not; reading and parsing it are not modelled.
- The semaphore library is not part of this model: a panic of its Release is an event that `Lookups.Panics` marks, and what the model counts after one has no counterpart in the program.
- SessionsLaws.SlotConservation: speaks of arrivals whose two lookups are one step, and of atomic updates of ActiveConns; Lookups.ConservedIff says when it holds without the first.
