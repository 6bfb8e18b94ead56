# Verification of the local API server balancer

This project models the parts of the balancer whose behaviour is hard to see from the code, and proves
properties of the model for every input, every interleaving and every run.

* **The kubeconfig reader** (`Strings` and the `Yaml` modules). `Yaml` states the YAML subset parser as functions on
  the lines not yet consumed; `YamlParser` is the parser with its shared position and in-place rewrite, proved to
  compute them. The documents it accepts are given exactly, line by line (`YamlLex`, `YamlScalars`) and block by
  block (`YamlGrammar`), and so is the set of trees it can produce. A printer for block layouts is undone by the
  parser, and cosmetic edits change nothing. Indexing an empty string, which makes the program panic, is an outcome
  of its own (`Crash`); `YamlPanic`, `YamlCut` and `YamlSafe` say exactly when it happens and how to see that it
  cannot.
* **Backends, balancing and failover time** (`Backends`, `Hysteresis`, `Failover`, `Balance`, `Pools`). The fall/rise
  machine against its probe history, the drain, rotation by a wrapping 64-bit counter, stable least-connection order, and
  reconciliation with an address list.
* **The running balancer** (`Balancer` and the `Balancer*` modules, `BestEffort`). Handlers, one monitor per
  backend, the checker and the discovery poller interleave; each critical section and each atomic operation is one
  step. A clock counts the steps. Fields marked history record what happened and when, and decide nothing. A
  handler's name doubles as the name of its one backend connection.
* **Discovery, its state file and restarts** (`Admission`, `Endpoints`, `Discovery`, `Restarts`), with crashes
  between any two file-system calls.
* **One connection** (`Pipe`) and **Serve/Shutdown** (`Server`), again as interleaved steps.

Verify with `dafny verify dfyconfig.toml --resource-limit 2000000`.

The code and its documentation disagree twice, and the model follows the code. The comment above the lexer
promises that tab indentation is rejected (internal/kubeconfig/yaml.go:22-23), but the check can never fire
(`YamlLayout.TabsAreNeverRejected`). And docs/migration.md (lines 327-329) bounds the time to mark a dead
backend by interval times fall plus one timeout. The code meets this only while the timeout does not exceed the
interval (`Failover.DocumentedBoundExactly`); the bound that always holds uses the larger of the two.

## Model

| member | source | states |
|---|---|---|
| YamlRoundTrip.RoundTrip | internal/kubeconfig/yaml.go:49-66 | Printing any printable layout of a tree (quoted or plain scalars, children deeper or a sequence at its key's indent, mappings on the dash line, bare dashes, empty collections, any other value that fits on a line) at any indent and parsing the text gives back exactly that tree with every line consumed |
| YamlGrammar.AcceptedExactly | internal/kubeconfig/yaml.go:49-168 | A list of lines is accepted, with a given tree, exactly if it is the lines of a block with that tree: fields with keys that differ, each holding a value on its line, nothing, a deeper block or a sequence at its column, and items that are scalars, blocks two columns deeper below a bare dash, or mappings that open behind the dash; no lines at all make an empty mapping |
| YamlGrammar.FieldsParse | internal/kubeconfig/yaml.go:130-168 | The mapping loop, started with any fields already collected, reads all fields of such a block into them and stops exactly at the first line that is not its own |
| YamlGrammar.ItemsParse | internal/kubeconfig/yaml.go:82-128 | The sequence loop reads all items of such a block in order, whichever of the three item forms each one uses, and stops at the first foreign line |
| YamlGrammar.RewriteRestores | internal/kubeconfig/yaml.go:117-121 | Moving the first line of a mapping behind a dash is undone by the in-place rewrite |
| YamlClean.CleanLinesLex | internal/kubeconfig/yaml.go:24-46 | Lines without surrounding blanks, comments or newlines lex back to themselves, numbered, after any lines already lexed |
| YamlLex.LexLineExactly | internal/kubeconfig/yaml.go:28-43 | A line is dropped exactly if it is nothing but blanks and carriage returns or has a hash behind nothing but blanks, taken for a marker exactly if it shows three dashes, and otherwise kept as the text it shows, at its column |
| YamlLex.LexExactly | internal/kubeconfig/yaml.go:24-46 | The lexer keeps exactly the lines with content, in order and under their numbers, or fails at the first marker that follows one of them |
| YamlScalars.SplitKeyValueExactly | internal/kubeconfig/yaml.go:171-188 | A line splits into a key and what it holds exactly if it is a text without a colon, a colon, and nothing or a text that starts with a blank; the key is the first without the space and one pair of quotes around it, and not empty |
| YamlScalars.ScalarExactly | internal/kubeconfig/yaml.go:197-308 | A text reads as a tree exactly if, without the space around it, it is not empty and is what its first character makes it: a quoted string or a flow collection with nothing but a comment behind it, or a plain string up to its first comment; anchors, aliases and block scalars are refused, and of several flow fields with one key the last counts |
| YamlErrors.ErrorsPoint | internal/kubeconfig/yaml.go:49-66 | Every error points to a line of the text that is neither blank nor a comment |
| YamlRange.OnlyWellFormed | internal/kubeconfig/yaml.go:49-66 | Whatever the text, an accepted document has a mapping or sequence at its root, keys the parser could have split, and strings without newlines that either lack one kind of quote or can stand unquoted |
| YamlRange.ExactRange | internal/kubeconfig/yaml.go:49-224 | The trees that some text parses to are exactly those with a mapping or a non-empty block sequence at the root, splittable keys, writable strings, and sequences whose items can stand one below the other (no item a string that holds a colon and both kinds of quotes) or side by side on one line |
| YamlFlowSeq.StringsOnOneLine | internal/kubeconfig/yaml.go:251-308 | For writable strings, which can stand side by side is known exactly: each must lack one kind of quote or have no comma outside its own quotes, since a comment can close a quote left open |
| YamlFlowSeq.FlowSeqExactly | internal/kubeconfig/yaml.go:251-268 | A flow sequence reads as given items exactly when its parts, the blank ones left out, read as them one by one, on whatever line |
| YamlLayout.LayoutInvariance | internal/kubeconfig/yaml.go:24-168 | Any series of edits that insert blank or comment lines, pad line ends with blanks or carriage returns, or indent the whole document keeps the tree, or the kind of failure, of every text |
| YamlLayout.LinesShift | internal/kubeconfig/yaml.go:49-168 | Shifting all lines by the same number of columns and renumbering them keeps the tree or the kind of failure |
| YamlLayout.TabsAreNeverRejected | internal/kubeconfig/yaml.go:29-36 | The only error the lexer can return is the one for a second document: its tab check never fires |
| YamlStuck.NestedDashIsRejected | internal/kubeconfig/yaml.go:82-128 | A document that holds a line with a dash item opening a dash item with a colon is never accepted, wherever the line is |
| YamlStuck.RewriteLeavesItStuck | internal/kubeconfig/yaml.go:117-121 | The sequence that meets such a line appends an empty mapping and hands the rewritten line back to callers none of which can consume it |
| YamlFlow.SplitSpec | internal/kubeconfig/yaml.go:284-308 | A list of parts is the result of splitting a flow body exactly when joining them with commas gives the body, every part but the last is balanced in quotes, and no part has an unquoted comma |
| YamlFlow.SplitUndoesJoinCommas | internal/kubeconfig/yaml.go:284-308 | Joining such parts and splitting again gives the parts |
| YamlFlow.FlowMapRoundTrip | internal/kubeconfig/yaml.go:227-248 | A flat flow map of quoted values, with commas, colons and braces allowed inside the quotes, parses to the map of its fields |
| YamlFlow.DistinctFields | internal/kubeconfig/yaml.go:227-248 | In that map every field whose key is not repeated later is found with its value |
| YamlPanic.ScalarPanicsExactly | internal/kubeconfig/yaml.go:197-268 | Reading a scalar panics exactly when the text is blank, or is a well-bracketed flow collection whose first unreadable part holds, as its value or as a whole, a scalar that panics |
| YamlCut.PanicExactly | internal/kubeconfig/yaml.go:49-224 | The program panics on a document exactly when there is a first line whose own scalar panics and the document, cut after that line with a quoted colon in the scalar's place, is accepted |
| YamlSafe.SafeTextNeverPanics | internal/kubeconfig/yaml.go:49-224 | A document panics on no account if none of its lines ends in white space or has a colon with only white space between it and a comma or closing brace |
| YamlSafe.BlankItemPanics | internal/kubeconfig/yaml.go:104-108 | A document whose one sequence item is white space that the lexer leaves, so not ending in a blank or carriage return, makes the program panic |
| YamlSafe.BlankFieldPanics | internal/kubeconfig/yaml.go:237-241 | So does a document whose one field, under any key, is a flow map whose one field, under any key, has no value |
| YamlParser.SplitParts | internal/kubeconfig/yaml.go:284-308 | The loop with its builder computes the recursive splitting that SplitSpec characterises |
| YamlParser.ReadFlowMap | internal/kubeconfig/yaml.go:227-248 | The loop over the parts of a flow map computes what the scalar parser is stated to yield on it, skipping blank parts and stopping at the first fault |
| YamlParser.ReadFlowSeq | internal/kubeconfig/yaml.go:251-268 | The same for a flow sequence |
| YamlParser.Parser.ParseSequence | internal/kubeconfig/yaml.go:82-128 | The loop over the shared position, including the step that rewrites the current line while the position stands still, computes the sequence of the unconsumed lines, leaves the lines it did not consume, and terminates because the text left in those lines shrinks |
| YamlParser.Parser.ParseMapping | internal/kubeconfig/yaml.go:130-168 | The same for the mapping loop |
| YamlParser.ParseDocument | internal/kubeconfig/yaml.go:49-66 | The whole imperative parser, from text to tree or error with line number, computes the function that the round trip and the layout invariance are about |
| Hysteresis.HealthIsHistory | internal/backend/backend.go:63-96 | For thresholds of at least one, a backend is unhealthy after a probe history exactly when some run of fall failures has no later run of rise successes |
| Hysteresis.CounterIsTrailingRun | internal/backend/backend.go:71-95 | The live counter equals the length of the opposing run at the end of the history and stays below its threshold; the other counter is zero |
| Hysteresis.TurnsArePaidFor | internal/backend/backend.go:63-96 | Turns to unhealthy outnumber turns to healthy by one exactly while unhealthy, and fall times downs plus rise times ups, plus the live counter, never exceeds the number of probes |
| Backends.Backend.ReportHealth | internal/backend/backend.go:63-96 | The method takes its fields through the transition that the history lemmas are about and counts failures |
| Backends.Backend.DrainAll | internal/backend/backend.go:121-135 | Undisturbed, the loop closes and unregisters every connection of its snapshot, in any order, and counts them |
| Backends.TrackedConn.Close | internal/backend/backend.go:144-151 | However often a connection is closed it leaves the set once, and nothing else leaves it |
| Failover.FailoverBound | internal/health/checker.go:99-130 | If every probe that starts at or after a time fails, the backend is marked unhealthy within fall times the larger of interval and timeout, plus one timeout |
| Failover.BoundIsReached | internal/health/checker.go:99-130 | For every setting there is a schedule that is marked at that bound and not a moment before |
| Failover.ProbeGap | internal/health/checker.go:99-111 | Probes never overlap and start at most the larger of interval and timeout apart |
| Failover.DocumentedBoundExactly | docs/migration.md:327-329 | The documented bound of interval times fall plus one timeout holds exactly for settings whose timeout does not exceed the interval, give or take one clock unit |
| Balance.FairWithoutWrap | internal/backend/pool.go:126-141 | Over any number of consecutive tickets without a wrap, no backend heads more than one call more than another |
| Balance.FairAcrossWrap | internal/backend/pool.go:126-141 | Over any calls that cross one wrap of the 64-bit counter, no more than two |
| Balance.FairIffDivisor | internal/backend/pool.go:133-137 | The difference stays at most one however often the counter wraps exactly when the number of backends divides 2^64 |
| Balance.SkewedByWrap | internal/backend/pool.go:133-137 | For any other number, a stretch of calls across the wrap serves one backend twice before another is served |
| Balance.RoundRobin.Order | internal/backend/pool.go:133-141 | The loop builds the rotation that its ticket asks for and takes one ticket |
| Balance.Rotate | internal/backend/pool.go:133-141 | A rotation is a permutation with each element where its index says |
| Balance.StableSortSpec | internal/backend/pool.go:152-157 | Sorting by load permutes, orders, and keeps the rotation among equal loads |
| Balance.TiesShareTheHead | internal/backend/pool.go:152-158 | Over as many calls as there are backends, without a wrap and with fixed loads, the heads are exactly the backends with the fewest connections |
| Balance.ArrivalsKeepGap | internal/backend/pool.go:152-158 | Arrivals that each go to the head never widen the largest difference in load beyond the larger of what it was and one |
| Balance.ArrivalsLevel | internal/backend/pool.go:152-158 | After as many arrivals as the loads fall short of their maximum, no two differ by more than one |
| Pools.Pool.Candidates | internal/backend/pool.go:62-78 | Best-effort exactly when no backend is healthy, then every backend in list order and no ticket taken; otherwise every healthy backend of the pool once, in rotation from the one whose turn the ticket makes it, or, under least-conn, by connections and in rotation among equals |
| Pools.HeadOfPreference | internal/backend/pool.go:133-158 | The first candidate of the t-th call is the backend that the fairness and balance theorems count: in rotation the one whose turn it is, under least-conn the one that the stable sort puts first |
| Pools.PreferencePermutes | internal/backend/pool.go:133-158 | Whatever the strategy and the ticket, every healthy backend is a candidate exactly once |
| Pools.Pool.SetAddrs | internal/backend/pool.go:84-113 | The pool lists the given addresses in order, keeps the instances of known addresses with all their state, makes one fresh backend for each other position, and reports exactly the ones that are new or gone |
| Pools.BackendsAreConserved | internal/backend/pool.go:84-113 | For lists without repetition, old plus added equals new plus removed |
| Pools.SameAddrs | internal/discovery/discovery.go:235-249 | The loop answers whether the lengths agree and every address is known |
| Pools.ShortcutIsExact | internal/discovery/discovery.go:235-249 | For lists without repetition that is true exactly when reconciling would add and remove nothing |
| Pools.ShortcutIsSafe | internal/discovery/discovery.go:206-208 | For a discovered list, which repeats nothing, a true answer means that reconciling would change nothing, whatever the pool holds |
| Admission.ValidateServers | internal/config/validate.go:132-190 | No problem is reported exactly for the admitted lists: listen address usable, list non-empty, no repetition, every entry a host and port that resolves, neither loopback nor the balancer itself; otherwise the reported problem names the first offending entry and why |
| Admission.AdmitsExactly | internal/config/validate.go:132-217 | The admitted lists are exactly those for which the listen address is a host and a port from 1 to 65535 that stands for some addresses, the list is not empty and repeats nothing, and every entry is such a host and port, with no loopback address among those it stands for and none that is a listen address on the listen port |
| Admission.CheckEntry | internal/config/validate.go:168-186 | The loop over an entry's addresses reports nothing exactly when the entry is acceptable, and otherwise the fault that applies |
| Endpoints.Collect | internal/discovery/discovery.go:175-189 | The discovered list is strictly sorted and holds exactly the offered pairs of address and port |
| Endpoints.LessExactly | internal/discovery/discovery.go:189 | The order of the list is that of its characters: the first difference decides, and a string comes before what it begins |
| Endpoints.SortedIsDistinct | internal/discovery/discovery.go:188-189 | A strictly sorted list repeats nothing, so reconciliation's exactness applies to it |
| Discovery.Store.Save | internal/discovery/state.go:38-62 | The save succeeds exactly when all its calls do; the file is then the whole new list, otherwise untouched, and no temporary file is left unless its removal fails |
| Discovery.Poller.Apply | internal/discovery/discovery.go:196-231 | An empty or rejected list changes nothing; any other becomes the pool's set of addresses, and the list itself if that set is another one. The list is saved exactly if it was installed, persistence is on and all calls succeed; every removed backend is emptied, retained ones keep their state and connections, new ones are fresh |
| Restarts.PoolIsAlwaysSafe | internal/discovery/discovery.go:196-215 | In every run of polls, calls, crashes and restarts from any disk, a running pool is non-empty, repeats no address, and has been in place since an action that admitted this very list in its own environment: a poll that offered it, or a start that took it from the state file or the seed |
| Restarts.PollFollows | internal/discovery/discovery.go:196-222 | In every run a poll does to the pool what the list asks for, in terms of the list and the pool alone, and begins a save exactly if it has installed a list and persistence is on |
| Restarts.SaveTakesItsCalls | internal/discovery/state.go:38-62 | A save is its five calls in order and the removal of the temporary file: left alone, it ends with the whole list in the file if all succeed, with the file untouched if one fails, and with no temporary file |
| Restarts.CrashLeavesWholeFile | internal/discovery/state.go:38-62 | At any point of a save the state file is the one from before or the whole new list, so a crash leaves one of the two |
| Restarts.FileFollowsPool | internal/discovery/discovery.go:217-222 | Between polls, unless the save of that list failed, the state file holds the last list applied |
| Restarts.FileIsLastSaved | internal/discovery/state.go:38-62 | At every moment of every run the state file holds the last list whose save succeeded, in whatever process, or what it held at first |
| Restarts.FailureLeavesFile | internal/discovery/discovery.go:217-222 | When the save of the applied list has failed, the file is the one from before while the pool has the new list |
| Restarts.RestartResumes | cmd/local-apiserver-lb/main.go:73-98 | A restart then starts from that list if it is still admitted, else from the validated seed |
| Restarts.StartsFromFileOrSeed | cmd/local-apiserver-lb/main.go:73-98 | Every start takes the list in the state file if that is in use and the list is admitted, else the validated seed, and does not start if the seed is not admitted |
| Restarts.RestartAfterCrash | cmd/local-apiserver-lb/main.go:73-98 | After a crash in mid-save a restart starts from the list before, the new list, or the seed |
| Restarts.FailedSaveIsNotRetried | internal/discovery/discovery.go:206-208 | From any reachable moment between polls the state file, stale or not, stays as it is through every poll, crash and restart until another list is applied |
| Restarts.OnlyRenameChangesFile | internal/discovery/state.go:35-62 | In every run only a successful rename changes the state file, and to the whole list |
| Pipe.DeliveredIsPrefix | internal/proxy/proxy.go:158-183 | In every interleaving of the two copy loops, faults, a drain and a forced close, each side has received a prefix of what its peer sent |
| Pipe.EofComesLast | internal/proxy/proxy.go:176-183 | A loop that no error ended signals the end of the stream only after the sender's end and with every byte delivered (half-close of section 3.6.1 of RFC 9293) |
| Pipe.OtherWayStaysOpen | internal/proxy/proxy.go:158-172 | On two TCP connections, in a run without errors, drain or forced close, a direction that has ended has delivered and signalled everything, and leaves the other open and the backend tracked until both have ended |
| Pipe.QuietMeansComplete | internal/proxy/proxy.go:158-183 | In such a run, once both peers have ended and nothing can move, everything was delivered and signalled both ways, the backend connection is released and closed, and the client's is still open |
| Pipe.ClosedExactly | internal/proxy/proxy.go:158-183 | In every run the client's connection is closed exactly by a forced close or by a half-close that it does not support, the backend's by the handler or a drain, and the backend is released by those two |
| Pipe.EofExactly | internal/proxy/proxy.go:176-183 | A receiver sees the end of the stream exactly when a half-close has reached its open connection, or a close where that is all the connection can do |
| Pipe.DrainTruncates | internal/backend/backend.go:144-161 | A drain can end a stream early: the client sees a clean end without bytes that were sent to it |
| Server.ClientsAreCounted | internal/proxy/proxy.go:187-195 | In every interleaving the tracked clients belong to live handlers, and there are no more of them than the wait group counts |
| Server.ListenerEndsClosed | internal/proxy/proxy.go:48-87 | Once the flag is set the listener is closed or some step that closes it is still due, and after Shutdown and Serve have returned it is closed |
| Server.OnlyNilAfterFlag | internal/proxy/proxy.go:59-69 | From a state with the flag set, some continuation makes Serve return an error exactly if Serve has returned one already, or has read the flag unset after a failed accept and is about to: the decision is made where the flag is read, not where Serve returns |
| Server.ErrWithoutFlag | internal/proxy/proxy.go:59-69 | Without a shutdown Serve never returns nil and never closes the listener, and after a failed accept it returns the error |
| Server.ReturnedMeansFinished | internal/proxy/proxy.go:88-113 | When Shutdown has returned, every handler counted before the wait reached zero has finished, and at most one other is live |
| Server.GraceClosesClients | internal/proxy/proxy.go:103-112 | The end of the grace period closes every client that is tracked then, for good, and no handler has ended before its client's connection is closed |
| Server.SettledForever | internal/proxy/proxy.go:48-114 | A shutdown that returned with no accepted connection in hand stays settled in every continuation |
| Server.SettledExactly | internal/proxy/proxy.go:48-114 | When Shutdown has returned, no continuation has a live handler exactly if none is live now and Serve holds no accepted connection that it has yet to count |
| Server.HandlerOutlivesShutdown | internal/proxy/proxy.go:59-75 | A run in which a connection accepted in time but counted too late is handled after Shutdown has returned |
| BalancerConns.TotalIsAccountedFor | internal/backend/backend.go:98-108 | In every interleaving ConnsTotal is the number of registered connections, plus those that have left, plus the handlers between the two steps of Track, each counted once |
| BalancerConns.LeavesOnce | internal/backend/backend.go:144-151 | Whatever thread moves next, a connection that has left its set is never in it again, and one that is taken out is counted as gone |
| BalancerConns.DrainClosesSnapshot | internal/backend/backend.go:121-135 | In every interleaving, when a drain is over every connection of its snapshot is closed and out of the set |
| BalancerConns.DrainKeeps | internal/backend/backend.go:121-151 | One step of a drain, from any state that meets the invariants, keeps the accounting of all connections and the drain's own account of what it has closed |
| BalancerDrain.DrainSafety | internal/health/checker.go:130-143 | From the moment the drain after a turn to unhealthy returns, and while the backend stays unhealthy, every open connection was registered after the drain's snapshot, by a handler that had read the backend healthy before the turn or was in best-effort mode, having read no backend healthy at all |
| BalancerSweeps.NoTurnUndrained | internal/health/checker.go:130-143 | No turn goes undrained: in every reachable state, once the monitor of an unhealthy backend is past its drain, every connection open to the backend was registered after the turn, by such a handler |
| BalancerSweeps.NoRemovalUndrained | internal/discovery/discovery.go:226-230 | When the poller finishes, each backend it removed is out of the pool, whether or not a connection is left; and every connection open to it was registered after the removal by a handler that had copied the pool before |
| BalancerDrain.RemovalSafety | internal/discovery/discovery.go:215-230 | From the moment the drain of a removed backend returns, the instance is never in the pool again, and every connection still open to it was registered after that snapshot by a handler that had copied the pool before the removal |
| BalancerSpares.CutsOnlyUnhealthy | internal/health/checker.go:130-141 | The dual of drain safety: in every reachable state a monitor that drains, or is about to, watches a backend that is unhealthy at that moment |
| BalancerSpares.HealthyAreSpared | internal/backend/backend.go:98-151 | A connection of a healthy backend in the pool leaves the backend's set by the hand of its own handler only |
| BalancerHandlers.GivesUpAfterAll | internal/proxy/proxy.go:125-150 | A handler that drops its client has read every backend of its pool copy, and had a failed dial at each it read healthy, or in best-effort mode at each of the copy in its order |
| BalancerHandlers.ConnectsToFirst | internal/proxy/proxy.go:132-147 | A handler with an open connection had failed dials at exactly the candidates before the one it is connected to, its candidates being the backends it read healthy, or its whole copy in best-effort mode |
| BalancerHandlers.EndsClosed | internal/proxy/proxy.go:144-159 | A handler that has ended leaves its connection closed and in no backend's set |
| BalancerCopies.SeenIsPool | internal/backend/pool.go:62-64 | A handler's copy of the pool is the pool of the state in which it took it |
| BalancerHandlers.UnhealthyWhenRead | internal/backend/pool.go:62-78 | Whatever a handler has noted as unhealthy was so in the state in which it read it |
| BalancerHandlers.HealthyWhenRead | internal/backend/pool.go:62-78 | Whatever a handler has noted as healthy was so in the state in which it read it, at the time it noted |
| BalancerDrain.OwnJustified | internal/proxy/proxy.go:125-147 | Each step of a handler keeps it to backends of its pool copy, each read healthy by it unless none was |
| BalancerMonitors.OneMonitorEver | internal/health/checker.go:72-128 | Over any stretch of any run, whoever watches an instance at one time is the thread that watches it at any later time, and it makes at most one report after its cancellation |
| BalancerMonitors.NeverReturns | internal/backend/pool.go:84-113 | An instance that has left the pool is in no later pool |
| BalancerMonitors.KeysMatchSnapshot | internal/health/checker.go:72-94 | After each reconcile the registered monitors are exactly those of its pool copy, each a thread for its backend; the threads for other backends have been cancelled, the registered ones have not unless the checker is cancelled, and none has ended that was not cancelled |
| BalancerCopies.CopyIsPool | internal/health/checker.go:75-78 | That copy is the pool of the state in which the checker last took it |
| BalancerCopies.ReconcileFollowsPool | internal/health/checker.go:72-94 | So, unless discovery has changed the pool in between, a reconcile leaves monitors for exactly the backends of the pool, and cancels exactly the others |
| BalancerMonitors.StopsAll | internal/health/checker.go:56-63 | A checker that has stopped leaves no monitor registered and none that is not cancelled |
| BalancerMonitors.RegisteredKeepRunning | internal/health/checker.go:51-111 | In every reachable state a monitor is cancelled exactly if the checker is or its backend has no registered monitor, and only cancelled monitors have ended |
| BalancerMonitors.StartsFirstMonitor | internal/health/checker.go:87-93 | In every run a reconcile starts a monitor only for a backend of its pool copy that no thread has watched before, and registers it |
| BalancerCounters.DrainedIsBounded | internal/health/checker.go:137-138 | Drained plus the connections that no drain has found equals ConnsTotal plus those that drains of both kinds have found; so it stays within ConnsTotal while no monitor's drain has overlapped a removal drain, and otherwise exceeds it by no more than the connections found both in monitors' snapshots and in the poller's snapshots of the backend |
| BalancerOnce.RemovedOnlyOnce | internal/discovery/discovery.go:226-230 | As long as discovery repeats no address in a list, the poller drains an instance once, so its snapshots of the backend are that one removal snapshot |
| BalancerPool.SetAddrsInstalls | internal/backend/pool.go:84-113 | In the interleaved machine too, each position gets the known instance with all its state or a fresh one, and exactly the instances whose address is gone are handed to the removal drains |
| BalancerProbes.ProbesDecide | internal/health/checker.go:115-130 | In every interleaving, while no result waits to be reported, a backend is what the fall/rise machine makes of the results of its monitor's probes that came back before the cancellation: unhealthy exactly if a run of fall failures has no later run of rise successes |
| BalancerProbes.TurnsAreHandled | internal/health/checker.go:130-144 | A report sends its monitor on to drain and count exactly if it has changed the backend's health |
| BestEffort.ChangesAlternate | internal/health/checker.go:148-165 | In every interleaving the committed changes of the flag alternate, entering first, and the flag is the last one |
| BestEffort.FlagIsExact | internal/health/checker.go:115-165 | With turns handled one at a time on an unchanged non-empty pool, between turns the flag holds exactly when no backend is healthy |
| BalancerRaces.StaleConnection | internal/proxy/proxy.go:125-147 | A run that ends with an unhealthy, drained backend and an open connection to it |
| BalancerRaces.CountedTwice | internal/backend/backend.go:121-135 | A run in which one connection is counted by two overlapping drains: Drained is two, ConnsTotal one |
| BalancerRaces.StaleCommit | internal/health/checker.go:148-154 | A run on an unchanged pool after which no backend is healthy but the flag does not hold, because the monitor that counted first committed last |
| BalancerRaces.FlagOutlivesPool | internal/health/checker.go:148-154 | A run after which the flag holds although discovery has replaced the dead backend by a fresh one |

## Left out

- YamlRange.ExactRange: that items can stand side by side on one line means that they have texts which can; `YamlFlowSeq.StringsOnOneLine` says which strings have one, and nothing closer is said of collections inside a flow sequence.
- BalancerDrain.DrainSafety: says nothing about when a drained handler notices that its connection is closed, which depends on its peers.
- BalancerConns.TotalIsAccountedFor: counts in unbounded numbers; the program's 64-bit counters would wrap.
- Balance.StableSortSpec: the counts are fixed during the sort. When connections come and go while the library sorts, only that the order is a permutation is used (by the `Choose` step of `Balancer`).
- BestEffort.FlagIsExact: needs turns handled one at a time on an unchanged pool; `BalancerRaces.StaleCommit` and `BalancerRaces.FlagOutlivesPool` show that neither can be dropped.
- Server.ReturnedMeansFinished: a connection accepted but not yet counted when the wait reaches zero is outside the claim, as `Server.HandlerOutlivesShutdown` shows.
- Text is a sequence of Unicode code points rather than bytes; for valid UTF-8 the parser's byte tests, all on ASCII, agree.
- The running balancer, `Pipe`, `Server` and `Restarts` are state machines over values, one atomic step per critical section; the same operations on objects updated in place are the classes of `Backends`, `Pools`, `Balance`, `Discovery` and `YamlParser`.
- Library sorts are modelled by the order they promise (stable by load, increasing for strings), not by their algorithms.
- Name resolution, address parsing, address classes and number parsing are arbitrary functions of the environment (`Admission.Net`); the comparison with the balancer's own port is on strings, as in the code, and nothing is claimed about wildcard listen addresses.
- HTTP, TLS, certificates, base64 and JSON decoding: a probe is an arbitrary result and a fetched endpoints object or state file an arbitrary value.
- Durability across power loss: the state file is renamed without a flush, so only process crashes are modelled. The operating system is taken never to hand out the state file's own path as a temporary name.
- Delivery after a write has been accepted by the kernel, and the time Shutdown or a drained handler takes, which depend on the peers.
- The choice of a picker by name, context and credential selection, flags, logging, metrics text, keepalive settings, deployment files and the runbook: simple or input/output only.
