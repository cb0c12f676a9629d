# fatun: a Dafny model of its NAT, checksums, packet filter, deadlines and packet list

fatun is a transport proxy. A client captures a process's IPv4 segments and sends them to a server, the
server puts them on the wire from a local port it shares between many links, and replies go back to the
connection the link belongs to. This project models the parts of fatun whose code decides hard properties
and proves those properties.

* **NAT link table.** `RingQueue`, `PortWord`, `AddrSets`, `Ports` and `LinkManagers` are the source's own
  objects as classes: the ring queue, the packed port word, the sorted address set, the socket manager, the
  port adapter and the link manager. Each is proved against a value: `PortPool` (who holds which port) and
  `LinkTable` (the two maps and the queue). `LinkRuns` proves the safety of every run of
  Add/Uplink/Downlink/Cleanup; `Sharding` and `ShardedManagers` do the same for the manager that shards by
  the server's last address byte. `Interleaving` has any number of threads inside Add and Cleanup at once, on
  one shard or several, one step per locked section, with the unlocked parts of GetPort (opening a socket) and
  DelPort (closing one) as steps of their own. `InterleavedRuns` proves exactly which of their runs are safe,
  `OrderlyRuns` what callers can do to have a safe one, and `Races` what happens otherwise; `Alone` proves that
  the sequential runs are runs of the interleaved model. `LinkLife` says how long a link lives. `NatServers` is
  the server's two loop bodies on these objects, each call one step of a run, and `NatPath` and `Journey` carry
  the result to packets, down to the bytes.
* **Checksums.** `InternetSum` is the RFC 1071 sum with its two representations of zero. `SplitChecksum` and
  `Packets` are the checksum split between client and server, and `MssOption` is the MSS clamp with its
  incremental update. `Wire` says in numbers where every field stands that they write.
* **Packet filter.** `Bpf` is the program generator and a machine for the instructions it uses.
* **Deadline timer.** `Deadline` is `deadlineTimer`, as a step system of channels and timers in which every
  part of setDeadline can be separated by firings and callbacks, and as a class that follows it.
* **Packet list.** `PacketList` is the bounded drop-oldest list with reference counts; each of its calls is one
  step of a run of the specification. `PacketWaits` has any number of readers waiting on it.

`dafny verify dfyconfig.toml` checks the whole project.

Where the code does not do what one would expect of it, the model keeps the code's behaviour and says
exactly when the expected property holds:

* `Add` and `Cleanup` take several locks in turn and look at nothing again. `GetPort` chooses a reusable port
  under a read lock and commits it under a later write lock, `DelPort` closes a socket after it has unlocked
  the table, `Add` stores the uplink and the route in two sections, and the server looks an uplink up before
  it adds it. `InterleavedRuns.SafeExactly` assumes nothing of the callers: every state of a run is safe if
  and only if each commit met an open socket and a free triple, each new link an uplink that was not live,
  each route a reserved triple with no other Add's finished route, each release a link whose route is gone,
  and each close a port that was not reserved again. (A run ends once a queue lists a link twice, and its
  lookups leave room in the hit counter.)
* What callers can do for that is in `OrderlyRuns`. If no two calls for one uplink overlap, none is for a
  live uplink and no pass takes a link inside its own Add, only commits and closes are left to guard
  (`LawfulGuards`), and undivided calls of GetPort and DelPort guard those (`AtomicRunsSafe`, under the same
  three assumptions); `ChoiceHolds` says what one commit needs. `SparesExactly` gives, on the state before it,
  exactly which passes take a link inside its own Add; none does while the entries of such links are not past
  their time (`SparesFresh`). For such an expiry this is a sufficient condition only. Storing the route does
  harm from any state in which Cleanup is between its downlink section and the release of that link
  (`Races.LateRoute`), and from any state in order in which another connection's Add has finished the same
  uplink on the same port meanwhile, whose replies it redirects (`StaleRoute`); `ExpiryFromStart` and
  `StaleFromStart` are runs that get there.
* From any state with two idle threads, two overlapping Adds that choose the same reusable port for different
  absent uplinks of one remote end with two links on one triple and one connection's replies going to the
  other (`Races.OverlapMisroutes`), and two overlapping Adds of one absent uplink end with it queued twice, on
  one reusable port or, when there is none, on two fresh ones (`OverlapQueuesTwice`). `RaceFromStart`,
  `TwiceFromStart` and `FreedFromStart` (a reserved port without a socket) are runs from an empty server.
* Ports are shared as far as possible by undivided GetPort calls only (`PortPool.PortEconomy`). Between
  threads, each commit that adds a port while another could be shared may cost one port more than that, and
  nothing else does (`OrderlyRuns.EconomyAmongThreads`); `Races.TwoPortsFromStart` is a safe run that does.
* `Get` and `GetBy` give the lock back between an attempt that found nothing and the wait. A reader sleeps
  although its packet is in the list, with nothing under way to wake it, if and only if it went to sleep in
  such a moment (`PacketWaits.AwakeExactly`); `LostWakeup` is that run, from any state with a reader there,
  and `SleepsOn` says how long it lasts.
* A `Cleanup` pass compares a growing index with a shrinking size, so it can leave idle links that are past
  their time. `LinkTable.CleanupExact` gives exactly the links it removes, `CleanupMissesNone` exactly when it
  removes all that it should; when every link is due, it removes the first half (`CleanupHalf`).
  `LinkRuns.OneLeft` is a run from an empty manager whose last pass leaves one of two such links.
* A link is removed only by a pass that comes to its entry and finds it past its time, and exactly if it was not
  looked up since its Add or the last pass that did so (`LinkLife.RemovedExactly`).
* No code of the program closes a socket whose filter could not be set, not even `Close`: no table records it
  (`Ports.OneStray`; `Ports.Adapter.Close` says exactly which sockets stay open). What Go's runtime does with
  an unreachable listener is not modelled.
* The hit counter of a port word overflows into the port after 2^48 lookups without an idle check, and only
  then (`PortWord.BumpExact`, `LinkManagers.LinkManager.FindUplink`).
* The uplink key holds the client's address without the port of its connection (server.go:171-175), so the
  reply to a segment goes back to the connection it came on if and only if that connection made the link
  (`NatPath.ReplyToSender`); `TwoConnections` is a run where it does not. It always goes to a connection of the
  segment's own client address (`ReplyToOwnClient`).
* The skip over a filter block is cut to eight bits. `Bpf.FilterExact`: the filter is right for every packet
  if and only if neither cut does harm, which up to 84 distinct ports per list guarantee. Some longer lists
  still work, because the cut skip lands on a drop.
* An option whose length byte is zero keeps the option loop of `UpdateTcpMssOption` in place for ever, and
  nothing else does (`MssOption.HaltsExactly`, `StuckHeader`). `ClampExact` says for every other header what is
  found, changed and refused.
* Bytes beyond the IP total length travel to the server unsummed; the segment is then accepted only in the
  cases `SplitChecksum.PaddingExact` gives; one zero byte is never among them (`PaddingBreaks`).

## Model

| member | source | states |
|---|---|---|
| Net.LessTotal | ports/adapter.go:151-157 | the order of the address set decides any two different addresses, and no address is below itself |
| Net.LessTransitive | ports/adapter.go:151-157 | that order is transitive, which binary search rests on |
| RingQueue.Heap.constructor | links/links.go:89-93 | a new queue is empty |
| RingQueue.Heap.Grow | links/links.go:135-143 | growing a full and possibly wrapped buffer keeps the contents in order and makes room |
| RingQueue.Heap.Put | links/links.go:95-108 | Put appends to the queue as a sequence, growing when full |
| RingQueue.Heap.Pop | links/links.go:110-123 | Pop removes the oldest element, or returns the zero value of an empty queue |
| RingQueue.Heap.Peek | links/links.go:125-130 | Peek reads the oldest element and changes nothing |
| RingQueue.Heap.Size | links/links.go:132-134 | the size is the number of queued elements |
| PortWord.BumpExact | links/maps/maps.go:70 | one lookup keeps the port in the top 16 bits if and only if the 48-bit counter has room |
| PortWord.PortSurvives | links/maps/maps.go:57-70 | for fewer than 2^48 lookups the word keeps its port and counts exactly the lookups |
| PortWord.PortOverflows | links/maps/maps.go:57-70 | the 2^48th lookup without an idle check hands out another port |
| PortWord.Port.Idle | links/maps/maps.go:63-69 | idle exactly when no lookup was counted since the last check; the counter is cleared and the port kept |
| PortWord.Port.GetPort | links/maps/maps.go:70 | the new word and the returned port, right exactly while the counter has room |
| AddrSets.SortedUnique | ports/adapter.go:173-178 | a sequence sorted by the order is determined by its elements, so any sorting routine gives this result |
| AddrSets.AddStrict | ports/adapter.go:173-178 | appending an absent address and sorting keeps the list strictly sorted and adds that address alone |
| AddrSets.AddrSet.Find | ports/adapter.go:161-169 | binary search returns an index of the address, or -1 exactly when it is not in the set |
| AddrSets.AddrSet.Has | ports/adapter.go:170-172 | membership in the mathematical set |
| AddrSets.AddrSet.Add | ports/adapter.go:173-178 | adds to the set and keeps it sorted and duplicate-free |
| AddrSets.AddrSet.Del | ports/adapter.go:179-186 | removes from the set and keeps it sorted and duplicate-free |
| AddrSets.AddrSet.Len | ports/adapter.go:187 | the length is the number of distinct addresses |
| PortPool.TakeHas | ports/adapter.go:72-82 | reserving adds one (protocol, port, remote) triple and touches no other |
| PortPool.DropHas | ports/adapter.go:97-104 | releasing removes one triple and touches no other, and leaves no empty address set |
| PortPool.TakeDrop | ports/adapter.go:72-104 | releasing what was just reserved restores the table, including the absence of a key |
| PortPool.StepPorts | ports/adapter.go:41-82 | an undivided call adds a port only when the requesting remote already uses every port of the protocol |
| PortPool.PortEconomy | ports/adapter.go:41-104 | in every run of undivided calls the ports held for a protocol never exceed the most reservations any one remote ever had, whichever reusable port the map iteration meets |
| PortPool.PortEconomyExact | ports/adapter.go:41-82 | in a run of undivided GetPort calls without releases the ports held equal the current maximum over remotes |
| Ports.ListenKeeps | ports/manager.go:38-61 | a new socket keeps the socket tables right, whether it is recorded or left behind by a failed filter |
| Ports.OneStray | ports/manager.go:38-61 | a socket whose filter could not be set stays open with no entry that DelPort or Close could find it by |
| Ports.CloseKeeps | ports/manager.go:63-73 | closing a recorded socket keeps them right and closes it for the first time |
| Ports.Manager.GetTCPPort | ports/manager.go:38-61 | every outcome of listening: refused, filter failed with the socket left open, or recorded under a port not held before |
| Ports.Manager.DelTCPPort | ports/manager.go:63-73 | removes the entry and closes its socket once; a port without an entry changes nothing |
| Ports.Manager.GetUDPPort | ports/manager.go:75-98 | the same outcomes for UDP |
| Ports.Manager.DelUDPPort | ports/manager.go:100-110 | the same for UDP |
| Ports.Adapter.FindReusable | ports/adapter.go:41-52 | the pass over the map in any order finds a reusable port if and only if there is one |
| Ports.Adapter.GetPort | ports/adapter.go:35-88 | the result in every case, the reservation it makes, keys and open sockets in step, no empty address set |
| Ports.Adapter.DelPort | ports/adapter.go:91-117 | releases one reservation; the last one on a port removes the key and closes its socket |
| Ports.Adapter.Close | ports/adapter.go:121-141 | nothing stays reserved, and exactly the sockets whose filter failed stay open |
| LinkTable.SweepRemoves | links/maps/maps.go:83-99 | one pass pops each entry at most once, removes only links idle and past their time when popped, keeps every other link's port, and leaves the queue listing every live link once |
| LinkTable.CleanupInv | links/maps/maps.go:77-116 | a pass keeps both maps inverse to each other and the queue complete, and removes at most half of the links, rounded up |
| LinkTable.CleanupOwned | links/maps/maps.go:112-114 | the triples released are those of the removed links, each once, and no live link loses its own |
| LinkTable.InsertInv | links/maps/maps.go:126-140 | adding an absent uplink on a triple nobody owns keeps the maps inverse to each other and the queue complete |
| LinkTable.InsertOwned | links/maps/maps.go:126-140 | the new link owns exactly the reserved triple |
| LinkTable.TouchInv | links/maps/maps.go:146-154 | a lookup keeps all of it while the counter has room |
| LinkTable.SweepSorted | links/maps/maps.go:83-99 | with a monotone clock one pass keeps a queue sorted by stamp sorted |
| LinkTable.SweepExact | links/maps/maps.go:83-99 | entry k's link is removed if and only if it is idle, it and every entry before it are past their time when popped, and k plus the idle entries before it stay below the queue length |
| LinkTable.CleanupExact | links/maps/maps.go:77-116 | the same for a whole Cleanup |
| LinkTable.CleanupEntry | links/maps/maps.go:83-99 | entry k's link goes if and only if its turn comes, it is past its time and no lookup was counted; if it stays it keeps its port, is stamped again if its turn came, and its count starts anew if it was past its time |
| LinkTable.CleanupMissesNone | links/maps/maps.go:83-99 | a pass removes every idle link past its time if and only if it reaches the last of them |
| LinkTable.CleanupHalf | links/maps/maps.go:83-99 | when every link is idle and past its time, a pass removes exactly the first half of the queue, rounded up |
| LinkTable.CleanupStamped | links/maps/maps.go:77-116 | stamps stay sorted, and a pass that stops at a valid entry leaves nothing that was past its time at that reading |
| LinkRuns.StepInv | links/maps/maps.go:77-166 | every call keeps the maps in step and the reservations equal to the live links' triples |
| LinkRuns.RunInv | links/maps/maps.go:77-166 | that holds in every state of every run from an empty manager |
| LinkRuns.StepRoute | links/maps/maps.go:77-166 | a link live before and after a call keeps its local port, its connection and its client port |
| LinkRuns.RunStamped | links/maps/maps.go:83-128 | with a clock that never goes back, the queue is sorted by stamp in every state of every run |
| LinkRuns.RunStops | links/maps/maps.go:83-99 | in every such run a pass that stops at a valid entry leaves nothing past its time behind |
| LinkRuns.OneLeft | links/maps/maps.go:83-99 | a run from an empty manager whose last pass finds two idle links past their time and removes only the first |
| LinkLife.HitsCounted | links/maps/maps.go:57-70 | in every run a live link's counter holds exactly the lookups since its Add or since the last pass that found its entry past its time |
| LinkLife.RemovedExactly | links/maps/maps.go:83-99 | a pass removes a live link if and only if it comes to its entry, finds it past its time, and nobody looked the link up since its Add or since the last such pass |
| LinkLife.LookupSaves | links/maps/maps.go:92-98 | a link survives the first pass after a lookup, however late |
| LinkLife.AddMeans | links/maps/maps.go:118-143 | a new link is on the port answered, not looked up yet, last in the queue with its time, and routed to the Add's connection with the process's port; everything else is what the pass left |
| LinkLife.CleanMeans | links/maps/maps.go:77-116 | after a pass the routes and reservations are exactly those of the links left, and the routes are as they were |
| LinkLife.MadeBy | links/maps/maps.go:118-143 | every live link was made by an Add and has been live since |
| LinkLife.OutcomeStep | ports/adapter.go:35-82 | a port GetPort answers is one in use for another remote whenever there is one, never one this remote holds, and is a step of the pool whose economy PortEconomy states |
| LinkLife.OutcomeExact | ports/adapter.go:35-70 | exactly when GetPort fails, with which error, and that a port not shared is the allocator's |
| LinkLife.RunEconomy | ports/adapter.go:35-117 | in every run of the manager the ports held for a protocol never exceed the most reservations one remote ever had |
| LinkManagers.LinkManager.constructor | links/maps/maps.go:33-44 | a new manager has empty maps and an empty queue |
| LinkManagers.LinkManager.Visit | links/maps/maps.go:86-98 | one popped entry: removed, queued again, or the end of the pass |
| LinkManagers.LinkManager.SweepUplinks | links/maps/maps.go:82-100 | the uplink-locked loop does what the specification's pass does, entry by entry |
| LinkManagers.LinkManager.Cleanup | links/maps/maps.go:77-116 | the pass over the real maps, words and ring queue equals the specification's; no DelPort meets a missing entry |
| LinkManagers.LinkManager.Add | links/maps/maps.go:118-143 | Add equals cleaning up, taking the port GetPort answers and inserting the link; an error leaves the cleaned table |
| LinkManagers.LinkManager.FindUplink | links/maps/maps.go:146-154 | returns the link's port and adds one to its hits, unless the counter is full, when the port is wrong |
| LinkManagers.LinkManager.FindDownlink | links/maps/maps.go:157-166 | returns the connection and client port stored for the downlink |
| LinkManagers.LinkManager.Close | links/maps/maps.go:168-170 | closes every socket but those left behind by a failed filter |
| LinkManagers.ReleaseAll | links/maps/maps.go:112-114 | one DelPort per removed link, each finding its entry although others share the port |
| Sharding.ShardsDisjoint | links/maps/mutx.go:53-56 | no two shards share an uplink, a downlink or a reservation |
| Sharding.LookupIsFlat | links/maps/mutx.go:36-38 | asking the responsible shard for an uplink is asking the union of all shards |
| Sharding.ReplyIsFlat | links/maps/mutx.go:33-35 | the same for a downlink |
| Sharding.ShardAdd | links/maps/mutx.go:39-41 | adding through one shard keeps the shared reservations equal to the disjoint union of what the shards own |
| Sharding.ShardCleanup | links/maps/mutx.go:42-47 | cleaning one shard releases that shard's triples and nobody else's |
| Wire.ShardOfServer | links/maps/mutx.go:53-56 | the shard is the last byte of the server's address in network order, modulo the count, for IPv4 and IPv6 |
| ShardedManagers.MutxLinkManager.constructor | links/maps/mutx.go:21-31 | at least four empty shards over one adapter, for any mutx; the whole is valid when mutx is not zero |
| ShardedManagers.MutxLinkManager.Index | links/maps/mutx.go:53-56 | the index is below mutx and so inside the slice |
| ShardedManagers.MutxLinkManager.FindUplink | links/maps/mutx.go:36-38 | answers from the union of the shards and adds one to the link's hits in the responsible shard, the only one that changes; with a full counter the port is wrong |
| ShardedManagers.MutxLinkManager.FindDownlink | links/maps/mutx.go:33-35 | answers from the union of the shards |
| ShardedManagers.MutxLinkManager.Add | links/maps/mutx.go:39-41 | cleans and extends the responsible shard, and no other |
| ShardedManagers.MutxLinkManager.Cleanup | links/maps/mutx.go:42-47 | returns all shards' removed links in order and releases exactly those |
| Interleaving.StartKeeps | ports/adapter.go:41-52 | the pass over the table under the read lock, and a failed allocation, break nothing for the other threads, other calls for the same uplink included |
| Interleaving.BindKeeps | ports/adapter.go:54-70 | opening a fresh socket, however long after the pass found nothing, breaks nothing for the other threads |
| Interleaving.CommitKeeps | ports/adapter.go:72-82 | a commit on an open socket and a free triple gives the triple to this thread alone |
| Interleaving.ReleaseKeeps | ports/adapter.go:97-104 | the locked section of DelPort, for a link whose route is gone, frees a triple that nobody owns any more |
| Interleaving.CloseKeeps | ports/adapter.go:106-112 | closing the socket afterwards is sound when nobody has reserved the port again |
| Interleaving.InsertUpKeeps | links/maps/maps.go:126-129 | the uplink section, for an uplink that is not live, hands the reserved triple to the new link |
| Interleaving.InsertDownKeeps | links/maps/maps.go:131-140 | the downlink section is sound on a reserved triple whose live link, if any, is this Add's connection's own or still waits for the route of the Add that made it |
| Interleaving.HitKeeps | links/maps/maps.go:146-154 | a lookup at any moment, with room in the counter, breaks nothing |
| Interleaving.SweepKeeps | links/maps/maps.go:82-100 | the uplink section of any shard's Cleanup, whatever links it takes, hands their triples to this thread alone |
| Interleaving.DropDownsKeeps | links/maps/maps.go:105-110 | the downlink section removes no live link's route |
| InterleavedRuns.StepExact | links/maps/maps.go:77-143 | from a state in order, any step of any thread leads to a safe state if and only if it is guarded; nothing is assumed of the callers |
| InterleavedRuns.ListedExact | links/maps/maps.go:83-129 | from any state whose queues are right, a step spoils them if and only if it inserts an uplink that is already live |
| InterleavedRuns.WorldRunInv | links/maps/maps.go:77-143 | the invariant holds in every state of a run of any number of threads, on any number of shards, up to its first unguarded step |
| InterleavedRuns.SafeExactly | links/maps/maps.go:77-143 | every state of a run is safe if and only if every step of it was guarded; safe: queues list each live link once, entries of both maps reserved, live links routed, reserved ports on open sockets, no triple with two owners, each release finding its entry |
| InterleavedRuns.Quiescent | links/maps/mutx.go:12-56 | once no call is in flight every shard meets the sequential invariant, the reservations are the disjoint union of what the shards own, and the open sockets are the reserved keys |
| InterleavedRuns.RouteStep | links/maps/maps.go:77-143 | no guarded step changes a live link's port or maker, and once the Add that made it has stored its route, none changes the route or leaves another to store |
| InterleavedRuns.MakerLasts | links/maps/maps.go:118-143 | in a guarded run a link keeps its port and the connection whose Add made it for as long as it lives |
| InterleavedRuns.RouteLasts | links/maps/maps.go:118-166 | in a guarded run, from the step in which the Add that made a link stores its route, the link's replies go to that Add's connection, with the process's own port, for as long as it lives, late Adds of the same uplink and port included |
| OrderlyRuns.SparesExactly | links/maps/maps.go:82-100 | in an orderly state a pass takes no link inside its own Add if and only if no entry of such a link is idle and past its time when its turn comes and reached |
| OrderlyRuns.SparesFresh | links/maps/maps.go:82-100 | so it takes none while no entry of such a link is past its time at its reading |
| OrderlyRuns.OrderlyKeeps | links/maps/maps.go:77-143 | Adds in flight stay for different uplinks, and every route stays a live link's or one about to be removed, under the premise: no overlapping Adds of one uplink, none of a live one, no link taken inside its own Add |
| OrderlyRuns.LawfulGuards | links/maps/maps.go:77-143 | in a run that keeps that premise throughout, all steps are guarded when the commits and the closes are |
| OrderlyRuns.ChoiceHolds | ports/adapter.go:41-82 | a commit is guarded when no other call commits the same triple after the choice, the port is still held, and all steps before it were guarded |
| OrderlyRuns.AtomicRunsSafe | ports/adapter.go:35-117 | in a run that keeps that premise and in which GetPort and DelPort are undivided, every state is safe |
| OrderlyRuns.EconomyAmongThreads | ports/adapter.go:41-104 | in every run of any number of threads the ports held for a protocol exceed the most reservations any one remote ever had by at most the number of commits that added a port while one could be shared |
| Alone.StepAlone | links/maps/maps.go:77-154 | every call of the sequential model is what one thread does through the locked sections, sockets opened and closed included |
| Alone.RunAlone | links/maps/maps.go:77-154 | every run of the sequential model is a run of the interleaved one |
| Races.OverlapMisroutes | ports/adapter.go:41-82 | the eight steps of two overlapping Adds of different absent uplinks of one remote that choose the same port lead from any state with two idle threads to two links on one triple, and the first one's replies to the second one's connection; with the premise kept when no other call for either uplink is in flight |
| Races.RaceFromStart | ports/adapter.go:41-82 | those steps happen in a run from an empty server that keeps the premise |
| Races.FreedFromStart | ports/adapter.go:91-117 | a run in which DelPort frees a port between its choice and its commit ends with a reserved port and no socket, whether the socket is closed before or after the commit |
| Races.ExpiryFromStart | links/maps/maps.go:82-140 | a run in which a link expires inside its own Add ends with a downlink entry whose triple is not reserved; SparesExactly says which passes cause it |
| Races.LateRoute | links/maps/maps.go:105-140 | from any state in which Cleanup has been past the route of a link, any of those it still has to release, whose Add has yet to store it, storing it before or after the release leaves a route nobody owns |
| Races.StaleRoute | links/maps/maps.go:131-140 | from any state in order, an Add that stores its route when another connection's Add has made the same uplink's link on the same port and stored its own redirects that link's replies to its own connection |
| Races.StaleFromStart | links/maps/maps.go:82-140 | a run from an empty server that does so, with a link that expired inside its Add |
| Races.TwoPortsFromStart | ports/adapter.go:41-82 | a safe run from an empty server that keeps the premise, in which two calls that both find nothing to share end with two ports though each remote holds one reservation |
| Races.OverlapQueuesTwice | links/maps/maps.go:118-129 | from any state with two idle threads, two overlapping Adds of one uplink, on one reusable port or on two fresh ones, end with the link queued twice |
| Races.TwiceFromStart | server.go:176-183 | an empty server with two threads is such a state, whatever the uplink and the ports |
| NatServers.Server.constructor | server.go:60-92 | a server over a manager without links is at the start of its run |
| NatServers.Server.Find | server.go:176 | one lookup, one step of that run: one more hit and nothing else |
| NatServers.Server.Open | server.go:178-183 | one Add, one step of that run: a link whose replies go to this connection with the process's port, or an error and no link |
| NatServers.Server.FindOrAdd | server.go:176-183 | a known uplink keeps its port and only gains a hit, an unknown one gets a link whose replies go to this connection, and an error leaves no link; a known uplink whose counter is full gets a wrong port |
| NatServers.Server.Serve | server.go:149-190 | one segment: dropped for another protocol or without a port, else sent, byte for byte, as a packet from the port of the link with process = the connection's own remote address and the segment's source port, server = the peer and the segment's destination port; with a full counter, from a wrong port |
| NatServers.Server.Receive | server.go:229-258 | one datagram: delivered to the connection stored for the addresses and ports its bytes state, under its protocol and source address, with only the destination port changed, to the client's; or dropped |
| NatServers.StripTells | links/links.go:63-82 | the key and both errors of StripIP, by the bytes |
| NatPath.RunRoute | server.go:176-190 | a link keeps one route for as long as it lives, through any number of calls |
| NatPath.ReplyReachesOwner | server.go:171-259 | a reply to a forwarded segment reaches the connection that created the link, with the process's own port |
| NatPath.ReplyAmongThreads | server.go:171-259 | the same among any number of threads on several shards, in a guarded run and from the step in which the Add that made the link stores its route |
| NatPath.ReplyToSender | server.go:171-190 | the reply to a segment goes back to the connection it arrived on if and only if that connection's Add made the link |
| NatPath.TwoConnections | server.go:171-190 | a run with two connections from one client address in which the second one's reply goes to the first |
| NatPath.ReplyToOwnClient | server.go:171-259 | in every run whose calls name the addresses their connections come from, the reply to a segment goes to a connection of that segment's client address, with the port it came from |
| NatPath.AnswerReachesOwner | server.go:161-259 | the same for bytes: whatever the remote sends back to a packet that went through Client and Server strips to a key of the connection and port it came from |
| NatPath.DeliveredAnswersLink | server.go:229-238 | whatever is delivered answers exactly one live link, and that link's triple is reserved |
| Journey.AnswerNamesLink | server.go:184-236 | any answer to a packet the server sent names that packet's link by its own bytes |
| Journey.ThereAndBack | client.go:148-175 | the process gets an answer from the address and port it sent to, at the port it sent from, with the answer's payload and checksums that are right |
| Packets.Reply | client.go:161-169 | the client encodes the header in front of the segment and recomputes both checksums, byte for byte |
| InternetSum.ChecksumFold | checksum/checkusm.go:52 | the word-by-word end-around-carry sum is the arithmetic sum folded, with zero only for zero |
| InternetSum.CombineFold | checksum/checkusm.go:77 | end-around addition is folding the arithmetic sum |
| InternetSum.ChecksumSplit | checksum/checkusm.go:46-52 | a sum may be split at any even offset |
| InternetSum.SumAppend | checksum/checkusm.go:52 | what bytes add to a sum when they follow an even or an odd number of others |
| InternetSum.SumPutWord | client.go:229-241 | what storing a word at an even or an odd offset does to the sum |
| InternetSum.PseudoFold | checksum/checkusm.go:46-51 | the pseudo-header sum does not depend on the order its parts are added in |
| InternetSum.SealedVerifies | client.go:196-203 | storing the complement of the sum at an even offset makes the bytes verify |
| SplitChecksum.PatchedSum | checksum/checkusm.go:66-77 | adding the source to the client's sum gives, bit for bit, the sum over the rewritten segment |
| SplitChecksum.SplitIsExact | checksum/checkusm.go:27-107 | Server after Client leaves the very bytes of a full recomputation, for segments of even and odd length |
| SplitChecksum.PacketThrough | checksum/checkusm.go:27-107 | a whole packet: header verifies and states the true length, no fragment, a time to live of 64, addresses and port are the link's, segment checksum exact |
| Wire.ClientBytes | checksum/checkusm.go:43-53 | Client changes only bytes 16 and 17 of a TCP segment or 6 and 7 of a UDP one, to the complement of the sum of the segment, source port and checksum zero, and the pseudo-header with source 0.0.0.0 |
| Wire.SplitBytes | checksum/checkusm.go:27-80 | after Client and Server only bytes 0, 1 and those two differ: the new source port, and the complement of the sum of the segment and its true pseudo-header |
| Wire.InputExact | checksum/checkusm.go:27-45 | the packets Client and the recomputation accept, by their bytes |
| Wire.PacketBytes | checksum/checkusm.go:27-107 | the packet Server sends after Client, byte by byte: version and length, TOS, total length, identification, no fragment, time to live 64, protocol, addresses, both checksums, ports and payload |
| Wire.RecheckedBytes | client.go:184-210 | recomputing changes bytes 10, 11 and the segment's checksum alone, to the complements of the sums |
| Wire.ClampCommutes | client.go:212-258 | clamping before a segment goes through Client and Server, or in what comes out, gives the same bytes and the same error |
| SplitChecksum.PaddingExact | checksum/checkusm.go:46-77 | bytes beyond the IP total length are harmless if and only if they and their count sum to zero modulo 0xffff |
| SplitChecksum.PaddingBreaks | checksum/checkusm.go:46-77 | one zero byte beyond the IP total length makes every segment fail |
| SplitChecksum.RecheckedVerifies | client.go:184-210 | both checksums verify whatever the fields held before, and nothing else changes |
| SplitChecksum.ClientKeepsPorts | checksum/checkusm.go:43-53 | the client restores the source port it cleared and leaves the destination port |
| Packets.Rechecksum | client.go:184-210 | the in-place recomputation equals the specification's packet |
| Packets.Client | checksum/checkusm.go:27-56 | the buffer after Client, byte for byte, and the head moved past the header |
| Packets.Server | checksum/checkusm.go:65-107 | the buffer after Server, byte for byte, and the head moved to the new header |
| Packets.StripIP | links/links.go:63-82 | the downlink key read from a packet, the two error cases, and where the head ends up |
| Packets.MirrorAnswers | links/links.go:63-82 | every packet Server builds has an answer |
| Packets.AnswerFindsLink | links/links.go:63-82 | an answer to a packet that Server built strips to the key Server was given |
| MssOption.StuckHeader | client.go:216-254 | a header on which the option loop never ends |
| MssOption.HaltsExactly | client.go:216-254 | the option loop runs for ever exactly when the scan meets a length byte of zero |
| MssOption.ScanExact | client.go:216-254 | the loop finds an option, fails, ends or stays exactly where the chain of options from byte 20 leads |
| MssOption.ClampExact | client.go:212-258 | on any header: an option of kind 2 and length 4 that the chain reaches has the delta added, or is refused when the result is not positive; only it and bytes 16 and 17 change; a malformed chain is the other error; nothing else changes a byte |
| MssOption.OddRoom | client.go:213-236 | the header length is a multiple of four, so an odd-offset MSS option always has the byte its update reads |
| MssOption.ScanSame | client.go:216-254 | changing bytes the scan does not read leaves its answer alone |
| MssOption.UpdateKeepsValidity | client.go:212-258 | the update keeps valid checksums valid and invalid ones invalid, at even and odd offsets, for any pseudo-header and even when the value is cut to 16 bits |
| MssOption.UpdateReadsBack | client.go:212-258 | the same scan then finds the same option holding the new value, and only that value and the checksum changed |
| MssOption.OtherwiseUntouched | client.go:212-258 | in every other case, all errors included, the header is unchanged; which cases are errors |
| MssOption.UpdateKeepsExact | client.go:229-241 | a checksum as computed in full stays what a full computation would store |
| MssOption.ExactHeader | client.go:212-258 | a header with an exact checksum whose option is changed exists for every pseudo-header |
| MssOption.UndoExactly | client.go:212-258 | undoing a change restores every byte if and only if the checksum was not 0xffff and the option was not zero |
| MssOption.Edit | client.go:228-240 | the two ways to store the value and patch the checksum give the specification's header |
| MssOption.UpdateTcpMssOption | client.go:212-258 | the method's header and error equal the specification's, and it ends unless an option has length zero |
| Bpf.Steps | server_linux.go:136-180 | a run executes at most as many instructions as lie ahead of it |
| Bpf.Distinct | server_linux.go:150-151 | sorting and compacting gives the strictly ascending list of the same ports |
| Bpf.SkipPorts | server_linux.go:149-180 | the loop appends exactly the block for the distinct ports |
| Bpf.Generate | server_linux.go:136-147 | the program is the two blocks followed by a drop |
| Bpf.RunBlock | server_linux.go:149-180 | a block decides packets of its own protocol by destination port and jumps for all others |
| Bpf.SkipIsExact | server_linux.go:175 | the stored skip is the block length up to 84 ports and not beyond |
| Bpf.RunLanding | server_linux.go:175 | what a packet of another protocol meets when a cut skip lands inside the block |
| Bpf.Leak | server_linux.go:175 | unless a cut skip lands on a drop, some packet that is neither TCP nor UDP passes |
| Bpf.RunProgram | server_linux.go:136-147 | the verdict of the whole program for any packet, short ones included |
| Bpf.FilterExact | server_linux.go:136-180 | the filter decides every packet as intended if and only if neither list's skip is cut harmfully |
| Bpf.FilterCorrect | server_linux.go:136-180 | with at most 84 distinct ports per list it returns 0xffff exactly for TCP and UDP packets whose port is not listed, else 0 |
| Bpf.FilterMeans | server_linux.go:136-180 | the same in numbers: byte 9 is 6 or 17, and the 16-bit port two bytes behind the header is not in that protocol's list |
| Bpf.SameSetsSameProgram | server_linux.go:149-180 | the program depends on the sets of ports alone |
| Bpf.ProgramReturns | server_linux.go:136-180 | for any lists and any packet the program stays inside itself and returns within its own length |
| Deadline.StepKeeps | ustack/gonet/gonet.go:158-193 | every part of setDeadline, clock tick, firing and callback keeps the invariant |
| Deadline.NoDoubleClose | ustack/gonet/gonet.go:158-193 | in every interleaving no channel is closed twice, a pending timer targets its side's current open channel, and an older call's timer never does |
| Deadline.CancelledOnTime | ustack/gonet/gonet.go:138-220 | a reader that fetched its channel after the latest call is cancelled only once that call's deadline has passed, and until then a timer for it is set |
| Deadline.SidesIndependent | ustack/gonet/gonet.go:197-220 | nothing done for reading changes or closes anything of writing, nor the reverse |
| Deadline.SetEffect | ustack/gonet/gonet.go:158-193 | after a call the channel is closed exactly when the deadline has passed, and is new exactly when the old one was closed or its timer had fired |
| Deadline.ChannelsExact | ustack/gonet/gonet.go:158-193 | each step closes exactly the channel of a callback's timer or of a call for a time that has passed, opens none again, and makes only open ones |
| Deadline.CallbackCloses | ustack/gonet/gonet.go:189-192 | a callback closes the channel its timer captured, whichever its side has by then, and changes nothing else |
| Deadline.LateCallback | ustack/gonet/gonet.go:185-192 | in every interleaving that channel is closed from then on |
| Deadline.NobodyForgotten | ustack/gonet/gonet.go:158-193 | in every interleaving a channel is its side's current one, or closed, or held by a timer whose callback has started; the channel of every timer that is done is closed |
| Deadline.DeadlineTimer.constructor | ustack/gonet/gonet.go:133-136 | two open channels and no timer |
| Deadline.DeadlineTimer.ReadCancel | ustack/gonet/gonet.go:138-143 | returns the current read channel, closed only if the read deadline has passed |
| Deadline.DeadlineTimer.WriteCancel | ustack/gonet/gonet.go:144-149 | returns the current write channel, closed only if the write deadline has passed |
| Deadline.DeadlineTimer.SetOn | ustack/gonet/gonet.go:158-193 | the shared logic equals the three steps of the specification, and never closes a closed channel |
| Deadline.DeadlineTimer.SetReadDeadline | ustack/gonet/gonet.go:197-202 | sets the read side as specified and leaves the write side alone |
| Deadline.DeadlineTimer.SetWriteDeadline | ustack/gonet/gonet.go:206-211 | sets the write side as specified and leaves the read side alone |
| Deadline.DeadlineTimer.SetDeadline | ustack/gonet/gonet.go:214-220 | sets both sides, one after the other |
| Deadline.DeadlineTimer.RunCallback | ustack/gonet/gonet.go:189-192 | a callback, however late, finds its channel open and closes that one alone |
| PacketList.MatchIsKey | ustack/link/link.go:27-63 | a valid destination matches exactly the packets filed under its port and address, wherever match answers at all |
| PacketList.MatchMeans | ustack/link/link.go:27-63 | what match answers for each protocol, port, and form of address, and when it panics |
| PacketList.StepKeeps | ustack/link/list.go:184-279 | every put and take keeps, for each destination, what left followed by what is queued equal to what was put |
| PacketList.StepMeans | ustack/link/list.go:184-279 | a put stays at the end, drops nothing below the capacity and only the oldest at it; a take removes one packet, or none when nothing matches |
| PacketList.RunInv | ustack/link/list.go:184-279 | that holds in every state of every run |
| PacketList.ArrivalOrder | ustack/link/list.go:184-279 | packets of one destination leave in the order they were put, and none is overtaken by one still queued |
| PacketList.Conservation | ustack/link/list.go:184-204 | puts are what left together with what is queued, the capacity is never exceeded, and only the oldest is dropped |
| PacketList.SliceQueue.Remove | ustack/link/list.go:257-279 | removing an entry keeps all others in order and hands over exactly its reference |
| PacketList.SliceQueue.Take | ustack/link/list.go:257-266 | takes the head, or nothing from an empty list |
| PacketList.SliceQueue.TakeBy | ustack/link/list.go:268-279 | takes the first match and keeps all others in order, or reports that none matches |
| PacketList.SliceQueue.Fetch | ustack/link/list.go:206-255 | one locked attempt of Get or GetBy is one step of the run that ArrivalOrder and Conservation speak of, and the packet it returns is the one that leaves |
| PacketList.SliceQueue.Put | ustack/link/list.go:184-204 | appends, dropping the oldest entry of a full list, as one step of that run; one reference per entry and nobody else's references change |
| PacketList.List.constructor | ustack/link/list.go:38-45 | the capacity is at least four, and the run is at its start |
| PacketList.List.OutboundBy | ustack/link/list.go:82-105 | one attempt, one step of that run: the packet a search for the destination finds is taken and its one reference released, or nothing changes |
| PacketList.List.WritePackets | ustack/link/list.go:124-136 | of what was queued and what is written the newest stay, one put of that run after the other; a closed list takes nothing |
| PacketWaits.FoundExact | ustack/link/list.go:257-279 | an attempt finds a packet if and only if the list holds one for it, wherever match answers |
| PacketWaits.StepExact | ustack/link/list.go:184-255 | when no reader sleeps on its packet, a step brings that about if and only if it puts a reader to sleep that has one in the list and no broadcast to come |
| PacketWaits.AwakeExactly | ustack/link/list.go:184-255 | in a run of any number of readers and writers none ever sleeps on its packet if and only if no reader went to sleep in such a state |
| PacketWaits.SleepsOn | ustack/link/list.go:214-229 | such a reader sleeps on, whatever the others do, until the next Put or until its packets are gone |
| PacketWaits.LostWakeup | ustack/link/list.go:184-229 | from any state with a reader between its attempt and its wait and no broadcast to come, a packet put and announced there leaves it asleep on that packet |
| PacketWaits.LostFromStart | ustack/link/list.go:184-229 | that happens in a run from an empty list |
| PacketWaits.RunLogged | ustack/link/list.go:184-279 | however readers wait and steps interleave, what happens to the list is a run of the specification |
| PacketWaits.GivenInOrder | ustack/link/list.go:184-279 | two packets of one destination that readers were handed were put in that order |

## Left out

- Sockets, raw Ethernet, divert capture, ARP, routes, pcap, logging and the debug-only checks: I/O and foreign calls.
- The port allocator, the listen and filter calls and the clock are oracles: any answer within their contract. The allocator's contract excludes ports with an open socket of the protocol, port 0, and TCP port 443, on which GetPort panics.
- The errors `net.Listener.Close` and `ParseAddrPort` may return are not modelled; closing a socket always succeeds.
- Transport protocol numbers above 255: the peer header carries one byte (conn/peer.go), and the adapter's key keeps one byte.
- The class methods are single calls; their concurrency is modelled in `Interleaving` on values. A socket left open by a failed filter, a lookup that overflows the hit counter, and what happens after a link was queued twice are not in that model. In its unsafe states a release without an entry changes nothing, where the code dereferences nil.
- NatServers.Server.constructor: takes a manager without links over ports not in use, as NewServer makes it; one with links, which an option may supply, is not modelled.
- Eventual expiry of idle links: a pass re-stamps an unexpired head, so the code does not guarantee it. Nothing is claimed about a manager after Close.
- `mutxLinkManager.Close`. With a shard count of zero, which the constructor accepts, every call that picks a shard panics on the modulo; those calls are modelled for other counts only.
- `slices.Sort` and `slices.Compact` are taken as their result; that they also rearrange the caller's slice is not modelled.
- A filter program longer than the kernel accepts, or than the 16-bit length field holds.
- RFC 768's replacement of a zero UDP checksum by ones: neither Client, Server nor rechecksum does it.
- Packets.Server: is called with 20 bytes of room before the head, as its callers arrange; how `packet.Packet` grows without it is not part of this model. The IP identification counter is a parameter.
- PacketList.List.OutboundBy: is one attempt as a method, since a method cannot wait for others; `PacketWaits` models the wait on values, with attempts whose search panics left out. `List.SynClose` and `conn/udp` are not part of the model.
- gVisor's TCP stack, `conn.handshake`, TLS and AES-GCM, and the framing in `conn`: library behaviour, or easy round trips.
- `session.go`, `String` methods and error types would add only easy members.
