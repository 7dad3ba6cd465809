# Verified model of p2p_channel

p2p_channel keeps UDP routes to peers behind NATs. Its shared state is small and lock-light: a
two-way route index, an idle detector that sleeps on it, a scheduler that punches ports, and a set of
channel clones that share one NAT status and one socket list. This project models those four pieces
in Dafny 4.11, together with the STUN aggregation that feeds the scheduler, and proves what they
keep over every history, every interleaving or every run.

`dafny verify dfyconfig.toml` checks everything.

| file | what it holds |
|---|---|
| `Common.dfy` | addresses, route keys and their order, NAT status |
| `Bindings.dfy` | the route index reduced to bindings and ordered id lists; consistency and join order |
| `RouteTable.dfy` | the class with both tables; stamps against the history of events |
| `RouteMachine.dfy` | the same index as a step machine: a lock holder, unlocked readers, one table operation per step |
| `Stamps.dfy` | the stamps of that machine: which stores reach a live stamp, and which are lost |
| `Wakeup.dfy` | the idle thread's park, adds and close, on top of that machine |
| `Idle.dfy`, `IdleTiming.dfy` | the scan, the loop, draining; how long and how many rounds until a report |
| `IdleWalk.dfy`, `IdleSilence.dfy` | the scan as a walk over a table that changes under it; what a report says of racing receives and sends |
| `DrainRace.dfy` | which route the removal of a reported id erases beside other threads |
| `Ports.dfy`, `Punch.dfy` | cursors, windows, targets, predicted interval; the punch with failing sends |
| `Sockets.dfy`, `Channel.dfy` | what `change` does, how a key picks a socket; one clone's methods and the shared hub |
| `Clones.dfy` | any number of clones as a transition system, with `change` split in two steps |
| `Stun.dfy` | NAT type, addresses and port spread from STUN answers |

How the pieces hang together. `Bindings.Replay` is the sequential specification of the index. The
class is proved to follow it through `RouteTable.ShapeOfReplay`, the step machine through
`RouteMachine.FreeMeansSequential`, so join order and consistency hold of both. `Wakeup` moves its
tables only by steps of that machine, and `Stamps`, `IdleWalk`, `IdleSilence` and `DrainRace` speak of
its runs. `Clones` and the class `Channel.Clone` use the same functions `PoolAfter`
and `OwnAfter` for the effect of `change`.

Outside the model, and parameters of it: clock readings, the outcome of every send and receive
attempt, of every wake, poll, bind and duplicated handle, what other threads leave in shared fields
between two operations, and the result of every shuffle (any permutation). A datagram's fate and the
shared list at each moment are arbitrary functions, so every error pattern and every concurrent
status change is covered.

## Where the code does not do what one would expect

- `change` loads the status before it takes the list lock. With two flips in between, two clones end
  up to date on different sockets with nothing pending (`Clones.MirrorDrift`). A step keeps the mirror
  exactly when it is not a change that acts on an outdated status and moves the list while another
  clone is up to date (`Clones.MirrorStep`); with `change` as one step the mirror always holds
  (`Clones.MirrorAlways`).
- The comment on `close` (`src/channel/mod.rs:496`) says receiving will return an error. A datagram
  returned earlier in the same batch of events drops the change event, and then a clone can stay
  stale, or untold of the close, for good (`Clones.LostChange`). It happens exactly by such a loss or
  when a wake fails, since the loop over the wakers stops there with the status already stored
  (`Clones.ForgottenIff`, `Clones.LostWake`).
- A bind that fails leaves the sockets bound so far in the shared list, and no later change fills it
  up until a change to cone has emptied it (`Clones.ShortIff`, `Clones.ShortUntilCone`).
- A receive whose key is removed and added again between its lookup and its store is lost, and two
  receives that store in the other order move a stamp back (`Stamps.LostReceive`,
  `Stamps.StampGoesBack`).
- The list of ids in an idle report can be empty, which `examples/peer.rs:89` does not expect: the
  route left the table after the walk had found it (`IdleWalk.ReportWithoutIds`). It is empty exactly
  then (`IdleWalk.ReportedIds`).
- Draining removes by id alone. An id added again on another key after the report loses that fresh
  route (`DrainRace.DrainErasesFresh`); a route on another key is erased exactly when the id was last
  bound to it, after the report unless the lock holder was then at work on that id
  (`DrainRace.ErasesOtherIff`).
- A punch window leaves out its last port when it is full, and the port vector is never reshuffled,
  so at one window size those ports are never tried (`Ports.LeftOutForGood`).
- The predicted interval goes below zero for port 0 and range 0, and only then (`Ports.SpanFits`): a build
  that checks its arithmetic stops there, another picks no port (`Punch.Puncher.PunchNear`).
- The reply rule by index needs at most 100000 sockets, because index 100000 means the default socket
  (`Sockets.ReplyIff`), and every clone of every run meets that exactly when the configured size does
  (`Clones.RepliesIff`).
- The second STUN mapping of a server inserts the first one again (`src/stun/mod.rs:104`), so only
  two servers that disagree make a NAT symmetric (`Stun.SymmetricIff`); one server that maps its two
  requests differently does not (`Stun.LoneServerIsCone`).

## Model

| member | source | states |
|---|---|---|
| Common.Least | src/idle/mod.rs:53 | the key the ordered table yields first is below every other key, in the order of index, address family, address and port |
| Common.OrderInFields | src/idle/mod.rs:53 | that order field by field, IPv4 before IPv6 |
| Bindings.ApplyConsistent | src/channel/sender.rs:141-175 | every add and remove keeps the two tables inverse to each other, with no empty list and no repeated id |
| Bindings.RetainMembers | src/channel/mod.rs:100 | retaining drops that element and keeps every other, and keeps a list without repetitions so; used for id lists and for waker flags |
| Bindings.ReplayBinding | src/channel/sender.rs:151-155 | an id is bound to the key of its last add unless it was removed since |
| Bindings.JoinOrder | src/channel/sender.rs:151-160 | each key's list is exactly the ids the history binds to it, in the order they last joined: re-adding keeps the place, leaving and returning goes to the end |
| RouteTable.ShapeOfReplay | src/channel/sender.rs:141-243 | the class's tables with routes and stamps refine the index specification over every history, and are consistent |
| RouteTable.LiveIsListed | src/channel/sender.rs:231-243 | a key is in the time table exactly while some id is bound to it |
| RouteTable.StampHistory | src/channel/sender.rs:156-171 | a live key's read (write) stamp is the time of the last event that refreshed it: its creation in the present lifetime or a receive (send) since; ids joining or leaving do not count |
| RouteTable.StampCoversHistory | src/channel/mod.rs:214-223 | with a clock that does not go back, no receive (send) ever recorded on a live key is later than its stamp |
| RouteTable.RouteHistory | src/channel/sender.rs:190-200 | a route is the one last added for its id, with metric and rt of the latest update since |
| RouteTable.Table.AddRoute | src/channel/sender.rs:141-175 | the new tables are the replay of the history with this add, and the idle thread's token is set |
| RouteTable.Table.RemoveRoute | src/channel/sender.rs:218-229 | the new tables are the replay of the history with this removal |
| RouteTable.Table.RemoveIdRoute | src/channel/sender.rs:231-243 | the id leaves the key's list, and the key goes when its list becomes empty |
| RouteTable.Table.UpdateRoute | src/channel/sender.rs:190-200 | metric and rt of an existing route change and nothing else |
| RouteTable.Table.Touch | src/channel/mod.rs:214-223 | one stamp of a listed key changes; an unlisted key changes nothing |
| RouteTable.Table.RouteToId | src/channel/sender.rs:247-257 | nothing exactly when no id is bound to the key; otherwise the bound id that joined earliest |
| RouteMachine.FreeMeansSequential | src/channel/sender.rs:141-243 | in every interleaving, whenever the lock is free the tables equal the completed operations run one after another, hence are consistent and in join order |
| RouteMachine.DisagreeOnlyOnWorking | src/channel/sender.rs:150-173 | in every state the tables disagree at most about the id the lock holder works on; no list repeats an id; only the list being deleted is empty |
| RouteMachine.PeekIsSound | src/channel/sender.rs:247-257 | an unlocked lookup answers nothing exactly when its entry has left the table, otherwise the first id on the key's present list, bound to the key unless the holder works on it |
| RouteMachine.StepInv | src/channel/sender.rs:141-243 | each table operation of the holder and each step of a reader keeps how far the tables have moved from the last sequential state |
| RouteMachine.HolderNeverStuck | src/channel/sender.rs:141-243 | in every state with the lock held the holder's next operation can be performed; a reader waits only for the holder that removes its entry, and for no more than that operation |
| RouteMachine.RouteStep | src/channel/sender.rs:190-229 | what any step does to the route of any id: an add writes its route as it is, a removal erases it, an update changes metric and rt of an existing one, nothing else touches it |
| RouteMachine.LogStep | src/channel/sender.rs:150-174 | an operation counts as done when it releases the lock, with its id and key, and a finished add leaves one unpark to make |
| Stamps.StampStep | src/channel/mod.rs:214-223 | a store changes the stamp of the key it looked up, in its direction, exactly when its entry is still the one listed; no other step changes the stamps of a key that stays; a new key shows its creation time |
| Stamps.StampIsLastWritten | src/channel/mod.rs:214-223 | over every run a stamp is the time carried by the last step that created its entry or stored through it in that direction |
| Stamps.LostReceive | src/channel/mod.rs:214-223 | a run in which a receive on a listed key leaves its stamp at the earlier time of the add |
| Stamps.StampGoesBack | src/channel/mod.rs:214-223 | a run in which a second store moves a live stamp back |
| Wakeup.NoLostWakeup | src/idle/mod.rs:93-104 | a thread that cannot move is in the untimed park without a token; then the table is empty or an add is about to unpark, and the status is not Close or close is about to unpark; with neither under way the table is empty and the channel open |
| Wakeup.IdleSteps | src/idle/mod.rs:93-104 | each step of the idle thread: untimed park exactly when the scan finds the table empty, out of it only by a token, which it takes, and a stop exactly when it checks a closed status |
| Wakeup.StoppedMeansClosed | src/idle/mod.rs:102-104 | in every run a thread that has stopped did so on a closed channel |
| Wakeup.QuietBlockHasNoRoutes | src/channel/sender.rs:163-174 | and, with the lock free as well, there is no route at all |
| Idle.Detector.Scan | src/idle/mod.rs:49-92 | of the entries as the walk found them: the least idle key with the directions that are strictly overdue and its ids, or the minimum of all watched stamps when no key is idle |
| Idle.FoundInNumbers | src/idle/mod.rs:55-91 | a report is Read or Both exactly when the read threshold is positive and the read stamp is more than it old, Write or Both likewise, and no smaller key is overdue; a direction that is off is never reported |
| Idle.QuietInNumbers | src/idle/mod.rs:52-79 | a fruitless scan: no stamp with a positive threshold is more than it old, and the minimum is the smallest of them, or the largest 64-bit value when there is none |
| Idle.OverdueInNumbers | src/idle/mod.rs:54-65 | a direction is watched exactly when its threshold is positive, and overdue when its stamp is more than that old |
| IdleWalk.ReportedIds | src/idle/mod.rs:71-84 | whatever other threads do during the walk, the ids reported are none exactly when the entry has left the table by then; otherwise the first is on the key's list and bound to it, unless the lock holder works on it |
| IdleWalk.WalkAtOnce | src/idle/mod.rs:53-92 | every reachable state admits a walk made at that moment, whatever the lock holder is at, unless it has to read the very list whose mutex the holder has |
| IdleWalk.OverdueThroughoutIsReported | src/idle/mod.rs:53-92 | a key listed and overdue in a watched direction all through the walk is reported in that direction, unless a smaller key is |
| IdleSilence.ReportMeansEntrySilence | src/idle/mod.rs:55-68 | while receives (sends) race on the reported entry: if the times written to its stamp do not go back, every one stored through it before the load is more than the threshold old |
| IdleSilence.ReportMeansSilence | src/idle/mod.rs:53-92 | for the whole key: under that condition on all its writes, every receive (send) that reached the table before the walk found the key, through whatever entry was listed then, is more than the threshold old |
| IdleWalk.ReportWithoutIds | src/idle/mod.rs:68-75 | a run and a walk that report a key with no id |
| DrainRace.ErasesOtherIff | src/channel/sender.rs:218-229 | removing the first id of a report erases a route on another key if and only if the id was last bound there, and that is after the report unless the lock holder was then at work on that id |
| DrainRace.DrainErasesFresh | examples/peer.rs:80-91 | a run in which the removal of a reported id erases the route it was given meanwhile on another key, whose stamps are of the moment of the report |
| Idle.AnswerUnique | src/idle/mod.rs:52-92 | that answer is unique for a table and a clock reading |
| Idle.Detector.NextIdle | src/idle/mod.rs:47-106 | rounds end at the first report or the first closed status; each earlier round parked exactly if the table was empty, and otherwise slept from its minimum to the second clock reading, or not at all when that is not later |
| Idle.Detector.Drain | examples/peer.rs:80-91 | with the clock frozen, removing the head id of each report until none is left removes exactly the ids of idle keys, each once, and leaves all other routes, lists and stamps as they were |
| Idle.HeadIsBound | src/idle/mod.rs:71 | a listed key always has a head id, which is bound to that key |
| Idle.ReportMeansSilence | src/idle/mod.rs:55-91 | a Read (Write) or Both report means every receive (send) ever recorded on that key is more than the threshold old |
| Idle.OverdueIff | src/idle/mod.rs:55-68 | a key is overdue exactly when the last event that refreshed it is more than the threshold old |
| IdleTiming.SleepBound | src/idle/mod.rs:96-99 | after a scan that found nothing no watched stamp is older than the longest threshold, and the sleep is longer than it at most by the time between the two clock readings |
| IdleTiming.DetectionBound | src/idle/mod.rs:48-101 | a key silent since t in a watched direction, seen so by every scan but perhaps the first, which is not later than that threshold after t and may be the last one before the silence: every fruitless scan is at most that threshold after t, and the first later scan comes within the longest threshold plus three scheduling delays and reports it in that direction or a smaller key |
| IdleTiming.QuietRoundsAreFew | src/idle/mod.rs:96-99 | with no activity each round doubles the oldest age, so at most log2 of the longest threshold plus one rounds report nothing |
| IdleTiming.QuietIff | src/idle/mod.rs:96-99 | with one direction watched and exact sleeps, a round after i quiet ones is quiet if and only if 2^i times the first age is at most that threshold |
| Ports.WindowsPartition | src/punch/mod.rs:137-151 | for any mix of window sizes the windows end to end are one full pass over the ports per wrap and then the ports up to the cursor, which is in bounds |
| Ports.CycleLength | src/punch/mod.rs:137-143 | at one window size the first wrap is at the call whose window reaches the end, and the cursor is then 0 |
| Punch.CycleLengths | src/punch/mod.rs:108 | a cycle takes 82 cone or 6554 non-cone punches |
| Ports.TriedAt | src/punch/mod.rs:162-187 | the target of the port at offset j and the q-th ip is the one at j * m + q, if and only if j * m + q + 1 is below the bound |
| Ports.TriedIff | src/punch/mod.rs:170-176 | the port at offset j is tried on an ip, which may be listed more than once, if and only if their first place in the loop comes before the bound |
| Ports.CycleCoverage | src/punch/mod.rs:137-151 | over a whole cycle, each punch with its own ips, a port is tried on an ip exactly when the punch of its window lists the ip and its offset leaves room, and no target is tried twice unless a list names an ip twice |
| Ports.LeftOutForGood | src/punch/mod.rs:139-151 | a target for which no punch's ips leave room in its window is tried by no number of punches at that window size |
| Punch.CycleCounts | src/punch/mod.rs:144-150 | with one ip a punch, a cone cycle tries exactly 65454 distinct targets and a non-cone cycle 58982 |
| Punch.CallOnWire | src/punch/mod.rs:104-151 | a successful symmetric punch has put exactly its targets on the wire, in order, and the last of them are those of its window |
| Punch.RunOnWire | src/punch/mod.rs:137-151 | over any run of successful symmetric punches of one id, each with its own information, the window targets on the wire, end to end, are those the cursor gives |
| Punch.CycleOnWire | src/punch/mod.rs:144-150 | 82 cone (6554 non-cone) punches with one ip each put 65454 (58982) distinct window targets on the wire |
| Ports.SpanFits | src/punch/mod.rs:111-124 | the 16-bit arithmetic of the interval fits if and only if port and range are not both 0; when both are, nothing is picked |
| Ports.PredictionInterval | src/punch/mod.rs:109-135 | otherwise the candidates are exactly the ports within range of port and from 1 to 65535, and after any shuffle those picked are that many distinct candidates |
| Punch.SendAll | src/channel/sender.rs:86-106 | busy attempts are repeated, at most 11 attempts in all, and the result is that of the first attempt that is not busy |
| Punch.SucceedsIff | src/channel/sender.rs:86-106 | a datagram gets out exactly when one of its first eleven attempts is accepted after busy ones only |
| Punch.Wire.SendToAddrAll | src/channel/sender.rs:68-79 | one datagram from the default socket and one from each shared socket, in order; after an error exactly those up to the first that did not get out |
| Punch.World.DeliversSpelled | src/punch/mod.rs:170-186 | a pass over targets without error leaves its whole plan on the wire, and one with an error the plan up to the first datagram that did not get out |
| Punch.EverySocket | src/channel/sender.rs:68-79 | a successful punch that found no cone has sent to each of its targets from the default socket and from every socket shared at that moment |
| Punch.TargetsInNumbers | src/punch/mod.rs:108-151 | the targets of a symmetric punch: below a range of 240 (20) as many predicted ports as there are candidates but at most 60 (5), then the 800 (10) ports at the cursor, each with its own bound |
| Punch.Puncher.constructor | src/punch/mod.rs:37-53 | the port vector is each of 1 to 65535 once, and no id has a cursor |
| Punch.Puncher.Clone | src/punch/mod.rs:25-36 | a clone has the same ports in some order and no cursors |
| Punch.Puncher.PunchPorts | src/punch/mod.rs:162-187 | the datagrams sent are exactly those of the tried targets in order, up to the first error |
| Punch.Puncher.PunchNear | src/punch/mod.rs:108-136 | the predicted ports are tried only when the range is narrow, and then as many as the interval and the bound allow; a build that checks its arithmetic stops exactly at port 0 and range 0, with nothing sent |
| Punch.Puncher.NextWindow | src/punch/mod.rs:137-143 | a new id starts at 0; the slice is in bounds and the next cursor is 0 when it reaches the end |
| Punch.Puncher.Punch | src/punch/mod.rs:90-161 | what a punch sends in every branch and error pattern, to a cone peer its public port on each public ip up to the first datagram that does not get out; when it stops on its arithmetic; and that the cursor moves only when a symmetric punch succeeds |
| Punch.SendBudget | src/punch/mod.rs:94-150 | a symmetric punch that found a cone sends at most 1 + 59 + 799 datagrams, all from the default socket; otherwise at most 1 + 13 * (1 + N) |
| Sockets.ReplyIff | src/channel/mod.rs:407-421 | every key a clone reports leads back to its socket if and only if the list has at most 100000 sockets |
| Sockets.PickedInNumbers | src/channel/mod.rs:411-420 | index 100000 is the default socket, a position of the list its socket, any other index an error |
| Sockets.ChangeInNumbers | src/channel/mod.rs:317-354 | what each status makes of both lists, how many sockets are bound and handles duplicated before one fails, and exactly when that is an error |
| Channel.Hub.SetNatType | src/channel/mod.rs:449-474 | a flip wakes the registered clones once each, in order, up to the first wake that fails, which is its error; the present type does nothing, a closed channel refuses and stays closed |
| Channel.Hub.CloseAll | src/channel/mod.rs:497-505 | the status becomes Close, the idle thread's token is set and the registered clones are woken up to the first wake that fails |
| Channel.Hub.TakeFlag | src/channel/mod.rs:167-168 | a flag no clone is registered under, never given again |
| Channel.Hub.Register | src/channel/mod.rs:179-180 | registered last, all flags distinct |
| Channel.Clone.TryClone | src/channel/mod.rs:166-210 | with other threads in between, a clone under a fresh flag that has run change; when a system call of it fails there is no clone, but a registration made and sockets bound by then stay |
| Channel.Hub.Unregister | src/channel/mod.rs:96-102 | exactly this flag's entry goes |
| Channel.Clone.Change | src/channel/mod.rs:310-356 | the shared list is emptied, or filled when empty, and the clone's own list is cleared or mirrors it; a failed bind leaves the list short and the clone without sockets, a failed duplication leaves the clone a prefix; Close is an error and changes nothing |
| Channel.Clone.UdpRecv | src/channel/mod.rs:225-244 | a datagram yields its key and stamps it, an error is passed on, nothing ready yields nothing |
| Channel.AttemptInNumbers | src/channel/mod.rs:232-243 | nothing ready yields nothing, an error is the result, a datagram yields the key of its address and index, and only that is stamped |
| Channel.Clone.RecvEach | src/channel/mod.rs:253-270 | the default socket, then the list in order, up to the first that yields |
| Channel.OrderInNumbers | src/channel/mod.rs:253-270 | a pass tries the default socket first and then each socket of the list in its place |
| Channel.Clone.HandleEvent | src/channel/mod.rs:282-306 | an event with token 100001 is a change, 100000 a receive on the default socket, a position of the list a receive on its socket; any other changes nothing |
| Channel.Clone.HandleBatch | src/channel/mod.rs:282-306 | events are handled in order up to the first result, each under the status and list it then finds; sockets are looked up in the list as the changes so far have left it; a change event after that point is not handled |
| Channel.LastChangeDecides | src/channel/mod.rs:282-306 | the list a batch leaves is that of its last handled change that saw no close, and without one it stays as it was |
| Channel.ThroughInOrder | src/channel/mod.rs:282-306 | the events of a batch take effect one after another, in their order |
| Channel.Clone.RecvOnce | src/channel/mod.rs:253-306 | one round: every socket once, then the poll's error, its timeout or its events |
| Channel.RoundInNumbers | src/channel/mod.rs:253-281 | a round tries the default socket first; a failed poll and one without events end it with their own answers; without a result it has tried every socket and handled all events |
| Channel.Clone.RecvFrom | src/channel/mod.rs:247-308 | the key returned names the socket just read in the list as it stands, even after a change in the same batch, and is stamped once; no datagram is read and dropped; before the round that returns, every round tried each socket and handled all its events |
| Channel.ReceivedInNumbers | src/channel/mod.rs:225-244 | a key returned is that of the last datagram read, under 100000 or a position of its socket, stamped once with its time; every attempt before it found nothing |
| Channel.Clone.SendToRoute | src/channel/mod.rs:407-421 | the key is stamped; an index that is neither 100000 nor a position of the list is an error; with at most 100000 sockets the socket picked is the one that datagrams with that key are received on |
| Channel.Clone.SendToId | src/channel/mod.rs:400-405 | sends by the key of the id's route; an error when there is none, with nothing stamped, or when its index picks no socket |
| Clones.RegistryAlways | src/channel/mod.rs:449-474 | over every run flags are distinct, registered clones are listed, and a live stale clone has been woken since the last status store, is still to be woken by the registry's holder, or was left out by a wake that failed |
| Clones.CloseIsFinal | src/channel/mod.rs:466-468 | once the status is Close no step leaves it |
| Clones.DroppedForGood | src/channel/mod.rs:96-102 | in every run a dropped clone's flag is neither registered nor given again |
| Clones.ChangeSpelled | src/channel/mod.rs:310-356 | the two steps of a change on the clone that runs it: what it reads, and when it leaves the clone up to date, stale, told of an error or gone |
| Clones.MirrorStep | src/channel/mod.rs:317-328 | a step keeps every up-to-date clone equal to the shared list if and only if it is not a change acting on an outdated status beside one and moving the list |
| Clones.MirrorAlways | src/channel/mod.rs:310-356 | with change as one step, an up-to-date clone of any run equals the shared list index by index, of length size when symmetric unless a bind failed, and empty when a cone; so a sender answers by the shared list on the socket the clone received on |
| Clones.ListSizes | src/channel/mod.rs:324-349 | over every run, split changes included, the shared list and every clone's own have at most size sockets, and none or exactly size when no bind or duplication fails; with a size of at most 100000 each clone's reply rule holds |
| Clones.RepliesIff | src/channel/mod.rs:407-421 | the reply rule holds of every clone in every run if and only if size is at most 100000 |
| Clones.ListMovesIff | src/channel/mod.rs:317-340 | the shared list moves exactly by a change that read cone and empties it, or one that read symmetric, found it empty and bound a socket |
| Clones.ShortIff | src/channel/mod.rs:333-340 | over every run the shared list holds some but not all of its sockets if and only if a change found it empty and bound only a part, and none has acted on a cone status since |
| Clones.ShortUntilCone | src/channel/mod.rs:333-340 | a failed bind can leave any shorter list with a clone up to date on it, and it stays as it is until a change acts on a cone status |
| Clones.MirrorDrift | src/channel/mod.rs:317-349 | a run that leaves two up-to-date clones on different sockets with nothing pending |
| Clones.ForgottenIff | src/channel/mod.rs:303-305 | a step leaves a stale clone without a change to come if and only if it drops that clone's last change event, or is a wake that fails before that clone's turn |
| Clones.NoneForgottenWithoutLoss | src/channel/mod.rs:282-294 | a run that drops no event and in which no wake fails leaves no stale clone forgotten, and after close each live clone's caller has an error or will get it |
| Clones.LostChange | src/channel/mod.rs:303-305 | a run in which one flip, or the close, is never acted on |
| Clones.LostWake | src/channel/mod.rs:470-505 | a run without such a drop in which a failing wake has the same effect |
| Stun.TestServer | src/stun/mod.rs:91-121 | one server contributes its first mapping, if either of its mappings is IPv4, and nothing else |
| Stun.UnionInNumbers | src/stun/mod.rs:54-64 | the addresses collected are exactly the first mappings of such servers that answered |
| Stun.TestRound | src/stun/mod.rs:43-89 | symmetric exactly when more than one address was collected; the IPv4 addresses; the largest distance of two IPv4 ports, without underflow, in any iteration order |
| Stun.TestNat | src/stun/mod.rs:14-41 | symmetric if either round is, the addresses of both, the larger spread; a failed round adds nothing |
| Stun.SpreadFitsInterval | src/punch/mod.rs:109-126 | if the public port is one of a round's IPv4 ports and the range covers its spread, every non-zero IPv4 port of the round is a candidate |
| Stun.SymmetricIff | src/stun/mod.rs:99-106 | a round is symmetric exactly when two servers contributed different first mappings |
| Stun.LoneServerIsCone | src/stun/mod.rs:99-106 | however one server maps its two requests, alone it contributes its first mapping only, and the round is a cone |

## Left out

- Idle.Detector.NextIdle: runs on a script of rounds instead of waiting on a real clock and parker, so it says nothing about a loop that never meets the end of its script.
- RouteTable.StampHistory: speaks of the sequential class; what holds when receives race on one entry is in `Stamps`.
- Channel.Hub.TakeFlag: the counter is unbounded; its wrap at 64 bits is not modelled.
- Channel.Clone.RecvFrom: runs on a script of polls, so it says nothing about a call that never meets the end of its script.
- The 64-bit arithmetic of the idle loop: clock readings are bounded by the largest 64-bit value where it matters, but an overflow by an extreme negative threshold is not modelled.
- Both idle thresholds off: the loop then rescans without sleeping, and the timing results require a positive threshold.
- Memory ordering of the relaxed atomics, and a wall clock that jumps back.
- The internals of the concurrent map, the ordered map (a walk over it is taken to meet every entry listed all the while), the parker and the one-slot punch queues; the queues themselves, `next_cone` and `next_symmetric`.
- STUN messages, interface binding and the address conversions of `src/stun/socket`; the `stun_format` crate is not part of this model.
- How likely a punch is to succeed, and the sleeps between sends.
- Accessors and plain constructors, which would only add easy members.
