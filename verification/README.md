# Verified model of the FPA switch plugin

The plugin keeps software state in step with hardware tables it can only add to, delete
from by key, and enumerate. This project models six of its mechanisms and proves what
holds over whole runs of them, and exactly when.

| module | what it models |
|---|---|
| `Options` | optional values |
| `FlowTable` | a hardware flow table: a multiset of entries, removed by cookie |
| `Vidx` | the 14-bit extended VLAN identifier |
| `VlanTables` | VLAN flows and L2 interface groups: add, delete, fetch a VIDX |
| `Reconciler` | the ascending pass over the difference of two VIDX maps |
| `Ofproto`, `L2Runs`, `L2Settings` | `bundle_set` (L2 branch) and `set_vlan`, their runs, and their safety in terms of port settings |
| `L2Frames`, `L2Faults` | what the configuration does to frames; pending maps and tables when hardware calls fail |
| `Hmap`, `EventLog`, `MacLearning`, `LearningHistory` | hash map, double-buffered event log, MAC learning table and its reader, and what they hold told by the events |
| `Tap`, `TapHistory`, `Dot1q` | TAP control protocol and its maps told by the calls; 802.1Q tag insertion and stripping in place |
| `Hosts`, `HostHistory` | ARP index free list, host table, routes counter, and each operation on each of its exits |
| `Routing`, `RoutingRuns` | routing enable and disable with rollback, internal VLAN bitmap, and the L3 tables over runs |
| `Routes` | L3 unicast flow table by cookie |

Operations that update state are class methods. Each is proved equal to a function of the
old state (`View() == ...`), and the properties are proved about these functions. Hardware
calls whose source is not part of the repository are abstract tables; whether a call fails
is a parameter. What the library does with a duplicate group is open (`Duplicate`), and the
results hold for each possibility.

## Main results

- A VIDX deletion works by a key that is coarser than the VIDX: all untagged flows of a port
  share one cookie, and a group identifier does not contain POPTAG. What the ascending pass
  leaves behind is given in closed form for every difference (`Leaves`), and the pass reaches
  its target if and only if the difference is `Safe`. In terms of settings (`Compatible`): no
  untagged VLAN is also an enabled trunk VLAN, the untagged VLAN does not move downward, no
  enabled VLAN goes from popping to keeping its tag, and VLAN 0 is not a trunk VLAN beside a
  changing untagged one. Moving an access port from VLAN 20 to VLAN 10 leaves it without any untagged ingress
  flow. A second identical call repairs the loss, if and only if no untagged VLAN is also an
  enabled trunk VLAN: one group cannot both pop and keep a tag. Whether a whole run keeps
  hardware and pending maps right can be read off its operations alone
  (`RunKeepsInvIffHistoryOk`).
- In every state of a run of harmless operations a port treats frames as its last settings and
  the last state of every VLAN promise: an untagged frame gets the port's own VLAN, a tagged one
  keeps its trunk VLAN, and egress frames are popped, kept or dropped accordingly
  (`RunForwards`). A bit whose addition fails while its VLAN is enabled is lost: it is neither in
  the hardware nor pending (`FailedEnableLosesBit`).
- Fetching returns exactly what was added and not deleted since, in all states of a run of
  additions and deletions, if and only if no addition puts the other POPTAG value on a live
  group or repeats a live group that the library evicts for that (`FetchInvertsRunIff`).
- The TAP replication, the routes counter, the route table and the L3 flow tables hold in all
  states of a run if and only if every step meets a condition the caller can check. The ARP
  accounting, the buffer bound and the internal VLAN bitmap hold in every run without
  condition.
- The event log replays to the learning table in all states of a run if and only if no event
  the reader still needs is overwritten or thrown away (`RunKeepsInvIff`). A separating hash,
  NEW events for absent keys only, and a reader that reads between consecutive swaps are
  enough (`DisciplinedRunReplays`).
- The tables can be told from the operations alone: the TAP maps by the last creation of a
  descriptor (`MasterIsHistory`), the host table by counting additions and deletions
  (`EntriesAreHistory`), the learning table by the last learning event (`TableIsHistory`), the
  matched MAC addresses by the interfaces brought up (`RunMatches`), and the route flows, field
  by field, by the last write (`RunFlows`).
- A failed or undone routing transaction leaves the tables as they were if and only if the
  cookies it deletes were not in use and its rollback succeeds.
- Route cookies keep only the low byte of the prefix length, and the parser accepts negative
  lengths: deleting a route of length -224 removes the /32 route of the same address. With
  lengths above -224 no two routes collide.

## Model

| member | source | states |
|---|---|---|
| `Vidx.EncodingIsBijective` | include/ops-fpa-vlan.h:40-47 | (direction, flag, vid) and the 14-bit number determine each other |
| `Vidx.DecodingIsMasking` | include/ops-fpa-vlan.h:45-47 | the decoded parts are the masked bits |
| `FlowTable.WithoutAt` | src/ops-fpa-wrap.c:63-77 | cookie deletion removes every entry with the cookie and no other |
| `VlanTables.FetchIsHolds` | src/ops-fpa-vlan.c:26-56 | fetch returns exactly the entries in the hardware, never both POPTAG values of one VLAN |
| `VlanTables.DelHolds` | src/ops-fpa-vlan.c:83-103 | a deletion removes exactly the entries of that port with the same key |
| `VlanTables.AddFrame` | src/ops-fpa-vlan.c:58-81 | an addition touches no other key and no other port |
| `VlanTables.AddClean` | src/ops-fpa-vlan.c:58-81 | an addition that meets no group of its key adds exactly its entry |
| `VlanTables.HoldsDetermines` | src/ops-fpa-vlan.c:22-103 | well-formed tables without doubled flows are determined by the entries they hold |
| `VlanTables.ShowsLiveNextIff` | src/ops-fpa-vlan.c:58-103 | an operation keeps the fetched maps equal to the live entries if and only if it is clean |
| `VlanTables.FetchInvertsRunIff` | src/ops-fpa-vlan.c:22-103 | in all states of a run, fetch returns exactly the entries added and not deleted since, if and only if no addition meets its POPTAG twin (or, with an evicting library, its own group) |
| `VlanTables.RunTagsRight` | src/ops-fpa-vlan.c:73-78 | in all tables that additions and deletions lead to, an untagged flow sets its VLAN as the new tag and a tagged one leaves the tag |
| `VlanTables.AddErrMeans` | src/ops-fpa-vlan.c:58-81 | an addition without error leaves its entry in the tables, one with an error adds nothing |
| `VlanTables.Hardware.Add` | src/ops-fpa-vlan.c:58-81 | the new tables and the error result, with failures and duplicate groups |
| `VlanTables.Hardware.Delete` | src/ops-fpa-vlan.c:83-103 | the new tables |
| `VlanTables.Hardware.Fetch` | src/ops-fpa-vlan.c:26-56 | the loops over flows and groups compute the fetched map |
| `Reconciler.PassFrame` | src/ops-fpa-ofproto.c:809-824 | the pass keeps the tables well formed and leaves every other port alone |
| `Reconciler.PassSurvivors` | src/ops-fpa-ofproto.c:809-824 | at every position of the pass, an entry with no deletion of its key to come and no POPTAG clash is there exactly if it survives |
| `Reconciler.PassStage` | src/ops-fpa-ofproto.c:809-824 | where both POPTAG values are wanted: which of the two groups is there at every position, for every duplicate policy |
| `Reconciler.PassNoDoubles` | src/ops-fpa-ofproto.c:809-824 | the pass never adds a flow that is there |
| `Reconciler.PassResult` | src/ops-fpa-ofproto.c:799-824 | the map after the pass, in closed form, for every difference and every duplicate policy |
| `Reconciler.PassReachesTargetIff` | src/ops-fpa-ofproto.c:799-824 | the tables become the image of the new map if and only if the difference is safe |
| `Ofproto.Switch.BuildVnew` | src/ops-fpa-ofproto.c:785-798 | the loop over trunks builds the desired map |
| `Ofproto.Switch.ApplyDiff` | src/ops-fpa-ofproto.c:807-824 | the loop over the difference is the pass over its enabled part; the wanted rest is pending |
| `Ofproto.Switch.BundleSetL2` | src/ops-fpa-ofproto.c:784-824 | new tables and pending map, with any set of failing hardware calls |
| `Ofproto.Switch.EnablePort` | src/ops-fpa-ofproto.c:860-868 | pending bits of the VLAN move to the hardware; they leave the pending map even if their call fails |
| `Ofproto.Switch.DisablePort` | src/ops-fpa-ofproto.c:869-879 | hardware bits of the VLAN move to the pending map, even if their call fails |
| `Ofproto.Switch.SetVlanState` | src/ops-fpa-ofproto.c:846-886 | all ports and the enabled VLANs after the walk over the bundles |
| `L2Runs.BundleSetKeepsInvIff` | src/ops-fpa-ofproto.c:785-824 | hardware is the enabled part and pending the disabled part of the desired map again, if and only if safe |
| `L2Runs.SetVlanKeepsInvIff` | src/ops-fpa-ofproto.c:846-886 | the same for enabling or disabling a VLAN on all ports |
| `L2Runs.RunKeepsInvIff` | src/ops-fpa-ofproto.c:785-886 | a run keeps the reconciler invariant in all states if and only if all its steps are safe |
| `L2Runs.RunsAgree` | src/ops-fpa-ofproto.c:785-886 | safe runs with the same last settings and enabled VLANs end in the same tables and pending maps |
| `L2Runs.InvDetermines` | src/ops-fpa-ofproto.c:785-886 | the invariant fixes the pending maps and what the tables hold |
| `L2Runs.Commute` | src/ops-fpa-ofproto.c:785-886 | `bundle_set` and `set_vlan` commute when both orders are safe |
| `L2Runs.BundleSetIdempotent` | src/ops-fpa-ofproto.c:799-824 | repeating the last settings issues no hardware call and changes nothing |
| `L2Runs.TwoPassesConvergeIff` | src/ops-fpa-ofproto.c:799-824 | from any well-formed tables and after any failed additions, a second identical call brings the enabled VLANs to their desired bits, if and only if these never ask for both POPTAG values |
| `L2Runs.AnyFaultsRepairedIff` | src/ops-fpa-ofproto.c:799-824 | whatever hardware calls fail in one call, two more identical calls repair it, under the same condition |
| `L2Settings.DesiredMember` | src/ops-fpa-ofproto.c:785-798 | which bits the settings ask for |
| `L2Settings.OnePopIff` | src/ops-fpa-ofproto.c:788-798 | both POPTAG values are asked for exactly when an untagged VLAN is also an enabled trunk VLAN |
| `L2Settings.BundleSafeIffCompatible` | src/ops-fpa-ofproto.c:785-824 | safety of a change of settings, in terms of the settings |
| `L2Settings.FirstBundleSafeIff` | src/ops-fpa-ofproto.c:785-824 | safety of the first configuration of a port |
| `L2Settings.VlanSafeIff` | src/ops-fpa-ofproto.c:846-886 | when enabling and disabling a VLAN are safe, in terms of the settings |
| `L2Settings.StepSafeIff` | src/ops-fpa-ofproto.c:785-886 | a step is safe exactly when it is harmless given the last settings and the enabled VLANs |
| `L2Settings.RunKeepsInvIffHistoryOk` | src/ops-fpa-ofproto.c:785-886 | a run keeps the reconciler invariant in all states if and only if its sequence of operations is harmless |
| `L2Settings.DownwardMoveLosesIngress` | src/ops-fpa-ofproto.c:809-824 | every downward move of the untagged VLAN loses the new ingress flow |
| `L2Settings.PopToKeepLosesEgress` | src/ops-fpa-ofproto.c:809-824 | every change from popping to keeping the tag loses the egress group |
| `L2Settings.DownwardMoveExample` | src/ops-fpa-vlan.c:22 | a concrete run that ends without the desired flow |
| `L2Frames.ClassifiedIs` | src/ops-fpa-vlan.c:66-80 | which VLAN the flows of a port give to an untagged and to a tagged frame |
| `L2Frames.SentIs` | src/ops-fpa-route.c:58-64 | the group of a port and VLAN pops the tag exactly for the egress entry with POPTAG |
| `L2Frames.InvForwards` | src/ops-fpa-ofproto.c:785-824 | under the reconciler invariant every frame is treated as the settings promise |
| `L2Frames.ConfIsLast` | src/ops-fpa-ofproto.c:785-824 | the settings of a port are those of its last configuration |
| `L2Frames.EnabledIsLast` | src/ops-fpa-ofproto.c:882-883 | a VLAN is enabled exactly if it was enabled and not disabled since |
| `L2Frames.RunForwards` | src/ops-fpa-ofproto.c:785-886 | frame behaviour in every state of a run of harmless operations, told by the operations; unconfigured ports carry nothing |
| `L2Faults.BundleSetPending` | src/ops-fpa-ofproto.c:806-824 | the pending map after any failing calls and from any tables |
| `L2Faults.BundleSetOthers` | src/ops-fpa-ofproto.c:809-824 | the hardware of other ports stays, whatever fails |
| `L2Faults.SetVlanPending` | src/ops-fpa-ofproto.c:846-886 | pending maps and enabled VLANs after any failing calls, from any well-formed tables; each port's hardware changes as if alone |
| `L2Faults.FailedEnableLosesBit` | src/ops-fpa-ofproto.c:860-868 | a bit whose addition fails is neither in the hardware nor pending afterwards |
| `L2Faults.FailedDisableKeepsBit` | src/ops-fpa-ofproto.c:872-878 | a bit whose deletion fails is pending, and still in the hardware if and only if no working deletion shares its key |
| `Hmap.IndexAgreesWithScan` | src/ops-fpa-mac-learning.c:268-305 | hash lookup and full scan return the same node, or both none |
| `Hmap.ScanIs` | src/ops-fpa-mac-learning.c:289-305 | a scan finds a node with the key exactly if there is one |
| `EventLog.ActionKeepsRoom` | src/ops-fpa-mac-learning.c:559-619 | with a plugin interface an action never gives up, and leaves room |
| `EventLog.NoPluginGetsStuck` | src/ops-fpa-mac-learning.c:600-648 | without one, a full buffer loses every event with a new hash |
| `EventLog.SwapBound` | src/ops-fpa-mac-learning.c:559-649 | n actions swap at most (actual_size + n) / size times |
| `EventLog.ShortBurstSwapsOnce` | src/ops-fpa-mac-learning.c:559-649 | fewer actions than size plus free slots swap at most once |
| `EventLog.ReplayIdempotent` | src/ops-fpa-mac-learning.c:663-686 | reading a batch twice is reading it once |
| `EventLog.RecordReplayIff` | src/ops-fpa-mac-learning.c:575-613 | recording adds exactly its effect to the replay if and only if it overwrites nothing needed |
| `EventLog.LostBatchIff` | src/ops-fpa-mac-learning.c:635-649 | a thrown-away batch does not matter if and only if it was superseded |
| `MacLearning.StepKeepsInvIff` | src/ops-fpa-mac-learning.c:222-397 | replay equals table after a step if and only if the step is OK |
| `MacLearning.RunKeepsInvIff` | src/ops-fpa-mac-learning.c:222-686 | batches plus current buffer replay to the table in all states of a run if and only if all steps are OK |
| `MacLearning.DisciplinedRunReplays` | include/ops-fpa-mac-learning.h:39-42 | with a hash injective on the keys in play, NEW events for absent keys and a read between consecutive swaps, replay equals the table in all states of the run |
| `MacLearning.UnreadSince` | src/ops-fpa-mac-learning.c:635-686 | an unread idle buffer comes from a swap after which nobody has read |
| `MacLearning.RunHasRoom` | src/ops-fpa-mac-learning.c:575-612 | in every run with a plugin interface the current buffer has a free slot in all states |
| `MacLearning.RunNeverGivesUp` | src/ops-fpa-mac-learning.c:600-612 | so the error branch is never reached |
| `MacLearning.CollisionExample` | src/ops-fpa-mac-learning.c:578-599 | two addresses with one hash: the first event is lost |
| `MacLearning.FlushSwapsOnce` | src/ops-fpa-mac-learning.c:333-345 | a flush is a run of actions, and a short one swaps at most once |
| `LearningHistory.LearnLaw` | src/ops-fpa-mac-learning.c:222-254 | a known port and a free place: one node more and a NEW event with address and port; otherwise nothing |
| `LearningHistory.AgeLaw` | src/ops-fpa-mac-learning.c:308-331 | ageing removes exactly the node and logs a deletion with its address and port |
| `LearningHistory.TimerLaw` | src/ops-fpa-mac-learning.c:635-661 | the timer hands a non-empty buffer to the reader and clears the next |
| `LearningHistory.ReaderCatchesUp` | src/ops-fpa-mac-learning.c:651-686 | a timer and a read leave the reader with the learning table |
| `LearningHistory.RunBounded` | src/ops-fpa-mac-learning.c:231-239 | the table never has more entries than it may |
| `LearningHistory.RunLearnsKnown` | src/ops-fpa-mac-learning.c:358-363 | each entry was learned on that port when the port existed |
| `LearningHistory.TableIsHistory` | src/ops-fpa-mac-learning.c:222-397 | in a disciplined run, table and replay hold an address exactly if it was learned and not aged since |
| `MacLearning.MacTable.ActionAdd` | src/ops-fpa-mac-learning.c:559-619 | the log after recording and, if full, swapping |
| `MacLearning.MacTable.ProcessMlearn` | src/ops-fpa-mac-learning.c:635-649 | the log after the swap |
| `MacLearning.MacTable.LearnEntry` | src/ops-fpa-mac-learning.c:222-254 | table, log and error result |
| `MacLearning.MacTable.ExpireNode` | src/ops-fpa-mac-learning.c:308-331 | table and log |
| `MacLearning.MacTable.AgeByEntry` | src/ops-fpa-mac-learning.c:382-397 | expires a node with the key if there is one, otherwise nothing |
| `MacLearning.MacTable.LookupByVlanAndMac` | src/ops-fpa-mac-learning.c:289-305 | the node the hash index finds; none exactly if the key is absent |
| `MacLearning.MacTable.Flush` | src/ops-fpa-mac-learning.c:333-345 | every node is expired once and the table is empty |
| `MacLearning.MacTable.HmapGet` | src/ops-fpa-mac-learning.c:663-686 | the idle buffer, if not empty |
| `Tap.StepKeepsInvIff` | src/ops-fpa-tap.c:386-453 | replicas with pending commands equal the master map and its inverse after a step, if and only if a created interface is fresh |
| `Tap.RunKeepsInvIff` | src/ops-fpa-tap.c:386-850 | the same in all states of every interleaving |
| `Tap.DrainedMapsAreInverse` | src/ops-fpa-tap.c:598-850 | with empty pipes the two listeners' maps are inverse to each other |
| `Tap.FailureFreezesMaster` | src/ops-fpa-tap.c:359-384 | after an error exit, which keeps the mutex, no interface is created or deleted again |
| `Tap.SharedPortExample` | src/ops-fpa-tap.c:829-843 | with two interfaces on one port the wrong one is removed |
| `TapHistory.CreateLaw` | src/ops-fpa-tap.c:386-411 | creation maps its descriptor, changes no other, and sends one command to each listener |
| `TapHistory.DeleteLaw` | src/ops-fpa-tap.c:436-453 | deletion unmaps its descriptor, changes no other, and sends one command with its port to each listener |
| `TapHistory.FailureLaw` | src/ops-fpa-tap.c:359-384 | a failing call keeps the mutex and does nothing else |
| `TapHistory.ListenerLaw` | src/ops-fpa-tap.c:598-850 | a listener takes the oldest command and touches nothing of the others |
| `TapHistory.LockedIff` | src/ops-fpa-tap.c:344-469 | the mutex is held exactly if some call failed |
| `TapHistory.MasterIsHistory` | src/ops-fpa-tap.c:386-453 | with fresh interfaces, a descriptor has exactly the port of its last creation unless deleted since |
| `TapHistory.DrainedListenersAreHistory` | src/ops-fpa-tap.c:598-850 | so in both listeners once their pipes are drained |
| `Tap.TapInfo.IfCreate` | src/ops-fpa-tap.c:344-416 | the new state, with the error exits |
| `Tap.TapInfo.IfDelete` | src/ops-fpa-tap.c:418-469 | the new state; fails exactly for an unknown descriptor |
| `Tap.TapInfo.Find` | src/ops-fpa-tap.c:471-487 | the first node with the key |
| `Tap.TapInfo.TapCommands` | src/ops-fpa-tap.c:598-644 | the pipe is drained into the replica, keeping the invariant |
| `Tap.TapInfo.AsicCommands` | src/ops-fpa-tap.c:810-850 | the pipe is drained into the replica keyed by port |
| `Dot1q.StripInvertsInsert` | src/ops-fpa-tap.c:862-873 | stripping after inserting restores every frame, and the tag is read back |
| `Dot1q.InsertInvertsStrip` | src/ops-fpa-tap.c:706-729 | inserting the full 16-bit tag control information after stripping restores every tagged frame |
| `Dot1q.TaggedBytes` | src/ops-fpa-tap.c:864-872 | the tagged frame byte by byte, with 0x8100 and the tag in network order |
| `Dot1q.Move` | src/ops-fpa-tap.c:725 | overlapping copy: the bytes arrive, all others stay |
| `Dot1q.InsertTag` | src/ops-fpa-tap.c:864-871 | the frame in the buffer becomes the tagged one, offset and size move by four, all other bytes stay |
| `Dot1q.StripTag` | src/ops-fpa-tap.c:723-728 | the frame in the buffer becomes the untagged one, all other bytes stay |
| `Dot1q.InsertThenStrip` | src/ops-fpa-tap.c:862-873 | inserting and then stripping restores frame, offset, size and every byte outside the four of headroom |
| `Dot1q.StripThenInsert` | src/ops-fpa-tap.c:706-729 | stripping a tagged frame and inserting its tag control information restores the whole buffer, offset and size |
| `Dot1q.FromAsic` | src/ops-fpa-tap.c:862-873 | a tag is inserted exactly for untagged frames of normal VLANs |
| `Hosts.StepKeepsArp` | src/ops-fpa-ofproto.c:1022-1104 | every operation, with any failures, keeps each index in exactly one of free list, hosts, abandoned set |
| `Hosts.RunKeepsArp` | src/ops-fpa-ofproto.c:87-90 | so in every run; the list is acyclic and ends in 0 |
| `Hosts.RefusedIffExhausted` | src/ops-fpa-ofproto.c:1022-1030 | an allocation is refused exactly when the free list is empty |
| `Hosts.Conservation` | src/ops-fpa-ofproto.c:1034-1046 | free, used and abandoned indices add up to 1024 |
| `Hosts.AbandonedForGood` | src/ops-fpa-ofproto.c:1034-1046 | an index taken by a failed addition is neither free nor used in any later state; the pool has shrunk by it |
| `Hosts.StepKeepsCountIff` | src/ops-fpa-ofproto.c:1051-1112 | the counters stay right if and only if a host is deleted through its bundle and a removed bundle owns none |
| `Hosts.RunKeepsCountIff` | src/ops-fpa-ofproto.c:725-734 | so over runs; no counter underflows and no interface with hosts is torn down |
| `HostHistory.AddLaw` | src/ops-fpa-ofproto.c:1022-1054 | an addition in which nothing fails inserts the host with the first free index and counts one route more |
| `HostHistory.FailedAddLaw` | src/ops-fpa-ofproto.c:1022-1046 | any other addition keeps hosts and counters, and abandons an index exactly if a group or route failed after it was taken |
| `HostHistory.DeleteLaw` | src/ops-fpa-ofproto.c:1090-1112 | a deletion removes the latest entry for the address, frees its index, and counts one route less, with the interface at the last |
| `HostHistory.FailedDeleteLaw` | src/ops-fpa-ofproto.c:1063-1094 | any other deletion changes nothing |
| `HostHistory.UnderflowLaw` | src/ops-fpa-ofproto.c:1107 | through a bundle without routes the counter wraps around |
| `HostHistory.IntfLaw` | src/ops-fpa-ofproto.c:725-772 | which bundles have an L3 interface after each operation |
| `HostHistory.EntriesAreHistory` | src/ops-fpa-ofproto.c:896-1115 | an address has as many entries as successful additions less successful deletions |
| `Hosts.HostTable.constructor` | src/ops-fpa-ofproto.c:86-93 | the initial links |
| `Hosts.HostTable.FindHost` | src/ops-fpa-ofproto.c:923-938 | the first entry for the address |
| `Hosts.HostTable.Add` | src/ops-fpa-ofproto.c:940-1055 | the new state on every path |
| `Hosts.HostTable.Delete` | src/ops-fpa-ofproto.c:1057-1115 | the new state on every path |
| `Hosts.HostTable.ConfigureBundle` | src/ops-fpa-ofproto.c:725-772 | when the L3 interface is torn down and created |
| `Routing.FailedEnableIff` | src/ops-fpa-routing.c:284-335 | a failed enable clears the cookies it undid; tables unchanged if and only if these were unused and no rollback deletion failed |
| `Routing.SuccessfulEnable` | src/ops-fpa-routing.c:47-325 | a successful enable adds exactly four flows, given field by field |
| `Routing.FailedEnableAt` | src/ops-fpa-routing.c:326-334 | the tables after a failed enable, entry by entry, for every pattern of failing rollback deletions |
| `Routing.DisableAt` | src/ops-fpa-routing.c:348-377 | the tables after disabling, entry by entry, with any deletion failing |
| `Routing.DisableInvertsEnableIff` | src/ops-fpa-routing.c:337-381 | disabling restores the tables if and only if the four cookies were unused |
| `Routing.StepKeepsBitmap` | src/ops-fpa-vlan.c:105-161 | enable and disable keep the bitmap right under every failure pattern |
| `Routing.RunKeepsBitmap` | src/ops-fpa-routing.c:264-346 | in every run a bit is set exactly if one live interface holds the VLAN, and never two do |
| `Routing.AddInternalIff` | src/ops-fpa-vlan.c:114-138 | when `add_internal` reports success, and that it sets the bit only then |
| `Routing.DisableInvertsInterfaceIff` | src/ops-fpa-routing.c:264-381 | disabling restores the state from before `enable_routing_interface` if and only if no key was shared |
| `Routing.FailedInterfaceIff` | src/ops-fpa-routing.c:264-282 | exactly when a failing call leaves no trace, whatever else fails; never if the VLAN was internal already |
| `RoutingRuns.StepKeepsL3Iff` | src/ops-fpa-routing.c:264-381 | the three tables hold the flows of the live interfaces, each once, after a step if and only if it is OK |
| `RoutingRuns.RunKeepsL3Iff` | src/ops-fpa-routing.c:264-381 | so in all states of a run: if and only if nothing was added on a VLAN in use and no undoing deletion failed |
| `RoutingRuns.LiveIsHistory` | src/ops-fpa-routing.c:264-381 | the live interfaces are those brought up and not disabled since, with their VLAN, MAC address and port |
| `RoutingRuns.RunMatches` | src/ops-fpa-routing.c:47-381 | in all states of a run of OK steps, which MAC addresses and which control packets the tables match, told by the operations |
| `Routing.Router.EnableRoutingVlan` | src/ops-fpa-routing.c:284-335 | the tables after success or rollback, with any rollback deletions failing |
| `Routing.Router.DisableRoutingVlan` | src/ops-fpa-routing.c:348-377 | the tables, stopping at the first failure |
| `Routing.Router.AddInternalVlan` | src/ops-fpa-vlan.c:114-138 | tables, bitmap and result |
| `Routing.Router.DelInternalVlan` | src/ops-fpa-vlan.c:140-161 | tables and bitmap |
| `Routing.Router.EnableRoutingInterface` | src/ops-fpa-routing.c:264-282 | the new state |
| `Routing.Router.DisableRouting` | src/ops-fpa-routing.c:337-381 | the new state |
| `Routes.CookiesCollideIff` | src/ops-fpa-route.c:24 | two cookies are equal if and only if the prefixes are and the lengths agree modulo 256; never for different keys with lengths above -224 |
| `Routes.StepRepresentsIff` | src/ops-fpa-ofproto.c:1200-1247 | exactly one flow per route after a step, if and only if the step is OK |
| `Routes.RunRepresentsIff` | src/ops-fpa-ofproto.c:1155-1259 | so in all states of a run |
| `Routes.OrdinaryRunRepresentsIff` | src/ops-fpa-ofproto.c:1155-1259 | with lengths above -224 and working deletions: if and only if no host route is added over a /32 route |
| `Routes.CollidingLengthsExample` | src/ops-fpa.c:131 | deleting a route of length -224 removes the /32 route |
| `Routes.MapIsLastWriter` | src/ops-fpa-ofproto.c:1200-1247 | the target of a key is that of the last successful write not erased since; a failing route addition erases |
| `Routes.RunFlows` | src/ops-fpa-route.c:137-178 | in all states of a run of OK operations the flows, field by field, are those of the last writes: to the next hop's group, the host's group, or the CPU |
| `Routes.AddRouteLaw` | src/ops-fpa-ofproto.c:1200-1241 | one addition from any table, entry by entry; refused unless there is one next hop, unresolved or known |
| `Routes.DelRouteLaw` | src/ops-fpa-ofproto.c:1243-1246 | one deletion from any table, entry by entry |
| `Routes.RouteTable.RouteAction` | src/ops-fpa-ofproto.c:1193-1258 | table and error result |

## Where code and comments differ

The model follows the code.

- include/ops-fpa-routing.h:28 calls `intf_id` valid if `!vlan_intf`; the code sets it
  together with `vlan_intf` and reads it only then (src/ops-fpa-routing.c:278-279, 344-345).
- src/ops-fpa-mac-learning.c:219-221 and 347-348 speak of hardware table updates; the code
  makes none.

## Left out

- Hardware library internals. Assumed: a flow table is a multiset, cookie deletion removes all entries with the cookie, groups are keyed by identifier, enumeration visits each entry once, the fields of a group identifier are where `OPS_FPA_GID_VLAN` and `OPS_FPA_GID_PORT` read them.
- How the switch reads its tables is assumed in `L2Frames`: a flow matches untagged frames of its port, or tagged frames with its VLAN; the new tag replaces the VLAN unless it is to be ignored; a VLAN leaves through the ports that have a group for it.
- Bitmaps are sets: their packing into words and the word-wise XOR (src/ops-fpa-ofproto.c:803-805) are not modelled.
- A port's OpenFlow number is taken to equal its hardware port, `ports_by_pid` to be an exact map, and the group table to hold only L2 interface groups; src/ops-fpa-ofproto.c:61, 871 and src/ops-fpa-vlan.c:42 do not ensure these.
- L2Runs.TwoPassesConvergeIff: the deletions of the first call are taken to succeed, because one that fails is made up for by the second call and can then take a new entry of its key along; `AnyFaultsRepairedIff` covers that with a third call.
- Routes.RouteTable.RouteAction: the match mask is carried along, but prefix matching is not claimed (src/ops-fpa-route.c:153 is the network-order mask only for octet-aligned lengths on little-endian hosts, and its shift is undefined in C for lengths below 1).
- Hosts.HostTable.Add: parsing, address and next-hop checks are one `badInput` flag, and the learned-port lookup (src/ops-fpa-ofproto.c:997-1002) is taken to succeed; the L2 and L3 groups are not tracked, because hosts and VLAN egress share them.
- Tap.TapInfo.IfCreate: the error exits are one `fails` flag; `ops_fpa_tap_deinit` is left out, because it reads a descriptor from a union written as a port.
- Dot1q.StripTag: the decision to strip or drop by the egress group of the port is not modelled.
- MacLearning.MacTable.LearnEntry: existence of the port is a flag; growth of hash maps is not modelled.
- Hmap.Map: chains are sequences; resizing is left out.
- Removal of L2 bundles, LAG, IPv6, secondary addresses, CLI dumps, threads, sockets and timers.
- The remaining files (netdev, dev, copp, qos, stg, bufmon, plugins, init, util) are not modelled.
