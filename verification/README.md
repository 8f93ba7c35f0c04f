# fortochka, modelled and proved in Dafny

fortochka is a per-application split tunnel for Windows: it captures the packets of the applications a user selects and
sends their traffic through a WireGuard tunnel, leaving every other application alone. This project models the parts of
it that keep state or lay out bytes, and proves what they are for.

The interception engine (`internal/apptunnel/apptunnel_windows.go`) is modelled twice. A specification gives its tables
as values and every handler, sweep and transition as a step function: `Selection` (which applications are selected,
paused and running), `TcpTable` (mappings, decisions, strikes), `UdpTable` (flows, cached decisions, sockets), over
which `TcpSafety` (segments under a changing selection), `UdpSafety`, `UdpVerdicts` (which datagrams pass, and why) and
these modules themselves prove properties of whole runs. `Packets` writes packets as the standards lay them out and
proves what the engine reads from their bytes. `Engine.Engine` is the class with the engine's own fields; each of its
methods changes them in place, packets included, and is proved to take the specification's step. What the system
supplies is passed in: the sampled port tables (`Table`: unreadable or a map from port to process id), the process names
(`Names`), the clock, and the outcome of opening a handle, dialling or writing. A handler is one atomic step; two
labelled transition systems take the interleavings apart where handles are at stake: `DivHandle` for one capture handle
shared by senders, loop, timer and closer, and `Generations` for the goroutines of successive runs. A third, `Closing`,
does so for the daemon's reconciles racing with its `Close`.

The other modules: `Wire` (header fields and rewrites), `PortFilter` and `PortRetention` (the ports the UDP filter
carries, and for how long), `Throttle` (`missThrottle`), `Supervisor` (the daemon's tick, supervision, reconcile and
commands, composed with `Selection`), `DaemonRuns` (what the user's commands mean over a run), `Rules` (the indexed rule
matcher against the plain rule list), `Versions` (version order and hand-over), `Swap` (binary replacement as file
operations that may fail or be cut short), `ListCache` (the list copy's printer and parser), `ListFiles` (the lists as
published), `ResourceTree`, `ResourceReader`, `ResourceWriter`, `ObjectFile` and `Icons` (`tools/mksyso`: the resource
tree, a reader written from the PE format, the two-pass writer that fills a byte array in place, the COFF file, and the
icons put in it). `Basics`, `Text`, `Sorting` and `LittleEndian` hold what several of them share.

`dafny verify dfyconfig.toml` checks the whole project.

## What turned out not to hold

Each of these is stated about the code as it is, with a run or an input that shows it and the exact condition under which
the expected property does hold.

- After `Stop`, re-selecting an application does not reset its connections (`Selection.StopForgets`); only `Suspend`
  records what was running. `Selection.ResumePullsAllIn` gives the condition, and `Supervisor.RunStopsOnlyToClose` shows
  that the daemon stops the engine only when it closes.
- `Close` sets its flag so that a reconcile under way does not start interception again (`internal/daemon/daemon.go:377`).
  But reconcile tests the flag before it waits for its lock, so one that has passed the test starts interception after
  `Close` has stopped it, and resets no connection (`Closing.ReconcileOutlivesClose`). Interception can come on again if
  and only if some reconcile has passed the test and may still start it (`Closing.OutlivesCloseIff`).
- A start that fails past its listener has already re-enabled the UDP handler (`UdpSafety.FailedStartEnablesHandler`). If
  interception is paused, a start fails so, and a datagram the old packet loop still holds is then handled, its socket is
  lost, because the next start empties the flow table without closing anything
  (`UdpSafety.HandlingWhileDownLosesSocket`). Over every run, no socket is ever lost if and only if every start past its
  listener finds the flow table empty (`UdpSafety.SocketsConserved`), as it does if flows are registered only while
  interception runs (`UdpSafety.StartsAreClean`).
- `Shutdown` is issued outside the handle's lock, so it can reach a handle that is already closed
  (`DivHandle.ShutdownCanBeOvertaken`). It does if and only if a `Close` is issued between the unlock and the `Shutdown`
  (`DivHandle.ShutdownReachesClosedIff`), so it is safe exactly when the handle's closed flag is unset at that moment
  (`DivHandle.ShutdownIsSafeIffUnclosed`), which holding the lock across the call would keep so
  (`DivHandle.LockKeepsUnclosed`). Sends and closes are safe in every interleaving.
- A UDP supervisor that gives up after a panic checks its generation under the lock, releases the lock, and then swaps the
  shared handle out, so it can take the handle of a later run (`Generations.OldRunCanTakeNewHandle`); it takes its own
  exactly when no later run has started (`Generations.GiveUpTakesOwnHandleIff`). It goes on to stop the later run's UDP
  handler (`Generations.OldRunCanStopNewHandler`; condition in `Generations.StoppedIffTornDown`), after which selected
  applications' datagrams leave in the clear wherever they would have been tunnelled (`UdpSafety.OpenAfterTeardown`).
- A change of selection clears the cached UDP decisions but no TCP decision, so a port decided direct before its
  application was selected stays direct, and a new connection from it to another peer leaves in the clear
  (`TcpSafety.NewlySelectedCanPass`; the exact condition is `TcpSafety.SelectedSynPassesIff`). As long as no application
  is added to the selection, this needs another process: a selected application's SYN leaves in the clear if and only if
  its port was taken direct for another, unselected process, has stayed so, and the sampled tables do not list the port or
  still name that process (`TcpSafety.PassesIffReused`, with a run in `TcpSafety.ReusedPortCanPass`). It cannot where the
  tables name the selected process as the port's owner (`TcpSafety.FailClosed`).
- Connect and Import restart the count of rebuilds but not their clock, so a Connect pressed fifteen seconds or more after
  the supervisor gave up has its tunnel rebuilt on the next tick (`Supervisor.ConnectAfterGivingUpRebuildsAtOnce`;
  condition in `Supervisor.ConnectKeepsDeadline`).
- A list line within the scanner's limit can exceed it once printed with its two-character prefix, and the copy then
  reads back incomplete (`ListCache.LongestLineIsLost`; condition in `ListCache.CacheRoundTrip`).
- The section header counts relocations in 16 bits, and an .ico file may hold 65535 images, which with the group makes
  65536 resources: the object then claims none (`Icons.LargestIcoLosesRelocations`). The count is right if and only if
  images, group and manifest are fewer than 65536 (`Icons.RelocationsCountedIff`, `ObjectFile.CountIsKeptIff`).
- The comment on `seen` (`internal/apptunnel/apptunnel_windows.go:312`) allows a process id of 0 there; the code never
  stores one, and the model follows the code.

## Model

| member | source | states |
|---|---|---|
| `Wire.RedirectedFields` | internal/apptunnel/apptunnel_windows.go:909-916 | the forward rewrite turns a segment into peer:port to app:1083, whatever the header length, and changes no byte outside the two addresses and the destination port |
| `Wire.ReturnedFields` | internal/apptunnel/apptunnel_windows.go:856-870 | the return rewrite makes the listener's segment peer:peerPort to app:port and changes no byte outside the two addresses and the source port |
| `Wire.NatMirror` | internal/apptunnel/apptunnel_windows.go:856-916 | an answer whose ends are those of the redirected segment swapped is recognised as the listener's, and after the return rewrite its addresses and ports are exactly the original segment's, swapped |
| `Wire.PutU16` | internal/apptunnel/apptunnel_windows.go:910-916 | in place: the two bytes at the offset become the big-endian value, every other byte is untouched |
| `Wire.SetIP` | internal/apptunnel/apptunnel_windows.go:1926-1929 | in place: the four bytes at the offset become the address, every other byte is untouched |
| `Wire.UdpReplyReadsBack` | internal/apptunnel/apptunnel_windows.go:1722-1742 | an IPv4/UDP parser reads the reply packet back as exactly the endpoints and payload it was built from if its length fits 16 bits, and rejects it otherwise |
| `Wire.WriteIpv4Header` | internal/apptunnel/apptunnel_windows.go:1727-1736 | the first twenty bytes of a zeroed buffer become the header for the endpoints and total length, the rest is untouched |
| `Wire.WriteUdpHeader` | internal/apptunnel/apptunnel_windows.go:1737-1740 | bytes 20 to 28 become the UDP header, everything else is untouched |
| `Wire.BuildUDPReply` | internal/apptunnel/apptunnel_windows.go:1722-1742 | answers -1 and writes nothing exactly when the reply does not fit; otherwise the reused buffer begins with the reply, whatever it held before, and its tail is untouched |
| `Packets.TcpPacketReads` | internal/apptunnel/apptunnel_windows.go:765-799 | a TCP packet written field by field, with any options, any other control bits and any data, is taken for TCP with exactly its ends, its SYN bit and its ACK bit |
| `Packets.UdpPacketReads` | internal/apptunnel/apptunnel_windows.go:772-799 | a UDP packet written field by field is taken for UDP under the key of its ends |
| `Packets.OnlyTcpPackets` | internal/apptunnel/apptunnel_windows.go:772-799 | what reaches the TCP tables is a packet written that way, and every packet written that way does |
| `Packets.FirstSynIsRedirected` | internal/apptunnel/apptunnel_windows.go:850-969 | a selected application's SYN without ACK, from a port nothing is decided for, turns inbound, addressed to the listener with every later byte unchanged, and its port is mapped to exactly its peer |
| `Packets.OthersDecideNothing` | internal/apptunnel/apptunnel_windows.go:921-945 | a packet with ACK or without SYN decides nothing: without a mapping it leaves as it came, with one and no SYN it leaves under it |
| `Basics.LocalIsListed` | internal/apptunnel/apptunnel_windows.go:1562-1564 | the local addresses are exactly those of the blocks the standards name |
| `Selection.StepKeepsConsistent` | internal/apptunnel/apptunnel_windows.go:337-428 | SetApps (start succeeding or failing) and Suspend keep: running means nothing is pending and the last selection is the current, non-empty one; not running means the last selection is pending |
| `Selection.RunIsConsistent` | internal/apptunnel/apptunnel_windows.go:337-428 | the consistency holds after every prefix of every run in which Stop is terminal |
| `Selection.ResetExactlyOnEntry` | internal/apptunnel/apptunnel_windows.go:341-411 | a step resets an application's connections if and only if it takes the application from not intercepted to intercepted |
| `Selection.PulledIn` | internal/apptunnel/apptunnel_windows.go:337-428 | every application intercepted now was reset at some step since which it has been intercepted without a break |
| `Selection.ReapplyIsQuiet` | internal/apptunnel/apptunnel_windows.go:337-412 | applying the running selection again changes no table and resets nobody |
| `Selection.ResumePullsAllIn` | internal/apptunnel/apptunnel_windows.go:341-411 | a start from rest resets all selected applications if and only if those of them in the last selection are pending |
| `Selection.StopForgets` | internal/apptunnel/apptunnel_windows.go:540-554 | after Stop a new start resets only the applications that were not running when it was issued |
| `Selection.SuspendRemembers` | internal/apptunnel/apptunnel_windows.go:415-428 | after Suspend a new start resets every selected application, whatever is selected next |
| `Selection.SelectedIsLastAsked` | internal/apptunnel/apptunnel_windows.go:337-428 | selected are the applications last asked for, and none while interception is paused |
| `Selection.RunningIffOn` | internal/apptunnel/apptunnel_windows.go:337-554 | interception runs if and only if a start has succeeded that no pause, stop or empty selection has turned off since |
| `TcpTable.HandleKeepsInv` | internal/apptunnel/apptunnel_windows.go:850-969 | a segment keeps the tables consistent: every mapping is decided for the same process, strikes are exactly one and only on decided ports, port 1083 is never mapped, no mapping leads to a local address |
| `TcpTable.ApplyKeepsInv` | internal/apptunnel/apptunnel_windows.go:1586-1657 | sweeps and restarts keep the same consistency |
| `TcpTable.RunInv` | internal/apptunnel/apptunnel_windows.go:850-969 | it holds after every step of every run from empty tables |
| `TcpTable.SegmentFollowsTable` | internal/apptunnel/apptunnel_windows.go:872-969 | a segment from an application to a non-local address leaves inbound under its port's mapping if there is one afterwards, and untouched otherwise |
| `TcpTable.SynIsRoutedIffSelected` | internal/apptunnel/apptunnel_windows.go:921-968 | a connection-opening SYN on an undecided or stale port gets a mapping to exactly its own ends if and only if its owner is a selected application |
| `TcpTable.OtherPortsUntouched` | internal/apptunnel/apptunnel_windows.go:850-969 | a segment changes nothing held for any port but its own source port |
| `TcpTable.AnswerMirrors` | internal/apptunnel/apptunnel_windows.go:856-870 | the listener's answer to a mapped port leaves as the original peer's answer to the application, and changes no table |
| `TcpTable.ReturnedIffPeers` | internal/apptunnel/apptunnel_windows.go:856-870 | a segment of the listener is returned if and only if it is addressed to the peer of its port's mapping, and no such segment changes a table |
| `TcpTable.LocalIsLeftAlone` | internal/apptunnel/apptunnel_windows.go:872-874 | a segment to a local address leaves as it came and changes no table, whatever is held for its port |
| `TcpTable.MappingStandsUntilEnded` | internal/apptunnel/apptunnel_windows.go:881-916 | a mapping is unchanged by any step that brings no evidence against it, and gone after one that does unless that very segment is a new selected SYN |
| `TcpTable.MappingLifetime` | internal/apptunnel/apptunnel_windows.go:850-969 | over any stretch of a run without such evidence the mapping stays the same and every segment from the port to a non-local address leaves for the listener under it |
| `TcpTable.StrikeHasEvidence` | internal/apptunnel/apptunnel_windows.go:1637-1657 | a standing strike against a port goes back to a sweep whose tables lacked it, with no listing, new decision or restart since |
| `TcpTable.SweptOnlyOnEvidence` | internal/apptunnel/apptunnel_windows.go:1595-1657 | a sweep retires a decision only on a second table-backed absence with nothing in the port's favour in between |
| `TcpTable.SecondStrikeRetires` | internal/apptunnel/apptunnel_windows.go:1637-1657 | an absence on top of a strike always retires the decision |
| `TcpTable.GonePortIsSwept` | internal/apptunnel/apptunnel_windows.go:1595-1657 | conversely, two table-backed absences with no segment of the port in between leave no decision |
| `TcpSafety.RunKeepsInv` | internal/apptunnel/apptunnel_windows.go:337-412 | over every run of segments, sweeps, selections, pauses and stops the tables stay consistent |
| `TcpSafety.SelectedSynPassesIff` | internal/apptunnel/apptunnel_windows.go:884-968 | a selected application's fresh SYN to a non-local address leaves in the clear if and only if its port is decided, unmapped, and not shown to have changed hands |
| `TcpSafety.DirectUnselectedSince` | internal/apptunnel/apptunnel_windows.go:337-412 | from a restart on, as long as no application is added to the selection, no direct decision is held for a selected process |
| `TcpSafety.PassesIffReused` | internal/apptunnel/apptunnel_windows.go:884-968 | over every such stretch of a run, a selected application's fresh SYN leaves in the clear if and only if its port was taken direct for another, unselected process since the restart, has been direct ever since, and the sampled tables list no owner or still that process |
| `TcpSafety.FailClosed` | internal/apptunnel/apptunnel_windows.go:850-969 | so over every such stretch no fresh SYN leaves in the clear whose port the sampled tables list under the selected process that sent it |
| `TcpSafety.ReusedPortCanPass` | internal/apptunnel/apptunnel_windows.go:884-968 | a run in which a selected application takes over a port decided direct for another process, the tables do not list it, and its connection to another peer leaves in the clear |
| `TcpSafety.NewlySelectedCanPass` | internal/apptunnel/apptunnel_windows.go:337-412 | a run in which an application is selected after its port was decided, and its next connection from that port, to another peer, leaves in the clear |
| `UdpSafety.SelectingClearsDecisions` | internal/apptunnel/apptunnel_windows.go:370-376 | after any SetApps no cached direct decision names a selected application |
| `UdpSafety.HandleCachesUnselected` | internal/apptunnel/apptunnel_windows.go:1432-1457 | a datagram caches a decision only for this process, System, or a readable name that is not selected |
| `UdpSafety.StepKeepsDirectUnselected` | internal/apptunnel/apptunnel_windows.go:1357-1517 | with names stable, every step but SetApps keeps it that no cached decision names a selected application |
| `UdpSafety.DirectUnselectedSince` | internal/apptunnel/apptunnel_windows.go:337-376 | it holds at every step of a run since the last change of selection |
| `UdpSafety.SelectedPassesIffStopped` | internal/apptunnel/apptunnel_windows.go:1377-1517 | a selected application's non-local datagram is reinjected in the clear if and only if the handler was stopped under it after a successful dial |
| `UdpSafety.FailClosed` | internal/apptunnel/apptunnel_windows.go:1357-1517 | over every run, while the handler is not stopped, a non-local datagram whose owner has a readable selected name is never reinjected in the clear |
| `UdpSafety.StoppedByTeardown` | internal/apptunnel/apptunnel_windows.go:1198-1222 | while interception runs its handler is stopped only by a teardown after a panic, with no break since |
| `UdpSafety.FailClosedWhileRunning` | internal/apptunnel/apptunnel_windows.go:1357-1517 | so over every run UDP fails closed while interception runs, until its packet loop dies |
| `UdpSafety.OpenAfterTeardown` | internal/apptunnel/apptunnel_windows.go:1198-1222 | after a teardown a selected application's datagram is reinjected if and only if it would otherwise have been tunnelled |
| `UdpSafety.UnselectedPasses` | internal/apptunnel/apptunnel_windows.go:1422-1457 | a readable owner that is not selected, with no flow under the key, is always passed, and no flow changes |
| `UdpVerdicts.PassesIff` | internal/apptunnel/apptunnel_windows.go:1377-1517 | a non-local datagram is reinjected if and only if it has no flow and its key has a decision that stands, or its port is not live and nobody identifies its owner, or its owner is this process, System or a readable unselected name, or the handler was stopped under it |
| `UdpVerdicts.LocalPasses` | internal/apptunnel/apptunnel_windows.go:1378-1380 | a datagram to a local address passes and changes nothing |
| `UdpVerdicts.UnidentifiedIsDropped` | internal/apptunnel/apptunnel_windows.go:1423-1451 | a datagram nobody identifies, without flow or decision, is dropped on a live port and passed on a retained one, and leaves no trace |
| `UdpVerdicts.TunnelledIff` | internal/apptunnel/apptunnel_windows.go:1459-1516 | a selected application's datagram makes a flow, through the dialled socket and for its own owner and address, if and only if a socket can be had and the handler is not stopped |
| `UdpVerdicts.DecisionStep` | internal/apptunnel/apptunnel_windows.go:1357-1457 | what one step does to the decision for a key, and when |
| `UdpVerdicts.DecidedIff` | internal/apptunnel/apptunnel_windows.go:1357-1457 | over every run, a key has a cached decision if and only if a datagram took it and no selection, expiry or change of hands has ended it since |
| `UdpVerdicts.OnlyHarmlessPass` | internal/apptunnel/apptunnel_windows.go:1423-1457 | over every run, on a live port with the handler not stopped, whatever is reinjected is so for the sake of a process that is not selected; without an identified owner only by a decision taken since the selection changed |
| `UdpVerdicts.PausedIffJustFailed` | internal/apptunnel/apptunnel_windows.go:1465-1486 | over every run, dialling is paused for a datagram if and only if the last dial to fail did so less than a second before |
| `UdpVerdicts.SelectionEndsFlowIff` | internal/apptunnel/apptunnel_windows.go:376-397 | a change among running selections ends exactly the flows whose owner is known and no longer selected, and closes their sockets |
| `UdpVerdicts.OnlySelectedAreTunnelled` | internal/apptunnel/apptunnel_windows.go:370-397 | over every run since a selection that could read the owners' names, every flow belongs to a selected application |
| `UdpVerdicts.StoppingClosesEverySocket` | internal/apptunnel/apptunnel_windows.go:546-597 | stopping, pausing, deselecting everything and the teardown after a panic leave no flow and no open socket |
| `UdpVerdicts.ReaderEndsOnlyItsOwn` | internal/apptunnel/apptunnel_windows.go:1691-1719 | a reader that ends closes its socket and takes exactly the flow of that socket with it |
| `UdpSafety.HandleKeepsAccounted` | internal/apptunnel/apptunnel_windows.go:1392-1516 | after any datagram every socket ever dialled is closed or the connection of exactly one registered flow |
| `UdpSafety.StartLosesSocketsIffFlowsLeft` | internal/apptunnel/apptunnel_windows.go:463-467 | a start keeps sockets accounted for if and only if no flow is left over from before |
| `UdpSafety.StepKeepsAccountedIff` | internal/apptunnel/apptunnel_windows.go:463-467 | a step (datagram, reply, reader's end, sweep, cap, selection, pause, stop, panic) keeps every dialled socket accounted for if and only if it is not a start past its listener that finds flows left over |
| `UdpSafety.StepKeepsBounded` | internal/apptunnel/apptunnel_windows.go:990-1013 | after every step there are at most 1024 flows, none with 20 stalls or two strikes of either kind |
| `UdpSafety.StepKeepsSocketsSafe` | internal/apptunnel/apptunnel_windows.go:370-397 | one step keeps accounting and bounds together under the same condition and no other |
| `UdpSafety.SocketsConserved` | internal/apptunnel/apptunnel_windows.go:1681-1719 | over every run, each dialled socket is closed or in exactly one flow in every state if and only if every start past its listener finds no flow left over |
| `UdpSafety.StartsAreClean` | internal/apptunnel/apptunnel_windows.go:451-504 | which holds on every run whose flows are registered only while interception runs |
| `UdpSafety.FlowsBounded` | internal/apptunnel/apptunnel_windows.go:990-1013 | in every state of every run there are at most 1024 flows, none wedged and none with two strikes |
| `UdpSafety.CapEvictsOldest` | internal/apptunnel/apptunnel_windows.go:990-1013 | a flow the cap takes was seen no later than every flow it keeps, and the cap takes one only when the table was full |
| `UdpSafety.FailedStartEnablesHandler` | internal/apptunnel/apptunnel_windows.go:451-504 | from any state with the handler stopped and interception down, a start enables the handler if and only if it gets past its listener, and interception runs if and only if it also opens its handles |
| `UdpSafety.HandlingWhileDownLosesSocket` | internal/apptunnel/apptunnel_windows.go:451-504 | a run of start, pause, failed start, datagram from the first run's loop, start, after which a dialled socket is neither closed nor in any flow |
| `UdpSafety.EveryFlowStep` | internal/apptunnel/apptunnel_windows.go:1392-1869 | every step leaves a registered flow's owner and address alone, stamps it only when it carries something, moves its stalls only by a write's outcome and its other strikes only by a sweep's judgement |
| `UdpSafety.StampIsLastTouch` | internal/apptunnel/apptunnel_windows.go:1393-1413 | a flow's time stamp is that of the last datagram or reply it carried |
| `UdpSafety.AbsenceHasEvidence` | internal/apptunnel/apptunnel_windows.go:1842-1849 | a standing miss goes back to a sweep whose tables lacked the port, with no listing since |
| `UdpSafety.ForeignHasEvidence` | internal/apptunnel/apptunnel_windows.go:1850-1864 | a standing foreign strike goes back to the sweep just before that saw another owner |
| `UdpSafety.FlowSweptOnlyOnEvidence` | internal/apptunnel/apptunnel_windows.go:1842-1869 | a sweep retires a flow only if it carried nothing for 120 seconds, on its second table-backed absence, or on the second sweep in a row under another owner |
| `UdpSafety.EvidenceRetiresFlow` | internal/apptunnel/apptunnel_windows.go:1842-1885 | and that evidence is enough: the flow goes and its socket is closed |
| `UdpVerdicts.IdleFlowIsSwept` | internal/apptunnel/apptunnel_windows.go:1842-1885 | over every run, a flow that carried nothing for two minutes does not survive a sweep, and its socket is closed |
| `UdpSafety.StallsCountDrops` | internal/apptunnel/apptunnel_windows.go:1392-1414 | over every run a flow's stalls are the number of its dropped writes since one last succeeded, or since it was registered |
| `UdpSafety.DatagramEndsFlowIffWedged` | internal/apptunnel/apptunnel_windows.go:1392-1414 | a flow's own datagram ends it, and closes its socket, if and only if the write breaks or is the twentieth dropped with none successful in between |
| `UdpSafety.RepliesMirrorFirstDatagram` | internal/apptunnel/apptunnel_windows.go:1745-1770 | replies of a flow go from its peer to the address and port its first datagram came from |
| `Engine.Classify` | internal/apptunnel/apptunnel_windows.go:772-799 | a packet is treated as TCP or UDP only if its header length is 20 to 60 and the ports lie inside it |
| `Engine.BytesDecide` | internal/apptunnel/apptunnel_windows.go:765-768 | whatever satisfies the handler's step: a packet whose control byte is SYN alone opens a selected application's connection, one whose control byte is ACK alone changes no table |
| `Engine.SelectedMeans` | internal/apptunnel/apptunnel_windows.go:345-353 | a name is selected if and only if it is lower-case, not empty, and some entry of the list is that name but for case and surrounding white space |
| `Engine.Engine.constructor` | internal/apptunnel/apptunnel_windows.go:332-334 | a new engine is the initial state of the specification |
| `Engine.Engine.SetApps` | internal/apptunnel/apptunnel_windows.go:337-412 | takes the specification's selection step on all tables, returns exactly the applications to reset, empties the TCP tables exactly when a start gets past its listener, and keeps sockets safe if and only if no such start finds flows left over |
| `Engine.Engine.Reselect` | internal/apptunnel/apptunnel_windows.go:341-411 | the body of SetApps: selection, UDP and TCP tables each move as specified |
| `Engine.Engine.FoldNames` | internal/apptunnel/apptunnel_windows.go:341-352 | the selection becomes the set of trimmed, lower-cased, non-empty names, and the new ones are those the last selection lacked |
| `Engine.Engine.SwitchTables` | internal/apptunnel/apptunnel_windows.go:362-397 | starts or stops interception to match the selection and closes exactly the flows the selection no longer covers |
| `Engine.Engine.DropDeselected` | internal/apptunnel/apptunnel_windows.go:370-397 | exactly the flows whose owner has a readable name that is not selected go, and their sockets are closed |
| `Engine.Engine.Start` | internal/apptunnel/apptunnel_windows.go:451-521 | the tables are emptied unless the listener fails, and interception runs only if the captures open too |
| `Engine.Engine.StopRunning` | internal/apptunnel/apptunnel_windows.go:546-597 | interception is off, the handler stopped, and every flow's socket closed |
| `Engine.Engine.Suspend` | internal/apptunnel/apptunnel_windows.go:415-428 | takes the specification's suspend step |
| `Engine.Engine.Stop` | internal/apptunnel/apptunnel_windows.go:540-544 | takes the specification's stop step |
| `Engine.Engine.HandleTCP` | internal/apptunnel/apptunnel_windows.go:850-969 | takes the specification's step for the segment the packet shows and rewrites the bytes as it says; a bare SYN of a selected owner from an undecided port leaves inbound for the listener, a bare ACK changes no table |
| `Engine.Engine.RouteTCP` | internal/apptunnel/apptunnel_windows.go:856-969 | tables and verdict are those of the specification's handler |
| `Engine.Engine.RetireDecision` | internal/apptunnel/apptunnel_windows.go:881-907 | the port's decision is dropped exactly when the segment is a SYN to a new destination or owner, or a SYN-ACK under a new owner |
| `Engine.Engine.Decide` | internal/apptunnel/apptunnel_windows.go:925-959 | a fresh SYN records a decision if the owner's name is readable and a mapping if it is selected, and clears strikes |
| `Engine.Engine.Redirect` | internal/apptunnel/apptunnel_windows.go:909-916 | in place: ends become the listener's, source port and all other bytes stay |
| `Engine.Engine.Return` | internal/apptunnel/apptunnel_windows.go:856-870 | in place: ends become the peer's, destination port and all other bytes stay |
| `Engine.Engine.Rewrite` | internal/apptunnel/apptunnel_windows.go:856-916 | in place: the packet shows exactly the given ends, every other byte stays |
| `Engine.Engine.ForgetPort` | internal/apptunnel/apptunnel_windows.go:1586-1592 | mapping, decision and strikes of the port go, nothing else changes |
| `Engine.Engine.SweepTracked` | internal/apptunnel/apptunnel_windows.go:1595-1610 | visiting the decided ports one by one in any order gives exactly the specification's sweep |
| `Engine.Engine.NoteTrackMiss` | internal/apptunnel/apptunnel_windows.go:1637-1657 | the port ends up as the whole sweep leaves it, all other ports as they were |
| `Engine.Engine.RetireStale` | internal/apptunnel/apptunnel_windows.go:1357-1374 | the cached decision is dropped exactly when the port is now another process's whose readable name is selected |
| `Engine.Engine.HandleUDP` | internal/apptunnel/apptunnel_windows.go:1377-1517 | takes the specification's datagram step, with a legal eviction, and passes exactly when it says so |
| `Engine.Engine.RouteUDP` | internal/apptunnel/apptunnel_windows.go:1377-1517 | tables and verdict are those of the specification's handler |
| `Engine.Engine.DecideUDP` | internal/apptunnel/apptunnel_windows.go:1422-1457 | the same for a datagram with neither flow nor cached decision |
| `Engine.Engine.Tunnel` | internal/apptunnel/apptunnel_windows.go:1459-1516 | a dialled socket is either closed again, when the handler has been stopped, or registered with the oldest flows evicted; a failed dial pauses dialling; without readiness nothing happens |
| `Engine.Engine.Feed` | internal/apptunnel/apptunnel_windows.go:1392-1414 | a sent datagram clears stalls, the 20th dropped one in a row or a broken write evicts the flow |
| `Engine.Engine.CapFlows` | internal/apptunnel/apptunnel_windows.go:990-1013 | evicts as many flows as the table is over, oldest first, and closes exactly their sockets |
| `Engine.Engine.EvictUDP` | internal/apptunnel/apptunnel_windows.go:1681-1688 | the flow goes and its socket is closed |
| `Engine.Engine.Reply` | internal/apptunnel/apptunnel_windows.go:1691-1719 | a relayed reply stamps the flow only if the flow is still the reader's own |
| `Engine.Engine.ReaderEnds` | internal/apptunnel/apptunnel_windows.go:1691-1719 | a reader that ends takes its own flow with it but never one registered since under the same key |
| `Engine.Engine.GiveUpUDP` | internal/apptunnel/apptunnel_windows.go:1198-1222 | after the loop died on a panic every flow's socket is closed and the handler stopped |
| `Engine.Engine.JudgeFlow` | internal/apptunnel/apptunnel_windows.go:1842-1869 | the flow is struck, pardoned or dropped as the whole sweep does it, every other flow is untouched |
| `Engine.Engine.RetireFlows` | internal/apptunnel/apptunnel_windows.go:1831-1885 | visiting the flows one by one in any order gives exactly the specification's surviving flows and closed sockets |
| `Engine.Engine.ExpireDecisions` | internal/apptunnel/apptunnel_windows.go:1870-1874 | exactly the decisions older than 120 seconds go |
| `Engine.Engine.SweepUDP` | internal/apptunnel/apptunnel_windows.go:1814-1901 | flows, decisions and closed sockets are those of the specification's sweep |
| `Engine.Engine.SweepFlows` | internal/apptunnel/apptunnel_windows.go:1814-1901 | takes the specification's sweep step and keeps sockets safe |
| `Engine.Engine.HandleIPv6` | internal/apptunnel/apptunnel_windows.go:802-825 | an IPv6 packet is dropped if and only if it is a long enough TCP or UDP packet of a selected application to a non-local address |
| `Engine.Engine.HandlePacket` | internal/apptunnel/apptunnel_windows.go:772-799 | dispatches by the bytes alone: TCP and UDP packets take their handler's step, everything else is passed untouched or judged as IPv6 |
| `Engine.SweepIsPointwise` | internal/apptunnel/apptunnel_windows.go:1595-1610 | what a sweep does to a port depends on that port's entries alone, so the order of the loop does not matter |
| `PortFilter.ChoiceIsUnique` | internal/apptunnel/apptunnel_windows.go:1064-1127 | the returned list and the retained table do not depend on the order in which ports are visited |
| `PortFilter.TopIsUnique` | internal/apptunnel/apptunnel_windows.go:1111-1124 | the most preferred ports (latest stamp first, then smallest port) are one set |
| `PortFilter.NeverTooMany` | internal/apptunnel/apptunnel_windows.go:1064-1127 | never more than 250 ports |
| `PortFilter.LivePortsCarried` | internal/apptunnel/apptunnel_windows.go:1064-1127 | if all retained stamps are earlier, all live ports are returned when at most 250 are live |
| `PortFilter.RunCarriesLivePorts` | internal/apptunnel/apptunnel_windows.go:1064-1127 | over every run with a strictly advancing clock, the same |
| `PortFilter.StampMeansLive` | internal/apptunnel/apptunnel_windows.go:1089-1105 | a retained stamp is the time of a step at which the port was live, and is no more than the retention time before the last compaction |
| `PortFilter.CarriedPortsWereLive` | internal/apptunnel/apptunnel_windows.go:1064-1127 | every returned port was live less than twice the retention time ago |
| `PortFilter.LatestThenSmallestAreKept` | internal/apptunnel/apptunnel_windows.go:1111-1124 | a dropped port was last live before every kept one, or at the same time and has the larger number |
| `PortRetention.CarriedIff` | internal/apptunnel/apptunnel_windows.go:1058-1127 | over every run, a port is carried if and only if it was live at some step since the last restart and at no step from then on was crowded out by 250 preferred ports or, its time being up, dropped in a batch |
| `PortRetention.ReleasedPortStays` | internal/apptunnel/apptunnel_windows.go:1058-1105 | until the retention time since it was last live is up, a port is missing if and only if 250 ports were preferred to it at some step since |
| `PortRetention.StaysWhileAllFit` | internal/apptunnel/apptunnel_windows.go:1058-1105 | while all candidates fit, every port live less than the retention time ago is carried |
| `PortRetention.BatchesAreSpaced` | internal/apptunnel/apptunnel_windows.go:1098-1105 | old ports are dropped in batches at least the retention time apart |
| `PortFilter.PortTable.RoutedPorts` | internal/apptunnel/apptunnel_windows.go:1064-1127 | the method with its maps and loops makes exactly the specified choice, strictly sorted |
| `PortFilter.PortTable.Stamp` | internal/apptunnel/apptunnel_windows.go:1089-1097 | live ports are stamped with now, all others keep their stamp |
| `PortFilter.PortTable.Compact` | internal/apptunnel/apptunnel_windows.go:1098-1105 | exactly the expired stamps go |
| `PortFilter.PortTable.DropLeastPreferred` | internal/apptunnel/apptunnel_windows.go:1107-1124 | what is left is the 250 most preferred ports with their stamps |
| `PortFilter.PortTable.Restart` | internal/apptunnel/apptunnel_windows.go:478-481 | a new run starts with nothing retained |
| `Throttle.TableTracksReference` | internal/apptunnel/apptunnel_windows.go:65-95 | whatever was pruned, the table holds each port's last grant or that grant no longer matters |
| `Throttle.AnswerFollowsOwnHistory` | internal/apptunnel/apptunnel_windows.go:72-95 | a port is granted if and only if 250 ms have passed since its own last grant: prunes and other ports never show |
| `Throttle.GrantsAreSpaced` | internal/apptunnel/apptunnel_windows.go:72-84 | two grants for one port are at least 250 ms apart |
| `Throttle.GrantIsRemembered` | internal/apptunnel/apptunnel_windows.go:72-84 | after a grant the port's last grant is never earlier than it |
| `Throttle.MissThrottle.Allow` | internal/apptunnel/apptunnel_windows.go:72-84 | answers and updates as specified |
| `Throttle.MissThrottle.Prune` | internal/apptunnel/apptunnel_windows.go:86-95 | the loop drops exactly the entries older than the interval |
| `DivHandle.RunKeepsInv` | internal/apptunnel/apptunnel_windows.go:116-187 | in every interleaving lock ownership, draining and closing stay consistent |
| `DivHandle.CloseIsFinal` | internal/apptunnel/apptunnel_windows.go:116-187 | when Close is issued no Send is in progress, and none is issued or in progress ever after |
| `DivHandle.ClosedAtMostOnce` | internal/apptunnel/apptunnel_windows.go:162-187 | whatever order closer, loop and timer run in, Close is issued at most once |
| `DivHandle.ShutdownAtMostOnce` | internal/apptunnel/apptunnel_windows.go:162-177 | however often close is called, Shutdown is issued at most once |
| `DivHandle.FailedShutdownCloses` | internal/apptunnel/apptunnel_windows.go:170-187 | when the thread of a failed Shutdown, or any thread in finish, is done, the handle is closed |
| `DivHandle.ShutdownReachesClosedIff` | internal/apptunnel/apptunnel_windows.go:162-187 | over every run, the Shutdown of the close that began draining is issued on a closed handle if and only if a Close was issued in between |
| `DivHandle.ShutdownIsSafeIffUnclosed` | internal/apptunnel/apptunnel_windows.go:162-187 | no Close has come before a Shutdown if and only if the closed flag is unset when it is issued |
| `DivHandle.LockKeepsUnclosed` | internal/apptunnel/apptunnel_windows.go:162-187 | as long as a thread holds the write lock, no other changes the closed flag |
| `DivHandle.ShutdownCanBeOvertaken` | internal/apptunnel/apptunnel_windows.go:170-177 | a reachable state in which Shutdown is about to be issued and the handle is already closed |
| `Generations.OwnerMoves` | internal/apptunnel/apptunnel_windows.go:451-597 | one step moves each owned handle to exactly the next owner, or releases it |
| `Generations.OwnerCameFrom` | internal/apptunnel/apptunnel_windows.go:1252-1354 | an owner after a step had the handle from the matching owner before it, or just opened it |
| `Generations.HandlesConserved` | internal/apptunnel/apptunnel_windows.go:451-597 | in every interleaving of starts, stops, revivals and reopens of any run, each opened handle is installed, held by its opener, or released, and by one of them only |
| `Generations.NothingInstalledAfterStop` | internal/apptunnel/apptunnel_windows.go:546-586 | after a completed stop no handle is installed |
| `Generations.OnlyCurrentRunInstalls` | internal/apptunnel/apptunnel_windows.go:1252-1354 | an installed handle was installed by the current run, never by a goroutine of an earlier one |
| `Generations.AllClosedAtRest` | internal/apptunnel/apptunnel_windows.go:546-586 | once a stop is complete and no goroutine holds a handle, every handle ever opened has been released |
| `Generations.GiveUpTakesOwnHandleIff` | internal/apptunnel/apptunnel_windows.go:1198-1222 | a supervisor that gives up takes its own run's handle if and only if no later run has started |
| `Generations.OldRunCanTakeNewHandle` | internal/apptunnel/apptunnel_windows.go:1193-1222 | after its own handle's loop panicked, a reachable state in which it takes a later run's handle |
| `Generations.OldRunCanStopNewHandler` | internal/apptunnel/apptunnel_windows.go:1198-1222 | a reachable state in which it has stopped the later run's UDP handler, though none of that run's loops panicked |
| `Generations.StoppedIffTornDown` | internal/apptunnel/apptunnel_windows.go:451-597 | while a run is under way its UDP handler is stopped if and only if some teardown has stopped it since the run began |
| `Supervisor.CountersStep` | internal/daemon/daemon.go:457-503 | how one step moves the count of rebuilds and the deadline, whatever else it does |
| `Supervisor.BoundedRebuilds` | internal/daemon/daemon.go:457-503 | between resets at most five rebuilds and one giving up, and from a zero count the giving up comes after all five |
| `Supervisor.QuietAfterGivingUp` | internal/daemon/daemon.go:465-470 | after giving up nothing is attempted until a reset |
| `Supervisor.AttemptsAreSpaced` | internal/daemon/daemon.go:471-479 | any two attempts of a run are at least 15 seconds apart, resets or not |
| `Supervisor.ConnectKeepsDeadline` | internal/daemon/daemon.go:267-314 | the first tick after a Connect rebuilds if and only if a configuration exists and the old deadline has passed |
| `Supervisor.GivingUpLeavesDeadline` | internal/daemon/daemon.go:457-503 | the deadline left by giving up stands until a reset |
| `Supervisor.ConnectAfterGivingUpRebuildsAtOnce` | internal/daemon/daemon.go:267-282 | so a late Connect has its tunnel rebuilt on the next tick |
| `Supervisor.BoundedStartRetries` | internal/daemon/daemon.go:416-432 | while the tunnel's state stays, a failed start of interception is retried at most six times, 10 seconds apart |
| `Supervisor.ReconcileGates` | internal/daemon/daemon.go:589-613 | reconcile turns interception on only when connected, leaves it off when disconnected, and what runs is the selection |
| `Supervisor.ComesOnOnlyConnected` | internal/daemon/daemon.go:401-613 | interception comes on only in a step whose reconcile saw the tunnel connected |
| `Closing.ComesOnOnlyConnected` | internal/daemon/daemon.go:589-613 | in every interleaving of reconciles and Close, interception comes on only for a reconcile that read the tunnel as connected, or as connecting with interception running when Close stopped the engine between the reading and the call |
| `Closing.OneHolder` | internal/daemon/daemon.go:593-594 | at most one reconcile is past the lock, whatever the interleaving |
| `Closing.AskersPassed` | internal/daemon/daemon.go:589-594 | a reconcile under way passed its test before the closing flag was set |
| `Closing.OutlivesCloseIff` | internal/daemon/daemon.go:376-392 | once closing and stopped, interception can come on again if and only if some reconcile past its test may still start it |
| `Closing.ReconcileOutlivesClose` | internal/daemon/daemon.go:376-392 | and there is a run in which it does, resetting no connection |
| `Supervisor.GoesOffWhenDown` | internal/daemon/daemon.go:401-613 | every step that finds or takes the tunnel down leaves interception off |
| `Supervisor.RunStopsOnlyToClose` | internal/daemon/daemon.go:376-392 | the daemon stops the engine only when closing, and does nothing to it afterwards |
| `Supervisor.DaemonPullsIn` | internal/daemon/daemon.go:589-613 | every application intercepted under the daemon was reset when it came in, over every run of ticks and commands |
| `Supervisor.InterceptsSelection` | internal/daemon/daemon.go:589-613 | over every run, until the daemon closes, the running selection is the stored one |
| `Supervisor.ReconnectIsQuiet` | internal/daemon/daemon.go:605-612 | in every state of a run, a reconcile during a reconnect changes nothing and resets nobody |
| `DaemonRuns.WantedIff` | internal/daemon/daemon.go:267-314 | over every run, after the user's last word the tunnel is wanted if and only if that word was an accepted Connect or Import |
| `DaemonRuns.DisconnectIsFinal` | internal/daemon/daemon.go:284-293 | after Disconnect and until an accepted Connect or Import, the tunnel is not wanted and the supervisor does nothing |
| `DaemonRuns.InterceptsLastSet` | internal/daemon/daemon.go:360-374 | over every run, the selection is the one last set and, until the daemon closes, what is intercepted is exactly that |
| `DaemonRuns.ComesOnIff` | internal/daemon/daemon.go:401-613 | interception comes on in exactly the steps that reconcile with the tunnel connected and applications selected, whose start succeeds and which do not give the tunnel up |
| `DaemonRuns.GoesOffIff` | internal/daemon/daemon.go:401-613 | it goes off in exactly these: closing, Disconnect, giving up, and a reconcile that finds the tunnel down or nothing selected |
| `DaemonRuns.ClosedForGood` | internal/daemon/daemon.go:376-392 | over every run of whole steps, after Close interception is off and nothing is asked of the engine |
| `DaemonRuns.RetriedIff` | internal/daemon/daemon.go:416-432 | while the tunnel's state stays, a tick retries a failed start if and only if it is seen connected, interception is off though applications are selected, fewer than six retries were made and each at least ten seconds ago |
| `DaemonRuns.DownTunnelIsRebuilt` | internal/daemon/daemon.go:457-503 | a wanted tunnel found down by every tick for fifteen seconds gets an attempt, unless it has been given up |
| `Supervisor.Service.DoTick` | internal/daemon/daemon.go:401-455 | the tick takes the specified step and action |
| `Supervisor.Service.DoFollow` | internal/daemon/daemon.go:410-451 | the state-change and retry half of the tick |
| `Supervisor.Service.SuperviseTunnel` | internal/daemon/daemon.go:457-503 | fields and action move as specified |
| `Supervisor.Service.DoReconcile` | internal/daemon/daemon.go:589-613 | asks the engine for exactly the specified operation |
| `Supervisor.Service.DoConnect` | internal/daemon/daemon.go:267-314 | Connect and Import take effect only once the tunnel accepted the configuration |
| `Supervisor.Service.DoDisconnect` | internal/daemon/daemon.go:284-293 | unwanted, closed and reconciled |
| `Supervisor.Service.DoSetApps` | internal/daemon/daemon.go:360-374 | the selection is stored, then reconciled |
| `Supervisor.Service.DoClose` | internal/daemon/daemon.go:376-392 | stops the engine once |
| `Rules.CompileRules` | internal/rules/engine.go:86-104 | the loop builds exactly the index of the list |
| `Rules.Match` | internal/rules/engine.go:119-144 | the label loop, which terminates, answers as the index lookup does |
| `Rules.SuffixEntries` | internal/rules/engine.go:86-104 | an index entry carries the action of the earliest rule with that normalised suffix, and a missing entry means no such rule |
| `Rules.LookUpFindsLongest` | internal/rules/engine.go:128-137 | the label loop finds the longest indexed suffix at a dot boundary, or there is none |
| `Rules.KeywordsScan` | internal/rules/engine.go:138-142 | the keyword list answers as the first keyword rule of the list that occurs in the name |
| `Rules.PrefixesScan` | internal/rules/engine.go:120-127 | for an address the index answers as the first rule of the list whose prefix contains it |
| `Rules.IndexRefinesScan` | internal/rules/engine.go:86-144 | the index answers with the winning rule's action if and only if the plain list has a winner |
| `Rules.WinnerIsUnique` | internal/rules/engine.go:119-144 | a host has at most one winning rule |
| `Rules.OneRightDecision` | internal/rules/engine.go:107-117 | manual rules before list rules before the default leave one right decision |
| `Rules.DomainRuleCovers` | internal/rules/engine.go:86-144 | a domain rule, with or without a leading dot and in any case, covers that domain and every name below it and no other, with or without the root's dot |
| `Rules.Engine.SetManual` | internal/rules/engine.go:65-70 | stores the rules and publishes what all current rules compile to |
| `Rules.Engine.SetList` | internal/rules/engine.go:72-77 | the same for the list |
| `Rules.Engine.Rebuild` | internal/rules/engine.go:80-84 | publishes what the current rules compile to, whatever was published before |
| `Rules.Engine.Decide` | internal/rules/engine.go:107-117 | returns the right decision, as the plain rule lists give it, for the host without its final dot and lower-cased |
| `Rules.LatestIsPublished` | internal/rules/engine.go:65-84 | however setters interleave between their two locked sections, once none is in between the published rules are the latest |
| `Versions.Newer` | internal/selfupdate/selfupdate.go:221-241 | true if and only if the first differing field, missing ones counting as zero, is greater |
| `Versions.LaterIsAsymmetric` | internal/selfupdate/selfupdate.go:221-241 | two versions are never each later than the other |
| `Versions.LaterIsTransitive` | internal/selfupdate/selfupdate.go:221-241 | later than a later version is later |
| `Versions.NeitherLaterMeansEqual` | internal/selfupdate/selfupdate.go:221-241 | versions neither of which is later agree in every field |
| `Versions.FieldReadsBack` | internal/selfupdate/selfupdate.go:233-241 | field i of a version written from numbers, with anything but digits around each, is the i-th number, or zero beyond the last |
| `Versions.LaterComparesNumbers` | internal/selfupdate/selfupdate.go:221-241 | one written version is later than another if and only if its numbers are larger at the first field where they differ |
| `Versions.InstallsOrHandsOff` | cmd/fortochka/install.go:22-37 | a launch installs itself if and only if it does not hand over |
| `Versions.NoHandOffLoop` | cmd/fortochka/install.go:22-37 | two builds never hand over to each other |
| `Versions.HandsOffIff` | cmd/fortochka/install.go:22-37 | nothing is handed over to a missing copy or one without a version, always to an identical one, and to a different one exactly if its numbers are larger |
| `Swap.PlaceBinary` | cmd/fortochka/install.go:73-106 | with any call failing and the process stopping after any of them, the previous binary is whole at the target or a moved-aside path or the new one whole at the target; with no call failing the target ends equal to a present source, and so it does if only clearing the usual place aside is refused, the previous binary then being at the second place; a missing or unreadable source fails and leaves the target alone; a failure whose rollback rename succeeds restores the target |
| `Swap.StageCopy` | cmd/fortochka/install.go:80-84 | the staged copy is whole and nothing else changed, or some call failed and it is removed again |
| `Swap.PutInPlace` | cmd/fortochka/install.go:85-105 | with no call failing, or only the clearing of the usual place, the staged copy is put in the target's place |
| `Swap.MoveAsideAndReplace` | cmd/fortochka/install.go:85-99 | the same for moving aside and replacing; a refused clearing of the usual place alone still succeeds, with the previous binary at the second place and the usual one untouched |
| `Swap.Exchange` | cmd/fortochka/install.go:90-99 | the same for one move aside and one replacement with rollback, which succeeds unless a call fails |
| `Swap.Replace` | cmd/fortochka/install.go:94-98 | the staged binary takes the place left free, or the previous one comes back; every disk state on the way is safe |
| `Swap.Install` | internal/selfupdate/selfupdate.go:81-106 | the same for a self-update: the new binary is put in place only if its checksum matched, and it is if moreover no call fails |
| `Swap.StagingIsSafe` | cmd/fortochka/install.go:80-84 | writing the staged copy never endangers the target, however far it gets |
| `Swap.Disk.Rename` | cmd/fortochka/install.go:93-106 | a rename that succeeds moves the whole content in one step, one that fails changes nothing |
| `Swap.Disk.Remove` | cmd/fortochka/install.go:86-89 | tells a removed file, a missing one and a refusal apart |
| `Swap.Disk.WriteFile` | cmd/fortochka/install.go:115-134 | at every point only the written path differs; it succeeds if and only if no call failed, and then the whole content is there |
| `ListCache.SaveCache` | internal/lists/refilter.go:99-122 | the text is the time and one line per rule with a domain or an address, in order |
| `ListCache.LoadCache` | internal/lists/refilter.go:124-159 | reads exactly the lines the scanner delivers, fails without a readable time, and tells whether the scan was complete |
| `ListCache.Download` | internal/lists/refilter.go:199-224 | the trimmed lines that are neither blank nor comments, in order, and whether the scan was complete |
| `ListCache.CRLFLine` | internal/lists/refilter.go:199-224 | a line ended by carriage return and newline is read as the same line without the carriage return |
| `ListCache.AddDomains` | internal/lists/refilter.go:161-187 | one tunnel rule per domain |
| `ListCache.AddAddresses` | internal/lists/refilter.go:161-187 | one tunnel rule per address, with /32 where no length is given |
| `ListCache.Fetch` | internal/lists/refilter.go:161-187 | both lists' rules, domains first, or none if either scan failed |
| `ListFiles.ScanOfList` | internal/lists/refilter.go:199-224 | of a published list, with comments, blank lines and white space, exactly the entries are read, unless a line is too long |
| `ListFiles.FetchReadsLists` | internal/lists/refilter.go:161-224 | two published lists give one tunnel rule for each domain, then one for each address, in order, an address without a length standing for itself; nothing if and only if a line is too long |
| `ListCache.DecimalReadsBack` | internal/lists/refilter.go:99-159 | every 64-bit time prints and parses back unchanged |
| `ListCache.BodyReadsBack` | internal/lists/refilter.go:99-159 | printed rules read back in order up to the first line that does not fit the scanner |
| `ListCache.MarksAreRead` | internal/lists/refilter.go:145-157 | a line marked d is read as a domain and one marked i as an address |
| `ListCache.CacheRoundTrip` | internal/lists/refilter.go:99-159 | rules and time come back unchanged and complete if and only if every printed line fits; otherwise a prefix comes back, marked incomplete |
| `ListCache.FetchedAreCacheable` | internal/lists/refilter.go:161-224 | every rule a fetch produces has one plain field (no newline, no final carriage return) and the tunnel action |
| `ListCache.FetchedListsSurvive` | internal/lists/refilter.go:99-224 | so fetched lists survive the copy if and only if every printed line fits |
| `ListCache.LongestLineIsLost` | internal/lists/refilter.go:99-224 | a line the download accepts that the copy loses |
| `ResourceTree.GroupsAreRuns` | tools/mksyso/main.go:97-104 | grouping loses, adds and reorders nothing, and every group has one type |
| `ResourceTree.GroupTypesAscend` | tools/mksyso/main.go:90-104 | over sorted resources the groups' types strictly ascend |
| `ResourceTree.RegionsAdjoin` | tools/mksyso/main.go:109-138 | root, type directories, id directories, data entries and data each begin where the one before ends, and the last ends the section |
| `ResourceTree.RegionsTile` | tools/mksyso/main.go:109-173 | the section consists of exactly these regions at their offsets: none overlap and nothing is left over |
| `ResourceTree.SectionPlaces` | tools/mksyso/main.go:149-173 | every single directory, data entry and data block lies at the offset computed for it |
| `ResourceReader.DirReadsBack` | tools/mksyso/main.go:143-158 | a directory reads back as exactly its entries |
| `ResourceReader.TreeReadsBack` | tools/mksyso/main.go:90-173 | a reader that walks root, types, ids, languages and data entries finds exactly the resources, in order, each with its own bytes |
| `ResourceReader.RelocateOne` | tools/mksyso/main.go:160-183 | applying a relocation moves the one data entry it aims at and no other byte of the tree |
| `ResourceReader.LoadedTreeReadsBack` | tools/mksyso/main.go:90-183 | with the relocations applied for any load address, the reader finds exactly the resources there |
| `ResourceWriter.SortedAscends` | tools/mksyso/main.go:91-96 | with distinct type and id pairs the sort gives a strictly ascending permutation |
| `ResourceWriter.GroupByType` | tools/mksyso/main.go:97-104 | the loop that appends to a list of types and a map yields the runs of the sorted list |
| `ResourceWriter.PlaceTypeDirs` | tools/mksyso/main.go:112-116 | the running offset gives each type its directory's place |
| `ResourceWriter.PlaceEach` | tools/mksyso/main.go:117-137 | a pass over all resources by type gives each its own running offset: no two share a key, none is overwritten |
| `ResourceWriter.PlaceAll` | tools/mksyso/main.go:109-138 | the five passes yield all offsets of the layout and the section's size |
| `ResourceWriter.Entry` | tools/mksyso/main.go:143-147 | in place: eight bytes of the directory change, nothing else |
| `ResourceWriter.Header` | tools/mksyso/main.go:149-154 | in place: writing the count into zeros makes the whole directory header |
| `ResourceWriter.WriteRoot` | tools/mksyso/main.go:149-152 | in place: the root directory lists every type with its directory's flagged offset |
| `ResourceWriter.WriteTypeDir` | tools/mksyso/main.go:153-158 | in place: a type's directory lists its resources' ids with their directories' flagged offsets |
| `ResourceWriter.WriteTypeDirs` | tools/mksyso/main.go:153-158 | one type directory after the other, each exactly in its place |
| `ResourceWriter.WriteLangDir` | tools/mksyso/main.go:162-164 | in place: one language entry naming the data entry, without the flag |
| `ResourceWriter.WriteDataEntry` | tools/mksyso/main.go:166-168 | in place: offset, size and eight zero bytes |
| `ResourceWriter.WriteLeaf` | tools/mksyso/main.go:161-172 | in place: the resource's directory, data entry and bytes at its three offsets, nothing else |
| `ResourceWriter.WriteLeaves` | tools/mksyso/main.go:160-173 | all resources, and one relocation per data entry in order |
| `ResourceWriter.LeavesAreRegions` | tools/mksyso/main.go:160-173 | writing three regions at once resource by resource leaves the bytes that writing them region by region would |
| `ResourceWriter.BuildSection` | tools/mksyso/main.go:90-173 | the array filled in place is exactly the section of the sorted, grouped resources, and the relocations aim at the data entries |
| `ObjectFile.WriteRelocs` | tools/mksyso/main.go:175-182 | the array holds one ten-byte record per relocation |
| `ObjectFile.WriteSymbol` | tools/mksyso/main.go:184-190 | the array holds the section symbol and its auxiliary record |
| `ObjectFile.WriteFile` | tools/mksyso/main.go:192-226 | headers, section, relocations, symbol and string table in order, with pointers taken from the real lengths |
| `ObjectFile.BuildSyso` | tools/mksyso/main.go:90-227 | the object for a list of resources |
| `ObjectFile.ObjectReadsBack` | tools/mksyso/main.go:175-226 | a COFF reader that follows the pointers finds the section, every relocation and the symbol, and the file ends with the string table |
| `ObjectFile.UnusedFieldsAreZero` | tools/mksyso/main.go:184-226 | every other field of the file header, section header, symbol and auxiliary record is zero |
| `ObjectFile.CountIsKeptIff` | tools/mksyso/main.go:217 | the header's relocation count is right if and only if there are fewer than 65536 |
| `Icons.RelocationsCountedIff` | tools/mksyso/main.go:217 | for the tool's own resources the count is right if and only if images, group and manifest are fewer than 65536 |
| `Icons.LargestIcoIsIco` | tools/mksyso/main.go:68-87 | a file of 65535 empty images is one the tool accepts |
| `Icons.LargestIcoLosesRelocations` | tools/mksyso/main.go:217 | the object it writes for that file has 65536 relocations and claims none |
| `ObjectFile.OneRelocationPerEntry` | tools/mksyso/main.go:160-183 | the object has exactly one relocation per data entry, aimed at its address field |
| `ObjectFile.SysoLoads` | tools/mksyso/main.go:90-227 | from the file's bytes, loaded at any address, a reader finds exactly the given resources, types and ids ascending |
| `Icons.ParseICO` | tools/mksyso/main.go:68-87 | yields the counted entries with their slices, or stops exactly when the type is wrong or an entry or image lies outside the buffer, with the 32-bit sum taken as it wraps |
| `Icons.ImagesHaveTheirSize` | tools/mksyso/main.go:73-85 | a parsed image has exactly the size its entry gives, at the offset it gives: no wrapped sum gets through |
| `Icons.AcceptedIff` | tools/mksyso/main.go:68-87 | exactly the files are taken whose bytes say icon, whose directory lies in the file, and whose images lie in the buffer by plain arithmetic |
| `Icons.BuildGroup` | tools/mksyso/main.go:229-245 | the group's bytes, one 14-byte entry per image |
| `Icons.GroupReadsBack` | tools/mksyso/main.go:229-245 | a reader of the group finds for image i its size and the id i+1 |
| `Icons.GroupCopiesDirectory` | tools/mksyso/main.go:68-87 | an entry of the group is the twelve bytes of the .ico file's directory entry, width to size, and the image's number; the image is cut where that directory says |
| `Icons.MakeSyso` | tools/mksyso/main.go:36-56 | the tool writes the object of icons, group and manifest, or stops exactly where parsing does |
| `Icons.ResourcesAreDistinct` | tools/mksyso/main.go:43-54 | the tool never gives the builder two resources with one type and id |
| `Icons.ParsedAreCut` | tools/mksyso/main.go:68-87 | the parsed images are the slices of the .ico file that its directory gives, as many as it counts |
| `Icons.GroupNamesItsImages` | tools/mksyso/main.go:43-54 | in any ordered list of these resources the group's i-th entry gives the size of image i and the id of the icon resource that holds it |
| `Icons.ManifestIsKept` | tools/mksyso/main.go:48-52 | the manifest is there unchanged, or not at all if none was given |
| `Icons.InOneLanguage` | tools/mksyso/main.go:43-54 | every resource that comes through is in the one language |
| `Icons.IconsComeThrough` | tools/mksyso/main.go:36-245 | through the written file and back, loaded at any address: the i-th group entry names the icon resource that holds the i-th slice of the .ico file, and the manifest is the one given |

## Left out

- The Windows API, WinDivert, checksum calls, sockets, the network and the file system: handles, dials, writes and file
  operations appear as outcomes that may fail; a checksum field is outside what the rewrites are proved about.
- Port tables, process names, the set of live UDP ports, the clock and `time.Now` are inputs; how they are collected
  (`refreshPorts`, `watchSockets`, `pruneSockPorts`, the name caches) is not modelled.
- Interleavings inside one handler, one selection change or one supervisor teardown, except those of handles in
  `DivHandle` and `Generations`: the branch of `handleUDP` for a flow registered by another goroutine during the dial
  (1493-1500) cannot be reached in the model's atomic steps.
- The redirect relay (`serveRedirect`, `handleRedirect`, `pump`) and closing its connections: plain I/O.
- Counters, log lines and the silence bookkeeping of a flow (`lastOut`, `lastIn`, `silentFrom`): nothing depends on them.
- The IPv6 local-address test and the IPv6 owner lookup are inputs of `Engine.Engine.HandleIPv6`.
- `Text` folds and trims ASCII only; the source's functions also fold and trim beyond ASCII.
- Parsing of addresses and prefixes in the rule engine is a parameter (`Rules.Net`), which may accept any strings.
- Swap.Install: equality of checksums is taken as equality of content, and the download as any byte sequence.
- Supervisor.ComesOnOnlyConnected: a tick, a supervision and a reconcile are each taken as one step; the windows inside
  `reconcile` are taken apart in `Closing` (`Closing.ComesOnOnlyConnected`).
- Supervisor.RunStopsOnlyToClose: likewise for the reconcile that `Closing.ReconcileOutlivesClose` shows.
- `panicH` and `udpH`, loaded one after the other at line 1193, are read in one step of `Generations`.
- Icons.ParseICO: the bytes a read buffer may have past the end of the file are arbitrary.
- The packet loop's own test of whether interception still runs (733): a handler may be entered at any time after it, as
  `UdpSafety.Captured` says.
- Engine.Engine.FoldNames: folds and trims ASCII, where the source folds and trims Unicode.
- Rules.Engine.Decide: lower-cases ASCII, where the source lower-cases Unicode.
- ListCache.Download: trims ASCII white space, where the source trims Unicode white space.
- ResourceWriter.BuildSection: requires distinct type and id pairs, as ObjectFile.BuildSyso does.
- ObjectFile.BuildSyso: requires distinct type and id pairs, which the tool's own list always has
  (Icons.ResourcesAreDistinct); with equal pairs the later one takes over the offsets of the earlier.
- The tray, menus, proxy and PAC server, system proxy, access control, service control, IPC, configuration files,
  WireGuard device and application titles: I/O plumbing or single-branch facts.
