# A verified model of the Sophos Firewall integration

The integration polls a firewall over an XML API and SNMP and writes to it. Several of its parts
are stateful protocols. This project models them in Dafny and proves what they promise for every
input and every run.

| files | part |
|---|---|
| `Scheduler.dfy`, `Coordinator.dfy`, `Switches.dfy`, `Polls.dfy` | the polling coordinator as a step system of atomic pieces between two awaits, with the optimistic switches on top, and when it polls an endpoint |
| `Traffic.dfy`, `SnmpDetection.dfy`, `SnmpSessions.dfy` | rates from successive traffic samples; what is concluded over a whole SNMP session, and the same in runs of the coordinator |
| `SnmpTables.dfy` | column walks merged into one OID map, split again and joined by row (section 7.7 of RFC 2578; ifTable and ifXTable of RFC 2863 share ifIndex) |
| `Texts.dfy` | stripping, lower case and decimal numbers |
| `XmlRecords.dfy`, `Groups.dfy` | XML tree to dict to record; edits of group records |
| `Client.dfy`, `ClientEffects.dfy`, `Slot.dfy`, `IpHosts.dfy`, `ClientResults.dfy`, `ClientRuns.dfy`, `ClientMembers.dfy`, `ClientCases.dfy`, `SophosClient.dfy` | the XML client: calls as programs of requests that compete for one slot, and the same calls as straight-line code |
| `EntitySync.dfy`, `EntityHistory.dfy`, `EntityFamilies.dfy`, `EntityRuns.dfy`, `EntityRemovals.dfy`, `EntityReadings.dfy`, `EntityCases.dfy` | dynamic entities against the history of what was read, and what they need of the coordinator |
| `Migration.dfy` | the priority-ordered migration of unique_ids |

Code that changes things in place is a class or a loop here too, each shown to compute a function
on values; the main results are lemmas about those functions over all runs.

The environment is explicit. A request may be served, get lost before or after it was applied, be
refused, be confirmed and ignored, or be answered without a status; the clock does not go back but
may stand still; cycles and calls may be cancelled.

Three places where the code does less than its comments say:

- `_ip_hosts_held` (custom_components/sophos_firewall/sophos_client.py:671-684) takes a bare error
  status for "no host with this address", so `block_ip_in_group` can create a second host for an
  address, which its docstring rules out (698-709). `IpHosts.SecondHostExactly` says exactly when,
  `ClientCases.SecondHostIsCreated` shows one, and `IpHosts.AtMostOneHostIsCreated` is the promise
  for all other runs.
- `block_ip_in_group` (698-737) reports a change although the group stays the same when it had to
  create the host and the group lists the name of the new host already: it returns `True` whatever
  its change closure says. `ClientResults.BlockedDeviceIsMember` proves that this is the only case,
  `ClientCases.ChangeIsReportedWithoutOne` that it is one whenever the requests are served, and
  `ClientCases.ListedNameCase` is an input.
- The streak lookup at custom_components/sophos_firewall/entity.py:309 can fail, because the
  coordinator applies a reading that was invalidated under way without a new time (coordinator.py:368-369).
  `EntityRuns.ListenerFailsExactly` gives the condition over all runs, `EntityCases.FlappingTunnelsFail`
  a run of the whole system that meets it, and `EntityRemovals.StampedRunsNeverFail` the proof that it
  never happens when the readings of the families that trust empty tables have times of their own.
  `EntityReadings.ViewsAreStamped` shows that the coordinator sees to that for every endpoint that is
  not invalidated while it is read, as long as the clock moves. A run of the listener that ends this
  way also loses the new objects it has come across (`EntityFamilies.FailedRunLosesNewObjects`).

Block then unblock does not restore a group record that has an empty list element
(custom_components/sophos_firewall/sophos_client.py:659-660); `Groups.BlockThenUnblockUrl` and
`Groups.BlockThenUnblockHost` say exactly when it does. In a record with two lists only the first
is edited (649-660); `ClientCases.SecondListComesBack` shows what that can do.

## Model

| member | source | states |
|---|---|---|
| `Scheduling.TierScheduler.MarkFetched` | custom_components/sophos_firewall/coordinator.py:189-191 | Notes the time of a successful read for this endpoint and no other. |
| `Scheduling.TierScheduler.Invalidate` | custom_components/sophos_firewall/coordinator.py:193-195 | Afterwards the endpoint is due at any time, in any tier. |
| `Scheduling.LastIsLatestRead` | custom_components/sophos_firewall/coordinator.py:182-191 | For an endpoint that always succeeds, the scheduler holds the end of the latest run that read it. |
| `Scheduling.SuccessiveReads` | custom_components/sophos_firewall/coordinator.py:177-191 | Two successive reads are at least interval − base/2 apart (end to start) and, with runs at most `gap` apart, at most interval − base/2 + gap. |
| `Scheduling.OverdueIsRead` | custom_components/sophos_firewall/coordinator.py:182-187 | Once interval − base/2 has passed, some run up to then has read the endpoint: no run is skipped. |
| `Scheduling.RealtimeReadsEveryRun` | custom_components/sophos_firewall/coordinator.py:164-170 | The realtime tier is read on every run that starts at least half a base interval after the previous one ended, however the runs jitter. |
| `Scheduling.DueIsMonotone` | custom_components/sophos_firewall/coordinator.py:182-187 | Once due, an endpoint stays due until it is read. |
| `Polls.PolledExactlyWhenDue` | custom_components/sophos_firewall/coordinator.py:339-371 | Over every run of the system: after a cycle that read an endpoint, and until it is read or invalidated again, a cycle asks for it exactly when it is enabled and the cycle begins its interval less half the realtime interval, or more, after the end of that cycle. |
| `Coordinators.RaisedCycleKeepsReadings` | custom_components/sophos_firewall/coordinator.py:339-397 | A cycle that ends in an outage or without any data leaves data, times, generations and the traffic sample as they were; what was due is still due at any later time. |
| `Coordinators.FinishForOne` | custom_components/sophos_firewall/coordinator.py:366-397 | What the end of a cycle does to one endpoint: data only if it was read, a fetch time only if it was also not invalidated since the cycle began, both equal in scheduler and `fetched_at`. |
| `Coordinators.FinishLogs` | custom_components/sophos_firewall/coordinator.py:373-379 | Which endpoints get a failure or a recovery line at the end of a cycle, and how the failure marks move with them. |
| `Coordinators.BeginPicksTheDue` | custom_components/sophos_firewall/coordinator.py:339-355 | A cycle asks for exactly the endpoints that are due, each once; a restricted one holds back exactly those that are not among its keys, if some due one is. |
| `Coordinators.DeliverLosesNothing` | custom_components/sophos_firewall/coordinator.py:399-415 | An answer moves its endpoint from pending to exactly one of read and failed. |
| `Coordinators.SettleLosesNothing` | custom_components/sophos_firewall/coordinator.py:357-364 | The one retry after rejected credentials and the fallback of a restricted refresh lose and duplicate no endpoint; a batch that completes reports each of them once, as read or as failed. |
| `Coordinators.SophosCoordinator.Invalidate` | custom_components/sophos_firewall/coordinator.py:286-295 | Drops the scheduler entry and raises the generation of each given key; everything else is unchanged. |
| `Coordinators.SophosCoordinator.BeginCycle` | custom_components/sophos_firewall/coordinator.py:339-355 | Picks exactly the configured, enabled and due endpoints; a restricted refresh reads the due ones among its keys first and holds the rest back. |
| `Coordinators.SophosCoordinator.SetEndpointState` | custom_components/sophos_firewall/coordinator.py:430-450 | A failure is logged once until its recovery is, a recovery only after a logged failure, and nothing during an outage. |
| `Coordinators.SophosCoordinator.MarkFetched` | custom_components/sophos_firewall/coordinator.py:366-371 | The loop stamps exactly the endpoints read whose generation did not move, in both tables. |
| `Coordinators.SophosCoordinator.MarkAvailable` | custom_components/sophos_firewall/coordinator.py:376-377 | Every endpoint read is available, its failure mark is gone, and exactly the marked ones are logged. |
| `Coordinators.SophosCoordinator.MarkFailed` | custom_components/sophos_firewall/coordinator.py:378-379 | Every failed endpoint is unavailable; unless the whole source is down, exactly the unmarked ones are logged and marked. |
| `Coordinators.SophosCoordinator.FinishCycle` | custom_components/sophos_firewall/coordinator.py:366-397 | The whole end of a cycle in place equals the function whose properties are proved for all runs. |
| `Coordinators.AnyOrderOfAnswers` | custom_components/sophos_firewall/coordinator.py:399-415 | Concurrent requests: in whatever order the answers of a batch arrive, the cycle is the same. |
| `Coordinators.CyclesEnd` | custom_components/sophos_firewall/coordinator.py:357-364 | Every cycle is settled after at most four batches: the first, its retry, the endpoints held back, their retry. |
| `Coordinators.CycleEndsBy` | custom_components/sophos_firewall/coordinator.py:488-525 | From the answers alone: a cycle raises rejected credentials exactly when an endpoint that was asked again was rejected again, and denied access exactly when none was and some last answer is that; the SNMP source never. Else it ends with the last answer of every endpoint it asked, and asks those held back exactly when the others brought only errors, not all of the connection. |
| `Coordinators.FinishRaises` | custom_components/sophos_firewall/coordinator.py:381-394 | The end of a cycle raises "unreachable" exactly when there are errors only, all of the connection, and "no data" exactly when there never was any and other errors keep it so. |
| `Coordinators.FinishAvailability` | custom_components/sophos_firewall/coordinator.py:376-379 | An endpoint that was read is available, one that failed is not, every other is as before. |
| `Coordinators.SophosCoordinator.Fetch` | custom_components/sophos_firewall/coordinator.py:399-415 | The loop sorts the answers of exactly the endpoints asked for into read and failed. |
| `Coordinators.SophosCoordinator.HandleFailures` | custom_components/sophos_firewall/coordinator.py:488-525 | The XML hook in place is the step that the system model takes: one retry of exactly the rejected endpoints, then rejected credentials or denied access raise; the SNMP source has no hook. |
| `Coordinators.SophosCoordinator.Batches` | custom_components/sophos_firewall/coordinator.py:357-364 | All requests of a cycle in straight-line code end as the system model says for the same answers. |
| `Coordinators.SophosCoordinator.Update` | custom_components/sophos_firewall/coordinator.py:339-397 | The whole update in place: nothing when nothing is due; when it raises before the end only other tasks' invalidations show; else exactly the end of the cycle on the endpoints read and failed, with endpoints invalidated under way left unstamped. |
| `Switches.WriteSwitch.HandleCoordinatorUpdate` | custom_components/sophos_firewall/switch.py:137-144 | Drops the overlay exactly when the endpoint was read at a time strictly after the write. |
| `Switches.WriteSwitch.WriteAnswered` | custom_components/sophos_firewall/switch.py:152-166 | A confirmed write overlays the value and the time; confirmed or not, the endpoint is invalidated. |
| `Switches.NextKeeps` | custom_components/sophos_firewall/coordinator.py:339-397 | The invariant of the whole system (cycles, retries, writes, invalidations, listener calls, clock) is kept by every atomic step. |
| `Switches.SwitchNeverShowsAnOlderState` | custom_components/sophos_firewall/switch.py:137-166 | In every reachable state a switch with a confirmed write shows what it wrote last, or a state the firewall really had after that write was confirmed, read by a cycle that began after it; a standing clock does not break this. |
| `Switches.UndisturbedWriteStaysVisible` | custom_components/sophos_firewall/switch.py:152-166 | If nobody changes the object after a confirmed write, the switch shows the written value in every later state, whatever cycles and failures happen. |
| `Switches.OverlayEnds` | custom_components/sophos_firewall/switch.py:137-144 | Once the endpoint counts as read after the write, the next listener call drops the overlay, whatever happened in between except a new write of this switch. |
| `Switches.InvalidationIsNeverLost` | custom_components/sophos_firewall/coordinator.py:286-295 | An invalidated endpoint stays due until a cycle that began later has read it; the scheduler never holds a time that `fetched_at` does not. |
| `Switches.WrittenIsReadAgain` | custom_components/sophos_firewall/switch.py:152-166 | After a write, failed or confirmed, the endpoint is due in any tier at any time until a cycle that began after the write has read it. |
| `Switches.ReadingsOnlyMoveForward` | custom_components/sophos_firewall/coordinator.py:334-397 | Once read, the data of a key is only ever replaced by what a later cycle read later. |
| `Switches.RaisingCycleKeepsReadings` | custom_components/sophos_firewall/coordinator.py:339-397 | However a cycle raises (rejected credentials, denied access, outage, empty first refresh), data, times, generations and the traffic sample are untouched and nothing due is lost. |
| `Switches.CyclesReadEachOnce` | custom_components/sophos_firewall/coordinator.py:357-364 | In every reachable cycle each endpoint is in exactly one place: pending, held back, read or failed. |
| `Switches.MergeLogs` | custom_components/sophos_firewall/coordinator.py:373-379 | The end of a cycle adds at most one log line per endpoint, and none when the whole source is down. |
| `Switches.LoggedFailuresAlternate` | custom_components/sophos_firewall/coordinator.py:430-450 | Over every run the log of an endpoint alternates failure and recovery, failure first. |
| `Traffic.TrafficRates` | custom_components/sophos_firewall/coordinator.py:572-586 | The loop gives every interface of the new sample its counters and its rates, and no other interface. |
| `Traffic.TrafficPreparer.Prepare` | custom_components/sophos_firewall/coordinator.py:641-652 | Rates against the stored sample, which a successful walk replaces and a failed one keeps. |
| `Traffic.RateIsMeasured` | custom_components/sophos_firewall/coordinator.py:559-569 | A rate exists exactly when both counters are known, did not go back and are a second apart; it is never negative and within 0.05 bit/s of the exact quotient. |
| `Traffic.PublishedRateIsPrepared` | custom_components/sophos_firewall/coordinator.py:572-586 | Walk k publishes its own counters and, for each direction, the rate of that direction against the samples before it. |
| `Traffic.RoundedToTenths` | custom_components/sophos_firewall/coordinator.py:569 | A published rate is the nearest number of tenths, the even one of two as near. |
| `Traffic.RatesConserveTraffic` | custom_components/sophos_firewall/coordinator.py:559-586 | Conservation: over any walks, failed ones included, rates times elapsed times add up to eight times the growth of the counter, to within 0.05 times the elapsed seconds. |
| `SnmpDetection.UnreachableWatch.Refreshed` | custom_components/sophos_firewall/coordinator.py:615-639 | One refresh, raised or returned: counts failures before the first answer, raises and clears the issue. |
| `SnmpDetection.IssueMeansNeverAnswered` | custom_components/sophos_firewall/coordinator.py:615-639 | Over any list of refreshes the issue is open exactly while none found an endpoint available, three or more raised, and the last of these came 600 s or more after the first. |
| `Coordinators.SophosCoordinator.AfterUpdate` | custom_components/sophos_firewall/coordinator.py:654-677 | One successful cycle in place: the verdict about hardware sensors, and the endpoint disabled with the verdict "virtual". |
| `SnmpDetection.VirtualMeansThreeEmptyReads` | custom_components/sophos_firewall/coordinator.py:654-677 | The appliance counts as virtual exactly when the first three successful reads are all empty; both verdicts are final. |
| `SnmpSessions.IssueMeansNothingRead` | custom_components/sophos_firewall/coordinator.py:615-639 | Over every run of the system: the issue is open exactly while no cycle has read any endpoint, three or more updates raised, and the last of these came 600 s or more after the first. |
| `SnmpSessions.HealthIsPolledUntilThreeEmptyReads` | custom_components/sophos_firewall/coordinator.py:452-454 | Over every run: the sensors are disabled exactly when the first three successful reads of them were all empty; then they are due at no time and in no running cycle. |
| `SnmpSessions.VerdictIsFinal` | custom_components/sophos_firewall/coordinator.py:654-677 | Once disabled they stay disabled and are not read again, whatever happens. |
| `SnmpSessions.SampleIsTheLastRead` | custom_components/sophos_firewall/coordinator.py:641-652 | Over every run: the stored sample is the last traffic reading, and what is published are the rates of that reading against the one before it. |
| `SnmpSessions.RunConservesTraffic` | custom_components/sophos_firewall/coordinator.py:559-586 | So conservation holds in every run: the published rates times the elapsed times add up to eight times the growth of the counter in the stored sample. |
| `SnmpTables.TableColumn` | custom_components/sophos_firewall/snmp_client.py:216-241 | The rows are exactly those named by an OID of this column with a proper index, each with a value found under it. |
| `SnmpTables.ColumnRowsAre` | custom_components/sophos_firewall/snmp_client.py:216-241 | The rows of a column, read off the whole OID: table, 1, column and index; the index is digits, or for a compound index digits between single dots. |
| `SnmpTables.LeadingDot` | custom_components/sophos_firewall/snmp_client.py:231 | A dot in front of the OID does not matter. |
| `SnmpTables.PrefixesDiffer` | custom_components/sophos_firewall/snmp_client.py:228-234 | No column prefix begins another one, columns 1 and 10 included. |
| `SnmpTables.DemultiplexingRoundTrip` | custom_components/sophos_firewall/snmp_client.py:463-491 | Merging any walks of distinct columns and splitting the merged map gives back exactly each column's rows with a proper index. |
| `SnmpTables.SortIndexes` | custom_components/sophos_firewall/snmp_client.py:632 | The row indexes in the order of the numbers they are read as, none lost. |
| `Texts.DecimalExactly` | custom_components/sophos_firewall/snmp_client.py:632 | Digits are read as a number exactly when they are that number as it is printed in base ten, zeros in front aside. |
| `SnmpTables.JoinByName` | custom_components/sophos_firewall/snmp_client.py:631-639 | A left join of the name column with the others; of several rows with one name the numerically lowest wins; unnamed and internal rows are left out. |
| `SnmpTables.LowestRowWins` | custom_components/sophos_firewall/snmp_client.py:631-639 | A name has the record of its row with the lowest number, told by the printed indexes; names left out and names without a row have none. |
| `SnmpTables.GetLinks` | custom_components/sophos_firewall/snmp_client.py:641-662 | From the columns the agent answered, through both flat maps, one link per named interface: the row of that name with the lowest ifIndex. |
| `SnmpTables.LinkOfLowestRow` | custom_components/sophos_firewall/snmp_client.py:652-662 | Read off the walks: a name has the admin state of its lowest row in the first state column and the oper state in the second, whatever either column lacks. |
| `SnmpTables.GetTraffic` | custom_components/sophos_firewall/snmp_client.py:616-639 | From three columns that came back in one flat map, one pair of counters per named interface: the row of that name with the lowest ifIndex. |
| `SnmpTables.CountersOfLowestRow` | custom_components/sophos_firewall/snmp_client.py:627-639 | Read off the walks: a name has as octets in those of its lowest row in the first counter column, and as octets out those in the second. |
| `XmlRecords.ElemToDict` | custom_components/sophos_firewall/sophos_client.py:133-147 | The recursive loop computes the grouping of children by tag. |
| `Texts.StripSplits` | custom_components/sophos_firewall/sophos_client.py:150-160 | Stripping takes away the whitespace at both ends, all of it and nothing else. |
| `Texts.LowerLetters` | custom_components/sophos_firewall/sophos_client.py:629 | Lower case: each capital becomes the small letter at its place in the alphabet, all else stays. |
| `XmlRecords.SiblingsAreGrouped` | custom_components/sophos_firewall/sophos_client.py:133-147 | Repeated siblings become one flat list of two or more values in document order, a single one stands alone, nothing else appears. |
| `XmlRecords.ParseDhcpServer` | custom_components/sophos_firewall/sophos_client.py:250-287 | The loop over the leases builds the server of the dict: none without a name, else its fields and one normalised lease per record in the lease list. |
| `XmlRecords.ServerMatchesTheTree` | custom_components/sophos_firewall/sophos_client.py:250-287 | Read off the tree: name, status, interface, default and maximum lease time are the stripped texts of the only leaves so named, the times as the printed numbers they are; the leases are those of the tree. |
| `XmlRecords.LeasesMatchTheTree` | custom_components/sophos_firewall/sophos_client.py:250-287 | Through the dict, whatever shape repeated elements take, a server has exactly the leases of the tree: one per `Lease` with children of the only `StaticLease`, in document order. |
| `Groups.RemoveEach` | custom_components/sophos_firewall/sophos_client.py:657-658 | Removing the hits one by one leaves the others in order. |
| `Groups.RecordEdit.Remove` | custom_components/sophos_firewall/sophos_client.py:656-660 | Takes the hits out of the first list of the record and the list itself when nothing is left of it. |
| `Groups.RecordEdit.SetUrl` | custom_components/sophos_firewall/sophos_client.py:641-662 | Adds or removes a domain in place; the result says whether its membership changed; a built-in group is refused unchanged. |
| `Groups.RecordEdit.AddHost` | custom_components/sophos_firewall/sophos_client.py:719-731 | Puts a host into the group in place, a new list before the family; says whether something changed; refuses other families. |
| `Groups.RecordEdit.RemoveHosts` | custom_components/sophos_firewall/sophos_client.py:750-763 | Takes all these hosts out in place and names the members taken. |
| `Groups.HostIsPlaced` | custom_components/sophos_firewall/sophos_client.py:719-731 | Element by element: a host goes behind the members of the first list; a group without a list gets one with just this host directly before the family, or at the end; every other element stays where it was. |
| `Groups.UrlIsPlaced` | custom_components/sophos_firewall/sophos_client.py:649-655 | Element by element: a domain goes, stripped and in lower case, behind the members of the first list in whatever spelling, or into a new list at the end of the record, unless it is there in any spelling. |
| `Groups.HostsLeave` | custom_components/sophos_firewall/sophos_client.py:750-763 | Element by element: the hosts leave the first list, which goes when nothing is left in it; every other element stays where it was. |
| `Groups.TakenOutAreNamed` | custom_components/sophos_firewall/sophos_client.py:750-763 | The reply names each of the hosts that was a member and no other, once per entry taken out. |
| `Groups.MayBeEdited` | custom_components/sophos_firewall/sophos_client.py:643-647 | An IP host group of another family than IPv4 may not be edited, one without a family may; a URL group may unless it says that it is built in. |
| `Groups.BlockAddsOnlyTheUrl` | custom_components/sophos_firewall/sophos_client.py:649-655 | After blocking, exactly this domain is new in the group, and the record outside the list is the same. |
| `Groups.UnblockRemovesOnlyTheUrl` | custom_components/sophos_firewall/sophos_client.py:656-662 | After unblocking, exactly this domain is gone from the list, in every spelling, exactly unless that empties the list and a second list takes its place; the rest of the record is the same. |
| `Groups.BlockAddsOnlyTheHost` | custom_components/sophos_firewall/sophos_client.py:719-731 | Exactly this host is new in the group; the rest of the record is the same. |
| `Groups.UnblockRemovesOnlyTheHosts` | custom_components/sophos_firewall/sophos_client.py:750-763 | Exactly these hosts are gone, exactly unless that empties the list and a second list takes its place; the rest of the record is the same. |
| `Groups.AddThenDropIsIdentity` | custom_components/sophos_firewall/sophos_client.py:641-662 | Adding and dropping a member gives back the record, element order included, exactly when no member met the test before and the record had no empty list. |
| `Groups.BlockThenUnblockUrl` | custom_components/sophos_firewall/sophos_client.py:619-667 | Block then unblock is the identity on a URL group exactly when the domain was not in it and it had no empty list element. |
| `Groups.BlockThenUnblockHost` | custom_components/sophos_firewall/sophos_client.py:698-769 | Block then unblock is the identity on an IP host group exactly when none of the address's hosts was in it and it had no empty list element. |
| `Client.ReadAnswer` | custom_components/sophos_firewall/sophos_client.py:355-376 | A read never changes the firewall; it answers with the records, with a bare error status, or with a failure. |
| `Client.DeniedReadFindsNothing` | custom_components/sophos_firewall/sophos_client.py:447-465 | In a bare error status no record is found, and no host: the search for hosts reads it as "none". |
| `Client.ExecStaysUpToDate` | custom_components/sophos_firewall/sophos_client.py:542-578 | While a call holds the slot, what it has read is what the firewall has, and its writes are the ones it was called for. |
| `Client.CallsEnd` | custom_components/sophos_firewall/sophos_client.py:698-737 | A call holds the slot for six requests at most, whatever happens to them. |
| `ClientEffects.WhatIsFound` | custom_components/sophos_firewall/sophos_client.py:447-465 | Looking a name up: the record when there is one, else an error of the API when some record is a bare status with a code, else "not found". |
| `ClientEffects.SuccessCodesAre` | custom_components/sophos_firewall/sophos_client.py:79-81 | A write is confirmed by exactly the printed numbers from 200 to 299. |
| `ClientEffects.OneFieldChanges` | custom_components/sophos_firewall/sophos_client.py:580-603 | A status or default action is changed in place: one text is new and every other part of the record is sent back as it was read. |
| `ClientEffects.EditKeepsName` | custom_components/sophos_firewall/sophos_client.py:542-578 | No edit changes the name of the record, so the write replaces the record that was read. |
| `ClientEffects.OtherTypesUnchanged` | custom_components/sophos_firewall/sophos_client.py:542-578 | A request changes the records of at most the one type it writes. |
| `ClientEffects.ExecKeepsField` | custom_components/sophos_firewall/sophos_client.py:580-603 | Whatever happens to its requests, a call leaves the status of every rule and the default action of every policy alone, except the one it was made for, which it sets to the given value or leaves. |
| `Slot.Serialisable` | custom_components/sophos_firewall/sophos_client.py:355-376 | For any number of overlapping polls and updates, lost answers and cancellations: the firewall, every result and the progress of the running call are those of running the calls one after another in the order in which they got the slot; the slot is never lost and never held twice. |
| `ClientResults.ModifyReachesStage` | custom_components/sophos_firewall/sophos_client.py:542-578 | Read, change, write, read back under any outcomes: nothing or the whole edited record is written; a success returns the edit's reply and, for verified changes whose read-back was answered, the change is there. |
| `ClientResults.PollResult` | custom_components/sophos_firewall/sophos_client.py:431-440 | A poll returns the records it finds that have children and are no bare status, and changes nothing; a bare error status reads as no records. |
| `ClientResults.UpdateIsThere` | custom_components/sophos_firewall/sophos_client.py:580-615 | A successful status or default-action call has set the field, if the firewall did not confirm a write it ignored. |
| `ClientResults.GroupIsRefused` | custom_components/sophos_firewall/sophos_client.py:642-647 | A built-in URL group is refused with code 528 and a group of another family without a code; nothing is written. |
| `ClientResults.NothingToWrite` | custom_components/sophos_firewall/sophos_client.py:557-559 | A membership that is as wanted already ends the call after the read, without a write. |
| `ClientResults.WriteIsAnswered` | custom_components/sophos_firewall/sophos_client.py:510-578 | A write that is refused ends with its code, one that is lost with that error, one without a status as unconfirmed; a confirmed one succeeds, even when reading it back fails. |
| `ClientResults.IgnoredWriteIsNoticed` | custom_components/sophos_firewall/sophos_client.py:557-578 | A membership change that the firewall confirms and does not carry out ends in `not_applied`. |
| `ClientResults.UrlCallResult` | custom_components/sophos_firewall/sophos_client.py:619-667 | All or nothing is written; `changed` is true exactly when the domain's membership had to change; after a success the group has the domain as wanted, even if the firewall confirms writes it ignores, unless the read-back failed. |
| `ClientResults.BlockedDeviceIsMember` | custom_components/sophos_firewall/sophos_client.py:698-737 | A successful block with readable answers: the group has the returned host, which is the first of the address's hosts that is a member, else the first of them, else the new one; the host has the address, and `changed` is true exactly when no host of the address was a member; it is true exactly when the members of the group changed, exactly unless the call had to create a host whose name the group lists already. |
| `ClientResults.UnblockedDeviceIsNoMember` | custom_components/sophos_firewall/sophos_client.py:739-769 | A successful unblock with readable answers: none of the address's hosts is left in the group, the result names the members taken out and is empty exactly when the members did not change, and the hosts themselves stay. |
| `ClientRuns.PollsSeeWholeCalls` | custom_components/sophos_firewall/sophos_client.py:355-376 | No poll observes the firewall between two requests of one call: its records are those after the whole calls that had the slot before it. |
| `ClientRuns.NoUpdateIsLost` | custom_components/sophos_firewall/sophos_client.py:580-603 | A confirmed status or default action is what the firewall has, in the middle of other calls too, until another call writes the same field of the same record. |
| `ClientRuns.BlockedSiteStaysBlocked` | custom_components/sophos_firewall/sophos_client.py:619-667 | A site that was blocked is in its group in every later state, in the middle of other calls too, until another call edits that domain in that group. |
| `ClientMembers.BlockedDeviceStaysMember` | custom_components/sophos_firewall/sophos_client.py:698-769 | A device that a successful block put into a group is a member in every later state, in the middle of other calls too, until a call unblocks in that group an address its host then has. |
| `ClientMembers.UnblockedSiteStaysOut` | custom_components/sophos_firewall/sophos_client.py:619-667 | A site that was unblocked is nowhere in its group in every later state, in the middle of other calls too, until a call blocks it again; unless the record had it in a second list as well. |
| `ClientCases.SecondHostIsCreated` | custom_components/sophos_firewall/sophos_client.py:671-684 | A firewall, a call and outcomes that end with two hosts for one address. |
| `ClientCases.ChangeIsReportedWithoutOne` | custom_components/sophos_firewall/sophos_client.py:715-731 | Every call that has to create a host, in a group that lists its name already, reports a change and leaves the group as it was. |
| `ClientCases.ListedNameCase` | custom_components/sophos_firewall/sophos_client.py:715-731 | A firewall and a call of this kind. |
| `ClientCases.SecondListComesBack` | custom_components/sophos_firewall/sophos_client.py:656-660 | A record with two lists in which a site that was unblocked is blocked again when another one is unblocked. |
| `IpHosts.HostsAfterCall` | custom_components/sophos_firewall/sophos_client.py:671-737 | A call adds one IP host or none, and adds one exactly when the group was found and is IPv4, the search found no host, and the addition was applied to a free name, lost answers included. |
| `IpHosts.SecondHostExactly` | custom_components/sophos_firewall/sophos_client.py:671-684 | A second host for an address that has one is created exactly when the search for hosts is answered by a bare error status (and the group passes and the addition is applied). |
| `IpHosts.AtMostOneHostIsCreated` | custom_components/sophos_firewall/sophos_client.py:698-737 | In every reachable state of any overlapping calls whose searches were not answered that way: an address keeps the hosts it had, or has at most one. |
| `IpHosts.WrongGroupCreatesNone` | custom_components/sophos_firewall/sophos_client.py:710-713 | A call for a missing or non-IPv4 group leaves no host behind, whatever happens to its requests. |
| `IpHosts.RecordAddress` | custom_components/sophos_firewall/sophos_client.py:771-783 | The record of a new host: its address, of type IP and family IPv4. |
| `IpHosts.HostNamesAre` | custom_components/sophos_firewall/sophos_client.py:671-684 | The search for an address names exactly the named records of type IP with this address, status answers aside. |
| `SophosClients.SophosClient.Post` | custom_components/sophos_firewall/sophos_client.py:355-376 | One request; it takes and gives back the slot itself unless the caller holds it. |
| `SophosClients.SophosClient.Edit` | custom_components/sophos_firewall/sophos_client.py:596-601 | The change closures, editing the record in place, do what the specification of the change says. |
| `SophosClients.SophosClient.ModifyRecordHeld` | custom_components/sophos_firewall/sophos_client.py:542-578 | The straight-line code takes the program of a change from its read to its result, for every outcome of every request. |
| `SophosClients.SophosClient.ModifyRecord` | custom_components/sophos_firewall/sophos_client.py:527-540 | The same in a slot of its own, which is free again on every path. |
| `SophosClients.SophosClient.SetFirewallRuleStatus` | custom_components/sophos_firewall/sophos_client.py:605-609 | Does what its operation does as a program; the slot is free again. |
| `SophosClients.SophosClient.SetWebFilterDefaultAction` | custom_components/sophos_firewall/sophos_client.py:611-615 | Does what its operation does as a program; the slot is free again. |
| `SophosClients.SophosClient.SetUrlInGroup` | custom_components/sophos_firewall/sophos_client.py:619-667 | Does what its operation does as a program; the slot is free again. |
| `SophosClients.SophosClient.IpHostsHeld` | custom_components/sophos_firewall/sophos_client.py:671-684 | The search for the hosts of an address inside a running operation. |
| `SophosClients.SophosClient.AddIpHostHeld` | custom_components/sophos_firewall/sophos_client.py:771-792 | The addition of a host inside a running operation. |
| `SophosClients.SophosClient.BlockIpInGroup` | custom_components/sophos_firewall/sophos_client.py:698-737 | Does what its operation does as a program; the slot is free again on every path. |
| `SophosClients.SophosClient.UnblockIpInGroup` | custom_components/sophos_firewall/sophos_client.py:739-769 | Does what its operation does as a program; the slot is free again on every path. |
| `SophosClients.SophosClient.GetRecords` | custom_components/sophos_firewall/sophos_client.py:431-440 | A poll takes the slot for its one request. |
| `EntitySync.EntityRegistry.RemoveStale` | custom_components/sophos_firewall/entity.py:44-82 | Removes exactly the family's entries that are not current, all of them on request, and none for an empty result alone. |
| `EntitySync.DynamicEntities.StillConfirming` | custom_components/sophos_firewall/entity.py:267-284 | The loop counts each absent registered suffix once per fetch, keeps those below three and forgets present ones. |
| `EntitySync.DynamicEntities.SyncFamily` | custom_components/sophos_firewall/entity.py:291-319 | One family in place, the failing lookup included, equals the function whose history is proved. |
| `EntitySync.DynamicEntities.Sync` | custom_components/sophos_firewall/entity.py:286-321 | One run of the listener in place; new entities are handed over at the end, or none when a lookup failed. |
| `EntityHistory.GuardStopsNothingDue` | custom_components/sophos_firewall/entity.py:65-67 | With `trust_empty` and `confirm_missing` the guard against an empty result never stops a removal that is due. |
| `EntityHistory.RemovesExactlyDue` | custom_components/sophos_firewall/entity.py:297-319 | What a run removes is exactly what is due by the history of readings, for every kind of family. |
| `EntityHistory.SyncStaysFaithful` | custom_components/sophos_firewall/entity.py:297-319 | Every run keeps the five tables in agreement with the history: streaks are counts of trailing readings, recent objects are registered, nothing is overdue. |
| `EntityFamilies.FamiliesAreIsolated` | custom_components/sophos_firewall/entity.py:291-319 | Families with prefix-free names: a run over all of them, one that a failing lookup ends early included, does to each one's entities and counters what a run for it alone would do, or nothing if it was not reached. |
| `EntityFamilies.UnseenFamilyIsUntouched` | custom_components/sophos_firewall/entity.py:290-296 | A family whose endpoint failed last time, or was never read, is not touched, whatever the endpoint showed before. |
| `EntityFamilies.FailedRunLosesNewObjects` | custom_components/sophos_firewall/entity.py:297-321 | A run that the failing lookup ends loses the new objects of the families before: they are never handed over while they stay known. |
| `EntityFamilies.OtherSetupTouchesNothing` | custom_components/sophos_firewall/entity.py:69-81 | Families of another setup on the platform leave these entities alone. |
| `EntityFamilies.OtherPlatformTouchesNothing` | custom_components/sophos_firewall/entity.py:73-74 | Families of another platform leave these entities alone, whatever their prefixes. |
| `EntityFamilies.FamiliesInUseAreIsolated` | custom_components/sophos_firewall/sensor.py:373-428 | The families of the sensor, binary sensor and switch platforms are prefix-free, with whatever flags. |
| `EntityRuns.RunFollows` | custom_components/sophos_firewall/entity.py:286-321 | Over every run, with whatever times, failed lookups and edits from elsewhere: the fetch times and the empty streak of each family are what its readings say, and no object has a longer streak than its absences. |
| `EntityRuns.ListenerFailsExactly` | custom_components/sophos_firewall/entity.py:304-309 | Over every run: the listener's next run ends in the failing lookup exactly when some family that trusts empty tables meets an empty reading with the time of its latest earlier empty reading (none, if there was none) and no empty reading since the last non-empty one came at a new time. |
| `EntityRuns.UnstampedFirstReadingFails` | custom_components/sophos_firewall/entity.py:304-309 | An empty first reading without a time fails at once. |
| `EntityRuns.RemovalHasEvidence` | custom_components/sophos_firewall/entity.py:297-319 | Over every run: what the listener removes was absent from the reading, and there were three counted absences in a row for `confirm_missing`, three counted empty readings in a row for `trust_empty`, or a reading with other objects for a family that does not confirm. |
| `EntityRuns.HardwareIsKept` | custom_components/sophos_firewall/entity.py:301-302 | Over every run a family with `remove_stale=False` loses no entity to the listener. |
| `EntityRuns.AddedOnce` | custom_components/sophos_firewall/entity.py:297-300 | Over every run an object is handed over for a new entity only if it never was before or the listener has removed its entity since. |
| `EntityRuns.NewObjectIsAdded` | custom_components/sophos_firewall/entity.py:297-321 | Over every run: an object that shows up for the first time is handed over for an entity in that very run, registered from an earlier session or not, when no lookup fails. |
| `EntityRemovals.CountersAgreeWithHistory` | custom_components/sophos_firewall/entity.py:286-321 | Over every completed run in which the readings of one family have times of their own: its counters agree with the history of its readings, whatever the times of the other families. |
| `EntityRemovals.RemovedExactlyWhenDue` | custom_components/sophos_firewall/entity.py:297-319 | Over every such run an entity of the family disappears exactly when its removal is due by the plain history, and every object read has one. |
| `EntityRemovals.RemovedAfterThreeAbsences` | custom_components/sophos_firewall/entity.py:267-319 | For families with both flags: a registered entity is removed exactly when its object was absent from the last three distinct readings. |
| `EntityRemovals.EmptiedAfterThreeEmptyReadings` | custom_components/sophos_firewall/entity.py:303-319 | For families that only trust empty tables: an empty reading removes a registered entity exactly when it is the third in a row. |
| `EntityRemovals.StampedRunsNeverFail` | custom_components/sophos_firewall/entity.py:304-309 | When the readings of the families that trust empty tables have times of their own, no lookup fails in the whole run. |
| `EntityCases.FlappingTunnelsFail` | custom_components/sophos_firewall/coordinator.py:366-371 | A run of the whole system, with an IPsec switch that is written during three re-reads, on whose readings the listener's fourth run ends in the failing lookup. |
| `EntityReadings.RunTimeTells` | custom_components/sophos_firewall/coordinator.py:366-371 | Over any stretch of a run in which each reading of an endpoint is not invalidated under way and comes at a new clock time: `fetched_at` only grows, and the same time means the same reading. |
| `EntityReadings.ViewsAreStamped` | custom_components/sophos_firewall/coordinator.py:282-284 | Then the views of the entity listener are what the dynamic entities rely on, however often and late the listener runs. |
| `EntityReadings.AvailabilityFollowsAnswers` | custom_components/sophos_firewall/coordinator.py:278-284 | What the listener sees as available: at the end of a cycle exactly the endpoints it has read, not those that failed, and the others as before. |
| `Migration.PlanMigration` | custom_components/sophos_firewall/__init__.py:244-257 | The plan in registry order; unrecognised leftovers are gone, nothing else is. |
| `Migration.MigrateOne` | custom_components/sophos_firewall/__init__.py:259-264 | One rename or removal; unique_ids never clash in between. |
| `Migration.MigrateUniqueIds` | custom_components/sophos_firewall/__init__.py:234-266 | The whole migration in place ends in the registry described by rank. |
| `Migration.MigratedOnStrings` | custom_components/sophos_firewall/__init__.py:244-257 | On strings: a new id stays; host_port_suffix of the current address, or of any other without underscore and with a decimal port, becomes entry_suffix if the entity survives; an id of neither shape goes. |
| `Migration.CurrentAddressSurvives` | custom_components/sophos_firewall/__init__.py:258-264 | An entity of the current address survives exactly when nobody has its new id already. |
| `Migration.OrphanSurvives` | custom_components/sophos_firewall/__init__.py:258-264 | An entity of another address survives exactly when nobody has its new id, no entity of the current address stands for it, and no earlier orphan in the registry does. |
| `Migration.MigratedIsUnique` | custom_components/sophos_firewall/__init__.py:234-266 | No two entities share a unique_id afterwards. |
| `Migration.EveryEntityHasOneHeir` | custom_components/sophos_firewall/__init__.py:258-264 | For every domain and suffix represented before, exactly one entity has it afterwards under its old entity_id: the new-form one, else the current-address one, else the first orphan. |
| `Migration.OnlyNewFormsRemain` | custom_components/sophos_firewall/__init__.py:245-257 | All surviving ids of the entry are new-form and mean what they meant; other config entries are untouched. |
| `Migration.MigratingTwiceIsMigratingOnce` | custom_components/sophos_firewall/__init__.py:237-240 | Running it again changes nothing. |

## Left out

- Home Assistant plumbing: config flow, device registry, diagnostics, issue texts, translations, service schemas, listener scheduling.
- HTTP and UDP transport, sessions, time limits and XML text (escaping, parsing, tails): a request is one step with an outcome. A lost request is applied at once or never, not later.
- An editor of the firewall other than this client: while a call runs, records change through the client only. (The switch model does let the firewall change at any step.)
- `set_wireless_network_status`, `set_ipsec_connection_active` and the other record parsers: single requests and one-branch facts.
- Client.FindRecord: `root.iter` also finds records nested in records of the same tag; the model looks at the records themselves.
- Texts.Strip, Texts.Lower and Texts.IsDigits: ASCII only.
- Groups.RecordEdit.SetUrl: the record is a value in a field of the edit; aliasing between nodes of one ElementTree is not captured.
- ClientMembers.UnblockedSiteStaysOut: says nothing of a site that the record also had in a second list; `ClientCases.SecondListComesBack` shows why.
- Traffic.RateIsMeasured: floats are reals; `round(x, 1)` rounds to one decimal, half to even.
- XmlRecords.ParseDhcpServer: digits are ASCII digits; the order of dict keys is not modelled.
- SnmpTables.TableColumn: when two OIDs differ only in leading dots either value may win. `get_poe` uses the same split and join as `get_links` and `get_traffic`; `get_vpn_tunnels` and the value conversions are not modelled.
- EntityRemovals.RemovedExactlyWhenDue: entities of the family are edited by the listener only, and every applied reading of it has its own time; what holds without is `EntityRuns.RemovalHasEvidence`. A new entity is registered when it is handed over. Families whose source is switched off are removed at setup without condition and are not modelled.
- Migration.EntityRegistry: `order` keeps the ids of removed entries; lookups skip them. Entry data and options (custom_components/sophos_firewall/__init__.py:188-210) are a filter by key and not modelled.
- EntityReadings.ViewsAreStamped: assumes what the coordinator cannot promise for an endpoint that is written to; the exact failing case is in `EntityRuns.ListenerFailsExactly`.
- Scheduling.SuccessiveReads: for an endpoint that always succeeds and is never invalidated, as the source describes the tolerance; `Polls.PolledExactlyWhenDue` has the rule for every endpoint in every run.
