# Water-Controller: a verified model of the controller's logic

This Dafny project models the self-contained logic of Water-Controller, a SCADA controller for water
treatment plants, and proves what it promises over all inputs and over whole runs. The command
`dafny verify dfyconfig.toml` verifies it.

Each component comes in two layers. A specification gives the state as a value and every call as a
function on it; lemmas about runs (sequences of calls against an arbitrary environment) are proved on
that layer. A class with the source's own fields, loops and in-place updates is then proved to take
exactly the specified steps, so the run lemmas hold of it.

| component | files |
|---|---|
| load sharing over pump groups | `LoadBalance`, `LoadSteps`, `LoadBalancer` |
| checksums | `ShiftRegister`, `ModbusCrc`, `CcittCrc`, `CcittOrder`, `CcittDistance` |
| Modbus data units and gateway | `Bytes`, `ModbusPdu`, `ModbusGateway` |
| alarm lifecycle, rate window | `AlarmCondition`, `Alarms`, `AlarmRuns`, `AlarmScans`, `AlarmRaises`, `AlarmTables`, `AlarmAccounts`, `AlarmOrphans`, `AlarmJam`, `AlarmCauses`, `AlarmRate`, `AlarmManager` |
| alarm rules engine | `AlarmRules`, `AlarmRulesEngine` |
| authority handoff | `Authority`, `AuthorityRuns`, `AuthorityManager` |
| failover to backups | `Failover`, `FailoverScan`, `FailoverGap`, `FailoverManager` |
| historian: ring, compression, interpolation | `Ring`, `Historian`, `HistorianTable`, `Compression`, `HoldCompression`, `SwingingDoorTrend`, `Interpolation` |
| credential store of the remote unit | `UserSync`, `UserStore`, `UserStoreRuns`, `UserStoreRestart`, `UserStoreReplay`, `UserLogins`, `UserStoreUnit` |
| PID loops | `PidControl`, `PidRuns` |
| sequences | `Sequence`, `SequenceRuns`, `SequenceStates`, `SequenceEngine` |
| shared | `Clock`, `Common`, `Status` |

Conventions. Floats are `real`. Clock readings, the registry's sensors and devices, the register map,
and the outcome of each storage access are parameters; each call reads the clock once, except
`sequence_start`, which reads it twice. Clock differences are unsigned 64-bit, epochs and login counters
wrap at 32 bits, Modbus addresses at 16. Actuator and register writes appear as a log. Each public call
is one atomic step, because the source holds its lock throughout.

## What the code does and its comments do not say

- The swinging door stores the sample that closed the door, not the one before. Interpolating between
  stored points therefore always leaves the deadband somewhere (`SwingingDoorTrend.InterpolationAlwaysMisses`).
  Slopes (0, 0) mean "no door yet", so a door that narrows to slope 0 forgets its samples
  (`SwingingDoorTrend.CollapseIsTheOnlyGap`; with deadband 1 the series (0,0), (1,1), (2,-1) does it,
  `SwingingDoorTrend.ZigzagCollapses`).
- Authority epochs are taken from the message without a check. Superseded commands stay refused exactly when
  every grant that is taken carries an epoch no lower than any recorded before it (`Authority.FencedIff`);
  `Authority.LowerGrantRevivesCommand` is a run of five calls in which command epoch 5 is refused and later accepted.
- A forced failover of a primary that is not tracked, with the health table full, activates the mapping
  without flagging the primary, and nothing else breaks the flags (`Failover.InvariantKeptIff`;
  `FailoverGap.BlindForceBreaksFlags` is such a run).
- An alarm on the list can never leave it exactly when it is active and its rule is not in the table
  (`AlarmOrphans.StuckIff`): it was raised from outside, or its rule was deleted. 256 of them, and nothing
  else, stop all alarms for ever (`AlarmJam.JammedIff`, `AlarmOrphans.FreshManagerJams`).
- "Bumpless" transfer sets the integral to the manual output but makes no room for the proportional term, and
  no mode change clears the derivative. The transfer is bumpless exactly when what the error adds cancels what
  the kept derivative adds, or both push an output at its limit further out (`PidRuns.BumplessIff`). Strictly
  within its limits a loop with no such memory is bumpless exactly at zero error (`PidRuns.BumplessIffNoError`),
  and a loop at zero error exactly with no such memory (`PidRuns.BumplessIffNoMemory`).
  `PidRuns.FortyBecomesFifty`, `PidRuns.MemoryBumps` and `PidRuns.EightyBecomesFifty` are loops that jump because
  of an error, of the kept derivative, and of the integral limit.
- A sync whose header write fails is in force until the memory is wiped. With replay protection on, the nonces
  of all installed syncs increase over a run in which no wipe forgets a nonce above the stored one
  (`UserStoreReplay.InstalledIncrease`), and only such runs leave no replay open (`UserStoreReplay.NoReplayIff`;
  `UserStoreReplay.TakenTwice` is another run). The nonces of syncs answered with OK increase
  whether or not header writes fail (`UserStoreReplay.NoncesIncrease`).
- A save writes the header before the records. If only the header gets through, a restart pairs the new nonce and
  count with the old records, and the resend is refused as a replay (`UserStoreRestart.TornSync`).
- Resampling before the first sample computes with a wrapped time offset and leaves the range of the first two
  values, unless these are equal or were taken at the same time (`Interpolation.EarlyOutputIff`).
- `user_store_receive_sync` ignores the magic number and the operation of a payload, and the model does too.
- `alarm_manager_process` compares with `>=` and `<=` where `alarm_rules_check_condition` compares with
  `>` and `<`; each model follows its own file.

## Model

| member | source | states |
|---|---|---|
| `LoadBalance.DemandConserved` | src/coordination/load_balance.c:173-228 | with demand D and available capacity C every available member ends at capacity x min(1, D/C), the others keep their load, and the loads add up to exactly min(D, C) |
| `LoadBalance.LeadIndependent` | src/coordination/load_balance.c:187-227 | the resulting loads are the same for every lead member |
| `LoadBalance.EveryMemberWrittenOnce` | src/coordination/load_balance.c:197-227 | the circular walk serves each available member exactly once before the demand runs out, and sends each one PWM duty between 0 and 100 |
| `LoadBalance.NoDemandNoChange` | src/coordination/load_balance.c:192-197 | without positive demand no load and no actuator is touched |
| `LoadBalance.EveryMemberLeads` | src/coordination/load_balance.c:247-258 | repeated round-robin rotation makes every available member lead in turn |
| `LoadBalance.StagesKeepReady` | src/coordination/load_balance.c:268-311 | refresh, rotation, ageing and distribution each keep the lead index in range |
| `LoadBalance.ReadyForEver` | src/coordination/load_balance.c:268-311 | a group with a lead in range and members with a capacity can take a process step in any surroundings, and is such a group after it |
| `LoadSteps.StepMembers` | src/coordination/load_balance.c:268-311 | after a process step a member is available exactly when the registry says its station runs (one the registry does not know keeps its flag), is older exactly when it carried load, and keeps its load when it does not run |
| `LoadSteps.StepCarries` | src/coordination/load_balance.c:268-311 | the members that run according to the registry end at capacity x min(1, D/C) with C their summed capacity, and together carry min(D, C) |
| `LoadSteps.WritesReachRunning` | src/coordination/load_balance.c:197-227 | no write of a step goes to a member the registry says is down |
| `LoadSteps.EveryRunningIsWritten` | src/coordination/load_balance.c:197-227 | each running member gets exactly one write, with the truncated percentage as duty |
| `LoadSteps.StepLead` | src/coordination/load_balance.c:231-295 | the lead stays until the interval has passed; then the first running member of least runtime or the next running one around the ring leads |
| `LoadBalancer.Balancer.AddGroup` | src/coordination/load_balance.c:84-107 | a known id is replaced in place, a new one appended, Full when there is no room; ids stay unique |
| `LoadBalancer.Balancer.FindLowestRuntimeMember` | src/coordination/load_balance.c:157-170 | the first available member with the least runtime, or -1 |
| `LoadBalancer.Balancer.TotalCapacity` | src/coordination/load_balance.c:176-185 | the sum of the available capacities, and whether any member is available |
| `LoadBalancer.Balancer.ShareOut` | src/coordination/load_balance.c:192-227 | the loop of the walk computes the specified loads and actuator writes |
| `LoadBalancer.Balancer.DistributeLoad` | src/coordination/load_balance.c:173-228 | one group is replaced by its distribution, the writes are appended, nothing else changes |
| `LoadBalancer.Balancer.NextAvailable` | src/coordination/load_balance.c:249-253 | the next available member around the ring, also when the old lead was out of range |
| `LoadBalancer.Balancer.Rotate` | src/coordination/load_balance.c:231-265 | NotFound exactly for an unknown id; otherwise only that group gets its new lead |
| `LoadBalancer.Balancer.Refresh` | src/coordination/load_balance.c:279-289 | a member is available exactly when the registry says that its station runs; nothing else changes |
| `LoadBalancer.Balancer.Age` | src/coordination/load_balance.c:297-303 | exactly the loaded members grow older |
| `LoadBalancer.Balancer.Process` | src/coordination/load_balance.c:268-311 | all groups take their step in order and the writes are appended in that order; with a registry members are available exactly when their station runs, the running members of every enabled group carry min(demand, their capacity), and every write goes to a running member; ready groups stay ready |
| `ModbusCrc.LookupIsShift8` | src/modbus/modbus_common.c:11-44 | every one of the 256 table entries is eight reflected 0xA001 shifts of its index |
| `ModbusCrc.TableFeedIsFeed` | src/modbus/modbus_common.c:46-53 | one table step equals feeding the byte bit by bit, for every register and byte |
| `ModbusCrc.ModbusCrc16` | src/modbus/modbus_common.c:46-53 | the table-driven loop returns the bitwise CRC of a message of any length |
| `ModbusCrc.ResidueTest` | src/modbus/modbus_common.c:46-53 | a frame has CRC 0 if and only if it ends in the CRC of what precedes, low byte first |
| `CcittCrc.Crc16Ccitt` | shared/include/user_sync_protocol.h:316-329 | the nested loops return the CRC as a fold of a linear shift register |
| `CcittCrc.CrcLinear` | shared/include/user_sync_protocol.h:316-329 | the CRC of the difference of two messages is the difference of their CRCs |
| `CcittCrc.UndetectedIff` | shared/include/user_sync_protocol.h:316-329 | damage goes unnoticed if and only if the error pattern itself has CRC 0 |
| `CcittCrc.BurstDetected` | shared/include/user_sync_protocol.h:316-329 | every error confined to sixteen consecutive bits is detected, at any length |
| `CcittCrc.AdjacentBytesDetected` | shared/include/user_sync_protocol.h:316-329 | every error confined to one byte or two adjacent bytes is detected, at any length |
| `CcittOrder.PowFullOrder` | shared/include/user_sync_protocol.h:316-329 | the register holding 1 returns to 1 after 32767 shifts and not before |
| `CcittDistance.CrcParity` | shared/include/user_sync_protocol.h:316-329 | the parity of the CRC is the parity of the register and of the message bits |
| `CcittDistance.OddErrorsDetected` | shared/include/user_sync_protocol.h:316-329 | every error of an odd number of bits is detected, at any length |
| `CcittDistance.FewErrorsDetected` | shared/include/user_sync_protocol.h:316-329 | every error of one, two or three bits is detected in messages up to 4095 bytes |
| `CcittDistance.TwoBitsUndetectedIff` | shared/include/user_sync_protocol.h:316-329 | at any length two flipped bits go unnoticed if and only if they are a multiple of 32767 places apart |
| `ModbusPdu.WriteRequestRoundTrip` | src/modbus/modbus_common.c:120-137 | a built write-multiple request reads back as its start address, quantity, byte count and values in order |
| `ModbusPdu.WriteRequestHead` | src/modbus/modbus_common.c:120-137 | address, quantity and byte count on the wire, high byte first |
| `ModbusPdu.WriteRequestValue` | src/modbus/modbus_common.c:120-137 | every value on the wire, high byte first |
| `ModbusPdu.ReadRequestRoundTrip` | src/modbus/modbus_common.c:96-106 | a built read request reads back as its start address and quantity |
| `ModbusPdu.PutThenGet` | src/modbus/modbus_common.c:55-62 | big-endian words written from an offset are read back from it |
| `ModbusPdu.PutAllFrame` | src/modbus/modbus_common.c:131-133 | writing words touches no byte outside their range |
| `ModbusPdu.Pdu.BuildReadRequest` | src/modbus/modbus_common.c:96-106 | the buffer holds the read request |
| `ModbusPdu.Pdu.BuildWriteMultipleRegisters` | src/modbus/modbus_common.c:120-137 | more than 123 values are refused and change nothing; otherwise the buffer holds the write request, all indices inside it |
| `ModbusPdu.Pdu.ParseReadResponse` | src/modbus/modbus_common.c:169-184 | refused for an exception or a byte count beyond what was received, otherwise exactly the payload |
| `ModbusGateway.WritesAreAPrefix` | src/modbus/modbus_gateway.c:296-325 | a prefix of the values is applied in order, each to a writable register that takes it; the exception names why the next one is refused |
| `ModbusGateway.SingleRegisterWritten` | src/modbus/modbus_gateway.c:272-294 | function code 6 writes one holding register or is refused, with the reason |
| `ModbusGateway.ManyRegistersWritten` | src/modbus/modbus_gateway.c:296-325 | function code 16 writes a prefix of at most 123 values |
| `ModbusGateway.SingleCoilWritten` | src/modbus/modbus_gateway.c:363-390 | function code 5 sends the on or off command of a drivable coil or is refused, with the reason |
| `ModbusGateway.CoilOnIff` | src/modbus/modbus_gateway.c:327-361 | a coil reads on exactly when mapped to an actuator whose command is its on value |
| `ModbusGateway.Gateway.ReadRegisters` | src/modbus/modbus_gateway.c:245-270 | over 125 registers is an illegal value; otherwise the answer holds the values in order |
| `ModbusGateway.Gateway.WriteRegister` | src/modbus/modbus_gateway.c:272-294 | unmapped, read-only and failing registers give their exceptions and write nothing |
| `ModbusGateway.Gateway.WriteRegisters` | src/modbus/modbus_gateway.c:296-325 | the decoded values are applied in order up to the first failure |
| `ModbusGateway.Gateway.ReadCoils` | src/modbus/modbus_gateway.c:327-361 | coil i is bit i mod 8 of byte 1 + i/8, every padding bit is zero, for every quantity up to 2000 |
| `ModbusGateway.Gateway.WriteCoil` | src/modbus/modbus_gateway.c:363-390 | unmapped and read-only coils are refused; exactly one command goes out if the coil stands for a writable actuator, none otherwise |
| `ModbusGateway.CoilReadsBack` | src/modbus/modbus_gateway.c:327-390 | a written coil, once the actuator has carried out the command, reads on exactly when 0xFF00 was written, and no coil of another actuator changes |
| `ModbusGateway.Gateway.Handle` | src/modbus/modbus_gateway.c:223-396 | each function code has its effect and answer, reads change nothing, writes are echoed, anything else is an illegal function |
| `ModbusGateway.SendRegisters` | src/modbus/modbus_gateway.c:296-325 | end to end: a request built from any values is decoded by the gateway into the same values in the same order |
| `ModbusGateway.FetchRegisters` | src/modbus/modbus_gateway.c:245-270 | end to end: request, answer and parsing return exactly the registers asked for |
| `ModbusGateway.FetchCoils` | src/modbus/modbus_gateway.c:327-361 | end to end: request, answer and parsing return exactly the coils asked for, one per bit |
| `AlarmRuns.EventKeeps` | src/alarms/alarm_manager.c:236-772 | every call keeps: at most 256 active alarms, ids strictly increasing, at most one alarm per rule, each phase the pair (acknowledged, cleared), rule ids unique |
| `AlarmRuns.ScanKeeps` | src/alarms/alarm_manager.c:592-725 | the same for one scan over all rules followed by the clean-up |
| `AlarmAccounts.LifecycleOverRuns` | src/alarms/alarm_manager.c:236-772 | over any interleaving of calls the invariant holds, total raised is active plus gone, and every id handed out is on the list or gone, never both; what is gone was acknowledged and cleared |
| `AlarmCauses.LeftForBothReasons` | src/alarms/alarm_manager.c:376-437 | every alarm that left the list was acknowledged by an event of the run that found it on the list, and a scan of the run found it on the list with its rule enabled, not suppressed and unmet, each at the time the alarm carries |
| `AlarmScans.ScanListIff` | src/alarms/alarm_manager.c:592-725 | the list after a scan is exactly the old alarms, cleared where the written-out condition is unmet and without those also acknowledged, and the new ones |
| `AlarmScans.ScanClock` | src/alarms/alarm_manager.c:655-690 | when the condition of each rule counts as met since |
| `AlarmRaises.RunRaisesIff` | src/alarms/alarm_manager.c:592-690 | over every run a scan raises an alarm for a rule if and only if it is enabled, not suppressed, its reading is good and at or beyond the threshold (or bad for a bad-quality rule), was first seen so at a scan at least the delay ago and not seen otherwise since, no alarm of the rule is listed, and the list of 256 has room |
| `AlarmScans.RaisedCarries` | src/alarms/alarm_manager.c:660-672 | the alarm carries the reading, threshold, severity and time |
| `AlarmRaises.RunIsTrace` | src/alarms/alarm_manager.c:592-772 | the states of every run of a fresh manager form a trace, so the results on traces hold of every run |
| `AlarmTables.RuleOrigin` | src/alarms/alarm_manager.c:236-343 | every rule in the table is as some creation of the run says and enabled as last set |
| `AlarmTables.InTableIff` | src/alarms/alarm_manager.c:236-322 | a rule is in the table exactly from its creation to its deletion |
| `AlarmTables.SuppressedUntilEnd` | src/alarms/alarm_manager.c:482-534 | until a suppression ends no scan raises, clears or times anything for the point |
| `AlarmTables.AcknowledgeOne` | src/alarms/alarm_manager.c:376-409 | exactly the alarm with the id moves on, with time and user |
| `AlarmTables.AcknowledgeEvery` | src/alarms/alarm_manager.c:411-437 | exactly the unacknowledged alarms move on and none is left |
| `AlarmTables.ExternalCarries` | src/alarms/alarm_manager.c:727-772 | an external alarm carries what it was raised with, or nothing happens at 256 |
| `AlarmAccounts.LeavesAfterBoth` | src/alarms/alarm_manager.c:711-719 | an alarm leaves only in a scan, and with both its acknowledge and its clear time set |
| `AlarmOrphans.StuckIff` | src/alarms/alarm_manager.c:592-772 | an alarm on the list stays on it in every later state of every run if and only if it is active and its rule is not in the table |
| `AlarmOrphans.DeletedRuleLeavesOrphan` | src/alarms/alarm_manager.c:300-322 | deleting the rule of an active alarm makes it such an alarm |
| `AlarmOrphans.ExternalIsStuck` | src/alarms/alarm_manager.c:727-772 | every alarm raised from outside is such an alarm |
| `AlarmJam.JammedIff` | src/alarms/alarm_manager.c:592-772 | no run from a state raises an alarm any more if and only if 256 such alarms fill the list |
| `AlarmOrphans.FreshManagerJams` | src/alarms/alarm_manager.c:727-772 | 256 external raises bring a fresh manager there |
| `AlarmAccounts.RaisesOrdered` | src/alarms/alarm_manager.c:93-96 | under a clock that does not go back the raise times are ordered |
| `AlarmRate.WindowIsExact` | src/alarms/alarm_manager.c:560-590 | the count in the 600-slot ring is min(600, raises in the last ten minutes) once the clock has passed ten minutes |
| `AlarmRate.FloodIsExact` | src/alarms/alarm_manager.c:576-590 | for every limit below 600 the flood flag is exact |
| `AlarmRate.EarlyWindowIsEmpty` | src/alarms/alarm_manager.c:576-590 | in the first ten minutes of the clock the bound wraps around and nothing is counted |
| `AlarmRate.RingsNext` | src/alarms/alarm_manager.c:93-96 | writing one time keeps the ring in step with the log of all raises |
| `AlarmManager.Manager.FindActive` | src/alarms/alarm_manager.c:70-77 | the first active alarm of a rule, or -1 |
| `AlarmManager.Manager.IsSuppressed` | src/alarms/alarm_manager.c:99-113 | true exactly when some suppression of the point has not ended |
| `AlarmManager.Manager.Track` | src/alarms/alarm_manager.c:93-96 | the ring stays in step with the log extended by this time |
| `AlarmManager.Manager.CountRecent` | src/alarms/alarm_manager.c:564-571 | the number of ring entries above the bound |
| `AlarmManager.Manager.AlarmRatePerHour` | src/alarms/alarm_manager.c:560-574 | six times that count, and its exactness for an ordered log |
| `AlarmManager.Manager.IsAlarmFlood` | src/alarms/alarm_manager.c:576-590 | the flag, and its exactness for an ordered log |
| `AlarmManager.Manager.CreateRule` | src/alarms/alarm_manager.c:236-298 | a new rule with the next id, or Full |
| `AlarmManager.Manager.DeleteRule` | src/alarms/alarm_manager.c:300-322 | the shift loop removes exactly the first rule with the id |
| `AlarmManager.Manager.EnableRule` | src/alarms/alarm_manager.c:324-343 | changes one flag of one rule |
| `AlarmManager.Manager.Acknowledge` | src/alarms/alarm_manager.c:376-409 | the alarm with the id moves to its acknowledged phase; NotFound exactly when there is none |
| `AlarmManager.Manager.AcknowledgeAll` | src/alarms/alarm_manager.c:411-437 | every unacknowledged alarm moves, the others are untouched |
| `AlarmManager.Manager.Suppress` | src/alarms/alarm_manager.c:482-512 | one more suppression, or Full |
| `AlarmManager.Manager.ProcessRule` | src/alarms/alarm_manager.c:600-709 | one rule of a scan refines the specified step: on-delay, raise once, clear |
| `AlarmManager.Manager.RemoveCleared` | src/alarms/alarm_manager.c:711-719 | backward shift-removal leaves exactly the alarms that are not fully cleared, in order |
| `AlarmManager.Manager.Process` | src/alarms/alarm_manager.c:592-725 | a scan refines the specification of the whole scan |
| `AlarmManager.Manager.RaiseAlarm` | src/alarms/alarm_manager.c:727-772 | an external alarm with the next id, or Full |
| `AlarmRules.TriggersIffDue` | src/alarms/alarm_rules.c:142-219 | streaming evaluation triggers at sample k exactly when the written-out condition holds on the maximal run up to k, the delay has passed since it counts and had not passed at any earlier sample of the run |
| `AlarmRules.CountedFromRunStart` | src/alarms/alarm_rules.c:195-199 | with non-zero timestamps the delay counts from the first sample of the run |
| `AlarmRules.DisabledThenFresh` | src/alarms/alarm_rules.c:172-187 | a disabled rule never triggers, and counts afresh once enabled again |
| `AlarmRulesEngine.TriggeredIff` | src/alarms/alarm_rules.c:222-251 | an id is reported exactly when its rule watches the point and triggers |
| `AlarmRulesEngine.FirstFewIsPrefix` | src/alarms/alarm_rules.c:222-251 | the reported ids are the first ones, up to the room given |
| `AlarmRules.OneTriggerPerRun` | src/alarms/alarm_rules.c:194-214 | between two triggers the condition has been false at least once |
| `AlarmRules.RulesAreIndependent` | src/alarms/alarm_rules.c:222-250 | over any run of points each rule sees exactly its own samples |
| `AlarmRulesEngine.Engine.Add` | src/alarms/alarm_rules.c:64-91 | a known id has its rule replaced and keeps its timing, a new one is appended fresh, Full when there is no room; ids stay unique |
| `AlarmRulesEngine.Engine.Remove` | src/alarms/alarm_rules.c:94-109 | exactly the rule with the id is taken out |
| `AlarmRulesEngine.Engine.Enable` | src/alarms/alarm_rules.c:126-139 | changes one flag of one rule |
| `AlarmRulesEngine.Engine.Evaluate` | src/alarms/alarm_rules.c:172-219 | the one rule with the id takes its step and reports its trigger |
| `AlarmRulesEngine.Engine.EvaluatePoint` | src/alarms/alarm_rules.c:222-250 | every rule that watches the point is evaluated once; the first triggered ids come back in table order |
| `Authority.OthersUntouched` | src/coordination/authority_manager.c:143-348 | no call about one station changes the context of another |
| `Authority.EpochFallsIff` | src/coordination/authority_manager.c:258-296 | the recorded epoch falls exactly on a message with a smaller epoch, or when the 32-bit counter wraps |
| `Authority.EpochMonotone` | src/coordination/authority_manager.c:143-459 | over runs without such a call the epoch never decreases |
| `Authority.FencedIff` | src/coordination/authority_manager.c:232-348 | over a whole run no superseded non-zero command is accepted in any later state if and only if every grant taken carries an epoch no lower than any recorded before it (0 counting as 1) |
| `Authority.RevokedStaysRefused` | src/coordination/authority_manager.c:380-459 | after a forced release or a release timeout every command of the revoked epoch stays refused |
| `Authority.LowerGrantRevivesCommand` | src/coordination/authority_manager.c:232-275 | a run of five calls from the empty table in which command epoch 5 is refused and later accepted |
| `Authority.PendingFromRequest` | src/coordination/authority_manager.c:143-191 | a pending handoff goes back to a request for that station, pending ever since |
| `Authority.SupervisedFromGrant` | src/coordination/authority_manager.c:232-275 | every supervised period starts with a grant that answers a pending request and runs under its epoch |
| `AuthorityRuns.CommandAcceptedIff` | src/coordination/authority_manager.c:143-378 | over every run a command is accepted if and only if a grant that answered an open handoff is in force, ended by no release, released message or forced release since, and the command carries 0 or at least its epoch |
| `AuthorityRuns.NoCommandAfterRelease` | src/coordination/authority_manager.c:193-310 | after a release, released message or forced release no command of any epoch passes before the next grant that is taken |
| `AuthorityRuns.PendingIff` | src/coordination/authority_manager.c:143-275 | a handoff is pending exactly from a request that found room until a grant, released message, forced release or late scan |
| `AuthorityRuns.SupervisedIff` | src/coordination/authority_manager.c:193-310 | a station is supervised exactly while such a grant is in force |
| `AuthorityRuns.ReleasingIff` | src/coordination/authority_manager.c:193-310 | a station is being released exactly from a release of authority in force until it is completed, cancelled or late |
| `AuthorityRuns.HandoffTimesOut` | src/coordination/authority_manager.c:380-427 | a scan more than the timeout after the request makes an open handoff autonomous |
| `AuthorityRuns.ReleaseTimesOut` | src/coordination/authority_manager.c:380-427 | so for an open release, and the epoch moves on by one in 32 bits |
| `AuthorityRuns.CallAnswers` | src/coordination/authority_manager.c:143-460 | what every call answers, in terms of the calls before it |
| `AuthorityRuns.EpochOverRuns` | src/coordination/authority_manager.c:143-460 | the recorded epoch is that of the last grant taken or released message, one more for every forced or timed-out release since |
| `AuthorityRuns.GrantIsRecorded` | src/coordination/authority_manager.c:232-275 | while a grant is in force the controller is the recorded holder since that grant |
| `AuthorityRuns.ReturnedIsRecorded` | src/coordination/authority_manager.c:277-310 | after a released message or forced release the station holds authority itself |
| `AuthorityRuns.KnownIff` | src/coordination/authority_manager.c:44-70 | a station is known exactly since a request for it that found room among 256 |
| `AuthorityRuns.RunIsTrace` | src/coordination/authority_manager.c:143-460 | the tables of every run from the empty table form a trace, so the results on traces hold of every run |
| `AuthorityManager.Manager.FindEntry` | src/coordination/authority_manager.c:72-81 | the used slot of the station, or -1 exactly when it is unknown |
| `AuthorityManager.Manager.Create` | src/coordination/authority_manager.c:44-69 | a free slot becomes the fresh context of the station |
| `AuthorityManager.Manager.Request` | src/coordination/authority_manager.c:143-191 | the table and the answer are those of the protocol step |
| `AuthorityManager.Manager.Release` | src/coordination/authority_manager.c:193-230 | the table and the answer are those of the protocol step |
| `AuthorityManager.Manager.HandleGrant` | src/coordination/authority_manager.c:232-275 | the table and the answer are those of the protocol step |
| `AuthorityManager.Manager.HandleReleased` | src/coordination/authority_manager.c:277-310 | the table and the answer are those of the protocol step |
| `AuthorityManager.Manager.ValidateCommand` | src/coordination/authority_manager.c:312-348 | the verdict of the protocol on a command epoch |
| `AuthorityManager.Manager.Process` | src/coordination/authority_manager.c:380-427 | every slot has its timeouts checked, as one protocol step |
| `AuthorityManager.Manager.ForceRelease` | src/coordination/authority_manager.c:429-459 | the table and the answer are those of the protocol step |
| `Failover.AutoScanAgrees` | src/coordination/failover.c:270-350 | after an automatic scan with room in the health table every running primary has an inactive mapping and every unhealthy primary with a healthy backup an active one |
| `FailoverScan.ScanHealth` | src/coordination/failover.c:270-330 | after a scan a reported device is healthy exactly when it runs, or was healthy and its heartbeat is less than the timeout old |
| `FailoverScan.ScanActiveIff` | src/coordination/failover.c:270-350 | exactly when each mapping is active after a scan, in every mode |
| `FailoverScan.SilentPrimaryFailsOver` | src/coordination/failover.c:270-350 | a primary silent past the timeout is failed over to a backup that is reported running |
| `FailoverScan.SurveyCounts` | src/coordination/failover.c:280-330 | the counters count the running devices, the late silent ones and those in failover |
| `FailoverScan.ForceThenRestore` | src/coordination/failover.c:202-267 | a forced failover and a restore bring the mappings back |
| `FailoverScan.ConfigureThenRemove` | src/coordination/failover.c:130-176 | so do configuring a new mapping and removing it |
| `FailoverScan.RemoveTakesOne` | src/coordination/failover.c:161-176 | removing takes out one mapping and keeps the others in order |
| `FailoverScan.ConfigureAgain` | src/coordination/failover.c:130-146 | configuring a known primary changes its backup only |
| `FailoverScan.UnknownPrimary` | src/coordination/failover.c:130-267 | calls about a primary without a mapping are answered NotFound, or Full at 256, and change nothing |
| `Failover.InvariantKeptIff` | src/coordination/failover.c:130-350 | a call keeps "active mappings are flagged, primaries unique" unless it is a forced failover of an untracked primary with a full health table, and exactly then breaks it |
| `Failover.InvariantOverRuns` | src/coordination/failover.c:107-350 | over any run without such a call the invariant holds |
| `FailoverGap.BlindForceBreaksFlags` | src/coordination/failover.c:256-267 | a scan of 256 devices with two-letter names, a mapping for a 257th station and a forced failover of it break the flags |
| `Failover.ExecutedFlaggedIff` | src/coordination/failover.c:202-223 | failing over keeps the flags in step exactly when the primary can be tracked or the mapping was active |
| `FailoverManager.Manager.GetEntry` | src/coordination/failover.c:107-127 | the entry of a station, created when unknown, none when the table is full |
| `FailoverManager.Manager.SetBackup` | src/coordination/failover.c:130-158 | the state and the answer of the specification |
| `FailoverManager.Manager.RemoveBackup` | src/coordination/failover.c:161-176 | the state and the answer of the specification |
| `FailoverManager.Manager.ExecuteFailover` | src/coordination/failover.c:202-223 | the state of the specification |
| `FailoverManager.Manager.Restore` | src/coordination/failover.c:226-253 | the state and the answer of the specification |
| `FailoverManager.Manager.ForceFailover` | src/coordination/failover.c:256-267 | the state and the answer of the specification |
| `FailoverManager.Manager.Process` | src/coordination/failover.c:270-350 | the survey of the devices and the check of the mappings refine the specified scan |
| `Compression.State.SwingingDoorCheck` | src/historian/compression.c:35-86 | the object takes the specified step of the door |
| `Compression.State.HoldCheck` | src/historian/compression.c:88-137 | the object takes the specified deadband or boxcar step |
| `Compression.State.ShouldStore` | src/historian/compression.c:140-163 | the step of the selected algorithm, and whether the sample is stored |
| `Compression.CompressSamples` | src/historian/compression.c:188-230 | the loop returns exactly the stored samples, in order |
| `HoldCompression.CountersAreExact` | src/historian/compression.c:35-160 | the counters count the samples seen and stored, for every algorithm |
| `HoldCompression.StoredIff` | src/historian/compression.c:88-137 | after the first, a sample is stored exactly when it departs from the last stored one |
| `HoldCompression.HoldReproduces` | src/historian/compression.c:88-137 | holding the last stored value reproduces every sample within the deadband, and for boxcar from less than 60000 ms before |
| `HoldCompression.OutputIsSubsequence` | src/historian/compression.c:188-230 | the output is the samples at the stored indices, all of them, in increasing order |
| `HoldCompression.OutputIsSpread` | src/historian/compression.c:188-230 | the output starts with the first input and each sample departs from the one before |
| `HoldCompression.CompressionIsIdempotent` | src/historian/compression.c:188-230 | compressing the output again returns it unchanged |
| `SwingingDoorTrend.OneLineFits` | src/historian/compression.c:35-86 | while the door never collapses to slope 0, one line through the last stored point passes within the deadband of every sample discarded since |
| `SwingingDoorTrend.CollapseIsTheOnlyGap` | src/historian/compression.c:60-66 | that survives every next sample if and only if the door has not collapsed |
| `SwingingDoorTrend.ZigzagCollapses` | src/historian/compression.c:60-66 | a series of three samples that collapses the door, after which some next sample leaves no line that fits |
| `SwingingDoorTrend.ChordMisses` | src/historian/compression.c:76-83 | the chord to the sample that closed the door misses a discarded sample by more than the deadband |
| `SwingingDoorTrend.InterpolationAlwaysMisses` | src/historian/compression.c:76-83 | so in every run linear interpolation between two stored points leaves the deadband |
| `Interpolation.InterpolateSamples` | src/historian/compression.c:233-293 | refused for empty input or a zero interval; otherwise one output per grid time, as the advancing index defines it |
| `Interpolation.IndexIsLatest` | src/historian/compression.c:251-256 | on sorted input the advancing index is at the last sample not after the grid time |
| `Interpolation.InterpolationIsLookup` | src/historian/compression.c:251-256 | so it equals direct lookup |
| `Interpolation.OutputAtTime` | src/historian/compression.c:258-287 | exact at sample times, on the segment to the next sample otherwise, always between the two neighbours |
| `Interpolation.GridInputIsReturned` | src/historian/compression.c:233-293 | input on the grid comes back value for value, with the same count |
| `Interpolation.EarlyOutputIff` | src/historian/compression.c:273-284 | every output at a grid time before the first sample lies between the first two values exactly when these are equal or were taken at the same time |
| `Historian.Tag.AddSample` | src/historian/historian.c:94-116 | the ring stays the last entries of the log extended by the sample |
| `Historian.Tag.RecordSample` | src/historian/historian.c:377-422 | the tag takes the recording step of the log |
| `Historian.Tag.Query` | src/historian/historian.c:577-623 | the first max samples in the range among the last min(n, capacity) since the last flush, in recording order |
| `Historian.Tag.Flush` | src/historian/historian.c:502-565 | the buffered samples are appended to the file in recording order and the buffer emptied |
| `HistorianTable.Table.RecordSample` | src/historian/historian.c:377-422 | the tag with the id takes the recording step and no other tag changes, or NotFound and nothing changes |
| `HistorianTable.Table.Query` | src/historian/historian.c:577-623 | the answer of the tag with the id, or NotFound |
| `Historian.LogKeptIff` | src/historian/historian.c:377-565 | file and buffer together are the whole recorded log, field by field, if and only if no period between flushes outgrew the buffer |
| `Historian.SamplesCounted` | src/historian/historian.c:377-565 | every recorded sample is saved, buffered or lost, and counted once |
| `Historian.QueryIsExact` | src/historian/historian.c:600-618 | a range query finds exactly the entries between the bounds, both included, in order |
| `UserSync.HashWithSalt` | shared/include/user_sync_protocol.h:217-255 | hashing on from the salt equals the DJB2 hash of salt and password together |
| `UserSync.OneCharacterChanges` | shared/include/user_sync_protocol.h:217-224 | changing one character always changes the hash |
| `UserSync.SameTextIff` | shared/rtu/user_store.c:129-134 | two passwords have the same stored text exactly when they have the same hash |
| `UserSync.SecureCompare` | shared/rtu/user_store.c:90-105 | the all-bytes comparison is string equality |
| `UserSync.AdminHash` | shared/include/user_sync_protocol.h:217-255 | the documented hash of the password admin with the salt |
| `UserSync.HexChar` | shared/include/user_sync_protocol.h:265-280 | each character of the hexadecimal text |
| `UserStoreRuns.SaveThenLoad` | shared/rtu/user_store.c:139-217 | save then load restores users, count, nonce and time, byte by byte through the storage |
| `UserStoreRestart.RestartRestoresIff` | shared/rtu/user_store.c:139-246 | a shutdown and a restart bring back users, nonce and time if and only if the header was written and the records were written or there already, or, with no header written, the storage agreed before |
| `UserStoreRestart.SyncSurvivesIff` | shared/rtu/user_store.c:181-311 | a sync outlives a power loss under exactly that condition |
| `UserStoreRestart.TornSync` | shared/rtu/user_store.c:197-211 | when the header write works and the record write fails, the unit restarts with the new nonce and count, the old record bytes, and refuses the resend as a replay |
| `UserStoreRestart.FirstUserIsLost` | shared/rtu/user_store.c:197-211 | a blank unit loses its first user that way |
| `UserStoreRestart.PowerLossIsHarmless` | shared/rtu/user_store.c:139-315 | while every storage access succeeds, a power loss at any point of a run loses nothing |
| `UserStoreReplay.InstalledIncrease` | shared/rtu/user_store.c:252-315 | with replay protection on and a readable header at every start, nonces of all syncs that replace the users in memory strictly increase over any run of syncs, logins, clears, shutdowns, power losses and restarts in which no wipe forgets a nonce above the stored one |
| `UserStoreReplay.NoReplayIff` | shared/rtu/user_store.c:139-315 | a run is of that kind if and only if none of its wipes can be followed by a start and a sync that repeats a nonce |
| `UserStoreReplay.TakenAgainIff` | shared/rtu/user_store.c:181-315 | a wipe of the memory lets the next start take the payload in memory again if and only if its nonce was above the stored one and the wipe did not write the header |
| `UserStoreReplay.StoredIff` | shared/rtu/user_store.c:181-217 | which calls bring the nonce in memory into the storage, exactly |
| `UserStoreReplay.TakenTwice` | shared/rtu/user_store.c:301-311 | a concrete payload taken twice by a unit with blank storage after a failed header write and a power loss |
| `UserStoreReplay.NoncesIncrease` | shared/rtu/user_store.c:139-315 | nonces of syncs answered with OK strictly increase over any run of such calls with that protection, failing writes included |
| `UserStoreReplay.AcceptedOnce` | shared/rtu/user_store.c:252-315 | under the same protection a payload once answered with OK is refused and changes nothing in every later state |
| `UserStoreRuns.AttemptsBalance` | shared/rtu/user_store.c:317-454 | attempts equal successes plus failures (in 32 bits) after every run |
| `UserStoreRuns.DamagedRecordsRefused` | shared/rtu/user_store.c:268-285 | records damaged in one byte, two adjacent bytes, sixteen consecutive bits, two bits or any odd number of bits are refused with a checksum error and nothing changes |
| `UserStoreRuns.LoginIff` | shared/rtu/user_store.c:317-360 | against a stored password another one is accepted exactly when its hash is the same |
| `UserStoreRuns.MistypedIsRefused` | shared/rtu/user_store.c:317-360 | a password mistyped in one character is always refused |
| `UserLogins.LoginOkIff` | shared/rtu/user_store.c:317-360 | a login succeeds if and only if the unit is initialized and the first record whose 32 name bytes match up to a zero has bit 0 of byte 61 set and holds the text of the password hash |
| `UserLogins.DisabledIsRefused` | shared/rtu/user_store.c:337-341 | a found record with that bit clear is answered Inactive for every password, and one failure is counted |
| `UserLogins.UnknownIff` | shared/rtu/user_store.c:329-335 | UserNotFound exactly when no record matches |
| `UserLogins.LoginCounts` | shared/rtu/user_store.c:327-358 | one attempt, and one success or failure, in 32 bits; nothing else changes |
| `UserLogins.RoleIsStored` | shared/rtu/user_store.c:351-358 | a successful login reports the role byte of the record |
| `UserLogins.SyncedUsersLogIn` | shared/rtu/user_store.c:252-360 | after a sync exactly the users it carries can log in |
| `UserLogins.PayloadPassesIff` | shared/rtu/user_store.c:252-296 | which payloads pass, byte by byte |
| `UserLogins.SyncedStore` | shared/rtu/user_store.c:297-305 | what a sync leaves in memory, byte by byte |
| `UserLogins.SavedLayout` | shared/rtu/user_store.c:181-217 | the bytes of the storage after a save |
| `UserLogins.StartLoads` | shared/rtu/user_store.c:139-178 | what a start brings in, for every storage and every failing access |
| `UserLogins.ClearedUnitRefuses` | shared/rtu/user_store.c:456-465 | after a clear nobody can log in and the nonce stays |
| `UserLogins.ResetClears` | shared/rtu/user_store.c:450-454 | the three login counters are zero and nothing else changes |
| `UserStoreUnit.Unit.LoadFromNv` | shared/rtu/user_store.c:139-176 | the store and the answer of the specified load |
| `UserStoreUnit.Unit.SaveToNv` | shared/rtu/user_store.c:181-217 | the storage and the answer of the specified save |
| `UserStoreUnit.Unit.Init` | shared/rtu/user_store.c:221-238 | the device step of a start |
| `UserStoreUnit.Unit.Shutdown` | shared/rtu/user_store.c:240-246 | the device step of a shutdown |
| `UserStoreUnit.Unit.CheckPayload` | shared/rtu/user_store.c:252-294 | the answer of the specified checks, in their order |
| `UserStoreUnit.Unit.ReceiveSync` | shared/rtu/user_store.c:252-315 | the device and the answer of the specified sync |
| `UserStoreUnit.Unit.FindUser` | shared/rtu/user_store.c:111-123 | the first user with the name, or -1 |
| `UserStoreUnit.Unit.Authenticate` | shared/rtu/user_store.c:317-360 | the answer, the role and the counters of the specified login |
| `UserStoreUnit.Unit.Clear` | shared/rtu/user_store.c:456-465 | the device and the answer of the specified clear |
| `UserStoreUnit.Unit.ResetAuthStats` | shared/rtu/user_store.c:450-454 | only the three counters are reset |
| `PidRuns.BoundKeptIff` | src/control/control_engine.c:111-175 | a step keeps the integral within its limit exactly when it does not take back an increment over twice the limit; the output of a step is always in range |
| `PidRuns.RunBoundedIff` | src/control/control_engine.c:111-175 | the integral is within its limit after every event of a run if and only if no event of the run escapes |
| `PidRuns.TameRun` | src/control/control_engine.c:111-175 | increments up to twice the limit keep integral and output in range over every run |
| `PidRuns.NoWindup` | src/control/control_engine.c:158-166 | while the output is saturated with the error pushing outward the integral never moves further outward |
| `PidRuns.NotControlling` | src/control/control_engine.c:112-118 | off puts out 0, manual its output, and neither changes the loop |
| `PidRuns.StoppedClock` | src/control/control_engine.c:120-121 | an interval that is not positive counts as one millisecond |
| `PidRuns.BumplessIff` | src/control/control_engine.c:616-625 | the transfer from manual to automatic keeps the output if and only if what the error adds cancels what the kept derivative adds, or both push a limited output further out; it jumps up exactly when they add up to more than 0 |
| `PidRuns.PushIncreases` | src/control/control_engine.c:111-156 | what an error adds to the manual output grows strictly with the error |
| `PidRuns.BumplessIffNoError` | src/control/control_engine.c:616-625 | a loop within its limits whose kept derivative adds nothing transfers without a bump if and only if the process is at its setpoint or inside the deadband, and jumps up exactly at a positive error |
| `PidRuns.BumplessIffNoMemory` | src/control/control_engine.c:616-625 | at zero error it does so if and only if the kept derivative adds nothing |
| `PidRuns.OneBumplessError` | src/control/control_engine.c:616-625 | at most one error transfers without a bump, of the sign opposite to the kept derivative |
| `PidRuns.MemoryBumps` | src/control/control_engine.c:616-625 | a concrete loop that goes from automatic to manual and back at its setpoint and jumps from 43 to 43.5 |
| `PidRuns.TransferBumps` | src/control/control_engine.c:616-625 | at zero error a manual output beyond the integral limit drops to that limit |
| `PidRuns.FortyBecomesFifty` | src/control/control_engine.c:616-625 | a concrete loop below its setpoint that jumps from 40 to 50 |
| `PidRuns.WoundEscapes` | src/control/control_engine.c:158-166 | a concrete step that throws the integral from 0 to -250 with limit 50 |
| `PidRuns.EightyBecomesFifty` | src/control/control_engine.c:616-625 | the concrete loop that jumps from 80 to 50 |
| `PidControl.Controller.Accumulate` | src/control/control_engine.c:134-142 | the integral ends within its limit, and is the plain sum when that is within it |
| `PidControl.Controller.Differentiate` | src/control/control_engine.c:145-152 | without a filter the slope of the error, with one a value between the old derivative and that slope |
| `PidControl.Controller.Saturate` | src/control/control_engine.c:158-166 | the output ends in range, and neither output nor integral changes when the demand was in range |
| `PidControl.Controller.CalculatePid` | src/control/control_engine.c:111-175 | the loop and the output of the specified step |
| `PidControl.Controller.ChangeMode` | src/control/control_engine.c:604-639 | the loop of the specified mode change |
| `SequenceRuns.ScanInRangeIff` | src/control/sequence_engine.c:304-388 | a scan keeps the step index in [0, count] exactly when it does not execute a jump out of range |
| `SequenceRuns.IndexInRange` | src/control/sequence_engine.c:186-393 | with jump targets in range the index stays in range over every run |
| `SequenceRuns.OutputsAreAPrefix` | src/control/sequence_engine.c:186-393 | for a program without jumps the commands written since the last start are a prefix of its output steps before the first End, and all of them on completion, across any pauses and resumes |
| `SequenceRuns.OverdueNeverRuns` | src/control/sequence_engine.c:288-298 | after a scan at or past its deadline a timed sequence is not running, and that scan writes nothing |
| `SequenceRuns.CompletesAfterWaits` | src/control/sequence_engine.c:322-326 | a program without jumps completes no earlier after its start than the sum of its timed waits |
| `SequenceStates.ScanMovesIff` | src/control/sequence_engine.c:305-388 | when each kind of step is left, and where to, with readings and times written out |
| `SequenceStates.ScanFaultsIff` | src/control/sequence_engine.c:287-355 | exactly when a scan faults a sequence |
| `SequenceStates.ScanCompletesIff` | src/control/sequence_engine.c:299-375 | exactly when a scan completes it |
| `SequenceStates.StoppedUntilStart` | src/control/sequence_engine.c:211-223 | a stopped sequence writes nothing and stays until the next start |
| `SequenceStates.PauseThenResume` | src/control/sequence_engine.c:226-258 | a pause holds a sequence at its step; a resume goes on there with the clock of the step restarted |
| `SequenceStates.StartTakes` | src/control/sequence_engine.c:186-208 | a start takes an enabled sequence that is not running to its first step; no other start does anything |
| `SequenceStates.OnlyThen` | src/control/sequence_engine.c:226-258 | pausing what does not run and resuming what is not paused do nothing |
| `SequenceStates.ScanWritesIff` | src/control/sequence_engine.c:305-321 | a scan writes exactly the command of an output step that it executes |
| `SequenceEngine.Engine.Create` | src/control/sequence_engine.c:95-112 | a new sequence with a new id, or refused at 32 |
| `SequenceEngine.Engine.AddStep` | src/control/sequence_engine.c:115-131 | one step, with any jump target, appended to the one sequence with the id, Full at 64 |
| `SequenceEngine.Engine.Start` | src/control/sequence_engine.c:186-208 | only the sequence with the id changes, as a start does |
| `SequenceEngine.Engine.Stop` | src/control/sequence_engine.c:211-223 | only the sequence with the id changes, as a stop does |
| `SequenceEngine.Engine.Pause` | src/control/sequence_engine.c:226-240 | only the sequence with the id changes, as a pause does |
| `SequenceEngine.Engine.Resume` | src/control/sequence_engine.c:243-258 | only the sequence with the id changes, as a resume does |
| `SequenceEngine.Engine.SetTimeouts` | src/control/sequence_engine.c:261-274 | only the two timeouts of the sequence with the id change |
| `SequenceEngine.Engine.Execute` | src/control/sequence_engine.c:305-388 | the effect of the current step, and its command |
| `SequenceEngine.Engine.Process` | src/control/sequence_engine.c:277-393 | every sequence takes one scan and the commands go out in table order |

## Left out

- Float rounding, not-a-number values and infinities: `real` arithmetic throughout.
- Callbacks, logging, message texts, string truncation, thread start and stop, and reads that only copy a record out.
- PROFINET, the register map's internals, Modbus transports, the database, shared memory, configuration parsing and sending.
- Interlock evaluation, PID autotune, cascade control, state reconciliation, tag management: keyed-table updates or constant filling.
- Alarm history buffer, shelving, out-of-service and rationalization data: they do not influence the alarm lifecycle.
- Alarm ids and rule ids are unbounded; the source's 32-bit counters would wrap after 2^31 alarms.
- Password strength and timing behaviour of the comparison: only the result of the comparison is modelled.
- Bytes of the user table beyond the user count, which no operation reads.
- Storage writes that fail halfway: a failing access is taken to leave the storage as it was.
- Historian files are one append log per tag; the source starts a new file per day.
- The watchdog on runaway PID output and the loop tables around `calculate_pid`.
- LoadBalancer.Balancer.Process: requires of every enabled group, as the registry shows it, what the next two lines require when it rotates and shares out.
- LoadBalancer.Balancer.DistributeLoad: with a registry and capacity to share, requires a non-zero capacity of the available members and a lead in range, because the source divides by the capacity, converts the quotient to an integer, and indexes with the lead.
- LoadBalancer.Balancer.Rotate: requires of the group it rotates wear leveling, or a lead in range, or a lead of -1 or above with some member available, because the source otherwise takes a remainder by 0, indexes below 0, or never ends its search.
- SequenceEngine.Engine.Process: requires the index of every running sequence that is not overdue to be zero or above, because the source indexes its step array with it; a jump below zero breaks this, and `SequenceRuns.ScanInRangeIff` says exactly when.
- AlarmAccounts.LifecycleOverRuns: clock readings are positive, because the source uses 0 for "not yet acknowledged" and "not yet cleared".
- AlarmOrphans.StuckIff: clock readings are positive, as above.
- AuthorityManager.Manager.Request: the optional copy of the context handed to the caller is not modelled.
- UserStoreReplay.NoncesIncrease: requires replay protection, a storage backend and a readable header at every start (`Protected`), as do the other results on replays, because a start without them begins with nonce 0 or compares none.
- FailoverScan.ScanActiveIff: requires devices with distinct names, as the registry reports them, and a health table with room for every station named, because a full table leaves further stations unseen; so do the other results on scans.
- AlarmRaises.RunRaisesIff: clock readings are positive, because the source uses 0 for "condition not met".
