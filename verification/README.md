# Verified model of the libbt Bluetooth vendor library

This project models the state machines of `libbt`, the vendor library between a Bluetooth stack and a
UART-attached controller, and proves what they keep over whole runs:

- **Bring-up** (`BringUp*.dfy`): the event-driven protocol that resets the controller, raises the line
  speed, streams a firmware patch record by record, resets again, raises the speed a second time and
  programs the device address.
- **SCO audio configuration** (`Sco*.dfy`): chains of up to four commands per audio request. Many chains
  may be in flight; they share the parameter arrays and the two clock-rate globals.
- **Low-power mode and BT_WAKE** (`SleepMode.dfy`, `Upio*.dfy`): sleep-mode requests, the level cache and
  the btwrite hold timer, with the timer thread as an interleaved step.
- **Patch-file search** (`Patch*.dfy`): a directory scan inside a recursion that truncates its own argument.
- **Configuration file** (`Conf*.dfy`): line reading, tokenising and the setters.

`Hci.dfy`, `Uart.dfy`, `Buffers.dfy`, `Stream.dfy` and `Results.dfy` hold what these share: packets and
events, the two baud tables, the ownership ledger of HC buffers, writing through a moving position, and the
result handed to the stack.

## How it is built

Each machine appears twice. The *driver* is a class with the source's own fields, updated in place by
methods with the source's branches, fall-throughs and buffers (`HwConfig`, `ScoControl`, `LpmControl`,
`UpioControl`, `Configuration`, and `HwConfigFindpatch` on a zero-terminated array). The *specification* is a
transition function over values. For the bring-up it is laid out as a table: for each phase the effects,
the commands to try in order, and the result to report if none is accepted. Every driver method is proved to take
`Snapshot()` exactly where the specification says, and the theorems about runs are proved about the
specification: `Run` is any sequence of enabled stimuli, `After` the state it leads to.

The environment is explicit. What the stack, the file system and the kernel answer during a call
(allocation, acceptance of a send, found, opened, bytes read, timer id) arrives as an `Answers` value that
the theorems leave arbitrary. Around the driver a ghost world records commands accepted, reports made,
buffers and their owner, the file position, and both ends' line speeds.

Assumptions, each of which the source also relies on:

- An accepted command completes once, with an event carrying its opcode that is long enough for the bytes
  the handler reads. A completion may have any status. Callbacks do not re-enter each other.
- `xmit_cb` answers TRUE or FALSE.
- A controller starts at 115200, switches when it completes UPDATE_BAUDRATE and returns to 115200 when it
  completes LAUNCH_RAM.
- `read` returns an error or bytes from the file position, no more than asked for; the file does not change.
- The codec identifiers (CVSD = 1, MSBC = 2) come from the vendor interface header, which is not part of
  this model.

## What the code does not meet

Where a natural property is false of the code, the code was followed, and the exact condition is proved.

- Host and controller disagree on the line speed when the download ends without a LAUNCH_RAM record: the
  driver drops the host to 115200 in any case (`SpeedsAgreeIff`, `NominalSpeedsAgreeIff`, `LaunchDecides`;
  a run for every such file: `NoLaunchDisagrees`).
- A target speed missing from the baud tables leaves the host at 115200 while SUCCESS is reported
  (`SuccessMeansTargetSpeed`; a run for every such target: `UnsupportedSucceeds`).
- `hw_config_start` ignores a refused first send, which strands the buffer and the run
  (`StartsCleanlyIff`).
- A start in mid-run forgets an open patch file, has a second completion fall due if its reset goes out,
  and has FAIL reported twice if it gets no buffer (`RestartCleanlyIff`, `RestartReportsTwice`; a run for
  every file: `RestartForgetsFile`).
- After `cleanup` in mid-run the next event buffer is never freed (`BufferStep`; from every state of a run:
  `CleanupKeepsEvent`).
- SUCCESS is reported without an address when the address command is refused, after the second baud update
  or after the controller's own address has been read and is blank (`SuccessAddressedIff`; runs for every
  file: `AddressRefused`, `BlankAddressRefused`).
- A short payload read sends a malformed patch record (`RecordWellFormedIff`; a run for every file whose
  first record has a payload: `ShortReadMalformed`).
- Overlapping audio requests on the PCM bus give one chain the other's clock, in some run exactly when the
  wideband clock configured is above the narrowband one (`OneClockIff`, `OverlapMixesClocks`).
- An I2SPCM command built before the first `hw_sco_config` turns the clock rates and their parameters into
  0xFF for good (`ClocksValidIff`, `ClocksLostForGood`).
- An LPM node that fails to open on de-assertion leaves the hold timer running, and the cache swallows a
  second attempt (`LpmOffIff`, `FiresAfterFailedOpen`; a run from a fresh start: `FiresFromInit`).
- A configuration line that does not fit the buffer is read as several lines (`ChunksAreLinesIff`).

## Model

| member | source | states |
|---|---|---|
| BringUpRuns.EveryRunCompletes | libbt/src/hardware.c:619-926 | Every run begun with an accepted reset ends within size/3 + 12 stimuli and size/3 + 13 commands; it is over exactly when no completion can arrive, and then the state is 0, the file is closed as often as it was opened (at most once), and exactly one report was made (at most one if cleanup came before the end); before that nothing is reported and no buffer kept |
| BringUpAgain.EveryBringUpCompletes | libbt/src/hardware.c:1122-1162 | The same for every later bring-up, whatever came before it and whatever the second-pass flag was left at: one more report when it is over and none before, at most one more opening, closed again, commands in order from the reset on, a prefix of the file at most, controller at the target on SUCCESS |
| BringUpAgain.AgainLikeFirst | libbt/src/hardware.c:1122-1162 | A later run keeps every invariant of a first one and stays within the same bounds |
| BringUpAgain.IdleAgain | libbt/src/hardware.c:905-926 | After a completed run, with the port opened again, another one may begin |
| BringUpAgain.StepFrames | libbt/src/hardware.c:619-926 | Helper: a step does not depend on commands sent, reports made and files opened before |
| BringUpRuns.InvLaunched | libbt/src/hardware.c:1122-1162 | The start with an accepted first send establishes the invariant |
| BringUpRuns.InvStep | libbt/src/hardware.c:651-926 | Every event and cleanup keep the invariant: which states go with an open file and with the second-pass flag, one command outstanding in every state but 0, one report at the end, no double open, wrong close, double send or misused buffer |
| BringUpRuns.InvRun | libbt/src/hardware.c:619-926 | The invariant holds in every state of every run |
| BringUpRuns.RowInv | libbt/src/hardware.c:651-900 | One switch case: file and descriptor stay in step, and every command it may send leads to a state that fits flag, descriptor and number of opens, so the second pass never re-enters the download |
| BringUpRuns.BufferStep | libbt/src/hardware.c:637-640 | After a handler returns every buffer has been freed once or given to the stack once, the refused-then-reused one too, and the event buffer exactly when callbacks are registered |
| BringUpRuns.StepSends | libbt/src/hardware.c:619-926 | Helper: a completion adds at most one command; state, pending command and file position follow from it, and state 0 means none was added |
| BringUpRuns.RankStep | libbt/src/hardware.c:736-834 | Each step lowers a measure built from the second-pass flag, the position of the state and the record headers left in the file |
| BringUpRuns.RankRun | libbt/src/hardware.c:619-926 | Length of a run plus remaining measure never exceeds the initial measure |
| BringUpRuns.CanGoOn | libbt/src/hardware.c:619-926 | In any state but 0 some completion is possible: a run does not get stuck |
| BringUpRuns.StartsCleanlyIff | libbt/src/hardware.c:1133-1161 | With nothing outstanding, all buffers are accounted for after the start, and a result is due or reported, exactly when the first send is not refused |
| BringUpRuns.RestartCleanlyIff | libbt/src/hardware.c:1122-1162 | A start in any state of a run: the open file stays the driver's exactly when none was open, no second completion falls due exactly when the run was over or the reset does not go out, and otherwise the outstanding command stays due |
| BringUpRuns.RestartReportsTwice | libbt/src/hardware.c:1154-1161 | A start in mid-run without a buffer reports FAIL, and the completion still due reports it again |
| BringUpWitnesses.RestartForgetsFile | libbt/src/hardware.c:1127-1129 | For every file and setup there is a run in mid-download; a start there leaves the file open without a descriptor for it, whatever comes of the start |
| BringUpWitnesses.CleanupKeepsEvent | libbt/src/hardware.c:903-905 | After cleanup in any state of a run some completion ends it unreported and with its buffer kept |
| BringUpRuns.SuccessIff | libbt/src/hardware.c:835-900 | A completion makes the run report SUCCESS exactly when it succeeds in one of the last three states and no further command is accepted |
| BringUpRuns.SuccessRun | libbt/src/hardware.c:835-900 | Helper: in every run with SUCCESS reported the last command belongs to one of the last three states |
| BringUpCommands.GenuineRun | libbt/src/hardware.c:653-834 | Helper: every command of a run is one of the sequence's own packets, with its opcode and the state that goes with it |
| BringUpCommands.CommandsWellFormed | libbt/src/hardware.c:653-834 | In every run the opcode given to xmit_cb is the one in the packet, and every command except the patch records is a well-formed HCI command |
| BringUpCommands.CommandsSpelled | libbt/src/hardware.c:563-597 | Every command of every run, byte by byte: the address last byte first, the baud update with the little-endian target, the clock command 45 FC 01 01, the bare commands; opcodes as numbers |
| BringUpOrder.CommandsInOrder | libbt/src/hardware.c:651-900 | Every run sends its commands in the protocol's order: reset, clock for targets above 3000000 and only then, first baud update, name, MINIDRV, records, second reset, second baud update, and the read of the controller's address if that is configured, the write of the stack's if not or if there was no patch |
| BringUpOrder.ClockBeforeBaud | libbt/src/hardware.c:801-833 | In bytes: outside the records a baud update directly follows 45 FC 01 01 when the target is above 3000000 and the reset otherwise, and the clock command goes out for no other target |
| BringUpOrder.GoesOnIff | libbt/src/hardware.c:651-926 | A run goes on exactly when its completion is a success, somebody listens, there is a buffer and what the state calls for is accepted; MINIDRV goes out exactly when a patch file is found, opens and the command is accepted, a record exactly after a whole header, a payload read without error and no LAUNCH_RAM |
| BringUpOrder.OrderStep | libbt/src/hardware.c:651-900 | Helper: one step keeps the order |
| BringUpCommands.RecordWellFormedIff | libbt/src/hardware.c:742-766 | A patch record fits the command buffer, and is well formed exactly when its payload was read in full |
| BringUpCommands.SuccessEndsAddressing | libbt/src/hardware.c:835-899 | After SUCCESS the last accepted command is 01 FC 06 and the stack's address last byte first, or 09 10 00, or the second baud update; whether there is an address is the next row's matter |
| BringUpAddress.SuccessAddressedIff | libbt/src/hardware.c:835-899 | Over every run: SUCCESS means that the write of the stack's address completed or the controller reported an address that is not blank, exactly when no address command was refused after the second baud update or after a blank address |
| BringUpAddress.AddressStep | libbt/src/hardware.c:842-883 | The same for one completion, which ends the run if it gives an address or has it refused |
| BringUpWitnesses.AddressRefused | libbt/src/hardware.c:842-853 | For every file and setup there is a run that reports SUCCESS without an address |
| BringUpWitnesses.BlankAddressRefused | libbt/src/hardware.c:871-887 | With the controller's address wanted, also one whose last command was the read of it, which came back blank |
| BringUpWitnesses.ShortReadMalformed | libbt/src/hardware.c:755-763 | For every file whose first record has a payload there is a run that sends a malformed record |
| BringUpStreaming.DownloadsAPrefix | libbt/src/hardware.c:736-774 | For any short reads and failures the download packets, put end to end, are a prefix of the patch file, at most a third as many as it has bytes |
| BringUpStreaming.StreamStep | libbt/src/hardware.c:736-774 | One step keeps: bytes sent in the download are the file up to the read position while downloading |
| BringUpStreaming.StreamRun | libbt/src/hardware.c:736-774 | The same in every state of every run |
| BringUpSpeeds.PhaseTells | libbt/src/hardware.c:818-833 | Only the baud commands, which set the target speed, and patch records can move the controller's speed |
| BringUpSpeeds.SpeedStep | libbt/src/hardware.c:653-840 | Every step keeps what each state says about both ends' speeds |
| BringUpSpeeds.AgreeStep | libbt/src/hardware.c:653-840 | Every step keeps: all transmissions agreed so far exactly when each download command left the controller where the next one found the host |
| BringUpSpeeds.SpeedRun | libbt/src/hardware.c:653-840 | Both over every run |
| BringUpSpeeds.SuccessMeansTargetSpeed | libbt/src/hardware.c:835-840 | Once SUCCESS is reported the controller runs at the target, and the host does exactly when the target is in the baud tables |
| BringUpSpeeds.SpeedsAgreeIff | libbt/src/hardware.c:768-799 | For a supported target both ends agree at every transmission exactly when records do not move the speed and the download ended with a command that returns to 115200 |
| BringUpNominal.NominalRunDownloads | libbt/src/hardware.c:736-774 | For a file of whole records, full reads and every command accepted and successful: exactly the records up to and including the first LAUNCH_RAM, in order, one command each, and SUCCESS at the end |
| BringUpNominal.RunsNominally | libbt/src/hardware.c:736-840 | Helper: the invariant behind it over every such run, which is also a run of the general kind |
| BringUpNominal.StopsAtLaunch | libbt/src/hardware.c:747-748 | Helper: stopping after k records with none before the last being LAUNCH_RAM sends exactly the records up to the first LAUNCH_RAM |
| BringUpNominal.NextRecord | libbt/src/hardware.c:744-760 | Helper: after k records the file position is at record k, or at the end |
| BringUpNominal.NominalSpeedsAgreeIff | libbt/src/hardware.c:775-840 | A completed nominal run with a supported target agrees throughout exactly when the records of the file do, which can be read off the file beforehand; both ends finish at the target |
| BringUpNominal.LaunchDecides | libbt/src/hardware.c:775-785 | For files without baud-rate records that is exactly: there is a LAUNCH_RAM record, or the target is 115200 |
| BringUpNominal.NominalCompletes | libbt/src/hardware.c:651-900 | From every state of a run a nominal run leads to its end |
| BringUpWitnesses.NoLaunchDisagrees | libbt/src/hardware.c:775-799 | For every file of whole records with neither LAUNCH_RAM nor baud-rate records, and a supported target other than 115200, a run without failures reports SUCCESS although the ends disagreed at some transmission |
| BringUpWitnesses.UnsupportedSucceeds | libbt/src/hardware.c:835-840 | For every unsupported target and file of whole records a run without failures reports SUCCESS with the host at 115200 and the controller at the target |
| BringUpNominal.NominalGoesOn | libbt/src/hardware.c:651-900 | Helper: a nominal run that is not over can go on nominally |
| BringUpDriver.HwConfig.constructor | libbt/src/bt_vendor_nordic.c:81-85 | Callbacks registered, nothing sent, both ends at 115200 |
| BringUpDriver.HwConfig.HwConfigStart | libbt/src/hardware.c:1122-1162 | The whole new state of the start, whose first send's result is not looked at |
| BringUpDriver.HwConfig.HwConfigCback | libbt/src/hardware.c:619-926 | The callback, with the event buffer freed after the switch and a shared abort tail, takes the system exactly where the table says |
| BringUpDriver.HwConfig.Dispatch | libbt/src/hardware.c:651-900 | The switch, fall-throughs included, follows the table's row |
| BringUpDriver.HwConfig.Download | libbt/src/hardware.c:736-799 | The two download cases follow the table's row |
| BringUpDriver.HwConfig.EndDownload | libbt/src/hardware.c:775-799 | Host at 115200, second-pass flag set, reset sent |
| BringUpDriver.HwConfig.ReadRecord | libbt/src/hardware.c:742-774 | The next record is in the buffer with both reads consumed, or the file is closed and the descriptor -1 |
| BringUpDriver.HwConfig.LoadPatch | libbt/src/hardware.c:703-734 | MINIDRV if there is a patch file that opens, and the address in the same buffer if that is refused or there is none |
| BringUpDriver.HwConfig.SetAddress | libbt/src/hardware.c:835-898 | The last three states: address written or read, or the run concluded with SUCCESS |
| BringUpDriver.HwConfig.HwConfigSetBdaddr | libbt/src/hardware.c:554-579 | The buffer holds 01 FC 06 and the address last byte first, and the state changes even if it is refused |
| BringUpDriver.HwConfig.HwConfigReadBdaddr | libbt/src/hardware.c:592-607 | The same for READ_LOCAL_BDADDR |
| BringUpDriver.HwConfig.SendClock | libbt/src/hardware.c:804-814 | The buffer holds 45 FC 01 01, which selects the 48 MHz clock |
| BringUpDriver.HwConfig.SendBaud | libbt/src/hardware.c:819-832 | The packet carries the little-endian target, and the flag decides which baud state follows |
| BringUpDriver.HwConfig.Succeed | libbt/src/hardware.c:851-861 | Buffer freed, SUCCESS reported, file closed, state 0 |
| BringUpDriver.HwConfig.Abort | libbt/src/hardware.c:907-925 | The abort tail: buffer freed and FAIL reported if somebody listens; file closed and state 0 in any case |
| BringUpDriver.HwConfig.Cleanup | libbt/src/bt_vendor_nordic.c:238-245 | Only the callback table is taken away |
| BringUpDriver.EventFreedLast | libbt/src/hardware.c:903-905 | Helper: freeing the event buffer after the switch comes to the same as freeing it before |
| Hci.WellFormedIffPacket | libbt/src/hardware.c:100-103 | A packet is well formed for an opcode exactly when it is that opcode followed by a length and that many parameters |
| Hci.DecodeInvertsCommandComplete | libbt/src/hardware.c:633-635 | Opcode and status decode inverts the Command Complete layout (Bluetooth Core Specification 5.x, Vol 4 Part E, sections 5.4.1 and 7.7.14) |
| Hci.Le32RoundTrip | libbt/src/hardware.c:103 | Helper: the four bytes written for a 32-bit value read back as that value |
| Stream.Put | libbt/src/hardware.c:100-103 | Writing through the pointer appends the bytes, keeps what is before them and moves the pointer past them |
| Uart.TablesCompose | libbt/src/hardware.c:358-395 | The two baud tables composed give back a speed exactly when it is one of the thirteen supported ones, otherwise 115200 |
| Buffers.PassThrough | libbt/src/hardware.c:637-640 | Helper: a buffer acquired and then given away leaves the ledger settled; before that it is not |
| Buffers.HandOverCommutes | libbt/src/hardware.c:903-916 | Helper: what happens to two different buffers may happen in either order |
| ScoRuns.ConservedRun | libbt/src/hardware.c:973-1477 | Over any interleaving accepted starts equal audio_state_cb calls plus chains in flight, and every buffer was freed once or is the stack's |
| ScoRuns.ConservedStep | libbt/src/hardware.c:973-1477 | Each request, configuration and completion keeps that |
| ScoRuns.RequestCounts | libbt/src/hardware.c:1413-1499 | Helper: a request answered -1 starts nothing and is never reported; one answered 0 starts one chain |
| ScoRuns.CommandsWellFormed | libbt/src/hardware.c:1012-1048 | Every command of every interleaving is a well-formed HCI command |
| ScoRuns.FirstConfiguration | libbt/src/hardware.c:1275-1304 | With valid rates the first configuration takes the narrowband clock from the bus's own parameter, the wideband clock as the higher of that and the configured one, sets the interface mode, copies the role on the PCM bus and leaves the rest |
| ScoRuns.ConfigurationsReported | libbt/src/hardware.c:1319-1322 | scocfg_cb is called exactly once for every hw_sco_config of a run |
| ScoRuns.ClocksValidIff | libbt/src/hardware.c:1369-1385 | With requests before the first configuration, it yields valid clocks exactly when no I2SPCM command was built before it; otherwise both are 0xFF |
| ScoRuns.ClocksLostForGood | libbt/src/hardware.c:1297-1304 | In that case both clock rates and both clock parameters are 0xFF after whatever follows, further configurations included |
| ScoRuns.RegsStep | libbt/src/hardware.c:1275-1304 | Every step keeps the clock relations and never lowers the narrowband clock |
| ScoRuns.ClocksRun | libbt/src/hardware.c:1275-1385 | Once configured, the wideband clock never changes; the narrowband clock never decreases and is the first one or the wideband one |
| ScoChains.ChainsRun | libbt/src/hardware.c:973-1400 | Every chain in flight is at the command its plan says, with the bytes it should have |
| ScoChains.StartedOk | libbt/src/hardware.c:1275-1323 | Helper: the state after the first configuration satisfies both invariants |
| ScoChains.SuccessMeansPlanDone | libbt/src/hardware.c:995-1071 | Over any interleaving a chain is reported SUCCESS exactly when the controller has completed its whole plan, in order, each packet byte by byte: the wideband sample rate for mSBC and 0 for every other codec and at start-up, the mSBC clock the wideband one |
| ScoChains.PcmIntClockIff | libbt/src/hardware.c:1012-1020 | SCO_PCM_INT carries the clock of the I2SPCM command built last, so it matches its own chain exactly when that one does |
| ScoChains.PcmIntCarriesLast | libbt/src/hardware.c:1012-1020 | The former in every state of every run after the first configuration |
| ScoChains.OneClockIff | libbt/src/hardware.c:1297-1385 | On the PCM bus every chain reported SUCCESS, in every run, has had the same clock in I2SPCM and SCO_PCM_INT exactly when the wideband clock configured is not above the narrowband one |
| ScoChains.AloneSucceeds | libbt/src/hardware.c:1369-1391 | A request on its own in PCM mode is reported SUCCESS exactly when ENABLE_WBS (enabling for mSBC only), I2SPCM, SCO_PCM_INT and PCM_DATA_FORMAT were completed in that order, byte by byte with the codec's sample rate and one and the same clock, the codec's |
| ScoChains.OverlapMixesClocks | libbt/src/hardware.c:1369-1385 | Whenever the two clocks differ, an mSBC request overtaken by a CVSD request is reported SUCCESS with two different clocks |
| ScoDriver.ScoControl.HwScoConfig | libbt/src/hardware.c:1275-1323 | Registers, the start of the default chain in I2S mode and the report |
| ScoDriver.ScoControl.HwScoI2spcmConfig | libbt/src/hardware.c:1349-1400 | The shared arrays hold the wideband sample rate and clock for mSBC, 0 and the narrowband clock otherwise, and the packet is copied from them; FAIL is reported if it cannot be sent |
| ScoDriver.ScoControl.HwSetScoCodec | libbt/src/hardware.c:1413-1477 | ENABLE_WBS for the codec with its callback, or -1 with the buffer freed |
| ScoDriver.ScoControl.HwScoI2spcmConfigFromCommand | libbt/src/hardware.c:1325-1337 | Event freed; the chain goes on to I2SPCM or reports FAIL |
| ScoDriver.ScoControl.HwScoI2spcmCfgCback | libbt/src/hardware.c:973-1072 | Event freed; the chain goes on by opcode and bus, or reports its result |
| ScoDriver.ScoControl.CommandCompleted | libbt/src/hardware.c:1083-1104 | The callback chosen at the request runs with its codec |
| SleepMode.ConservedRun | libbt/src/hardware.c:941-956 | Over any interleaving, also with wake requests and timeouts, hw_lpm_enable calls equal lpm_cb calls plus sleep-mode commands in flight, all well formed, no buffer is kept and the timer invariant holds |
| SleepMode.RequestSends | libbt/src/hardware.c:1195-1211 | An accepted request puts one command in flight, 27 FC 0C and the parameters to turn sleep mode on or twelve zeros to turn it off; with a buffer, low-power mode is asserted exactly when it is turned on, and without one nothing is switched |
| SleepMode.SuccessesReported | libbt/src/hardware.c:941-956 | In every run SUCCESS is reported exactly as often as a sleep-mode command completes with status 0 |
| SleepMode.EnableKeeps | libbt/src/hardware.c:1173-1217 | One request keeps all of that |
| SleepMode.RequestsKept | libbt/src/hardware.c:1173-1217 | Helper: the part about requests and buffers |
| SleepMode.LpmControl.HwLpmEnable | libbt/src/hardware.c:1173-1217 | TRUE exactly when nothing has been reported yet; then the command with the parameters, or with zeros, is in flight; the wake lines switch whether or not the command is accepted |
| SleepMode.LpmControl.HwLpmCtrlCback | libbt/src/hardware.c:941-956 | One report with the event's status, event buffer freed |
| Upio.TimerRun | libbt/src/upio.c:197-235 | In every run timer_created holds exactly when one timer is live, it is the only one, and an armed timer means btwrite_active; from a state without a timer none fires until low-power mode is asserted again |
| Upio.TimerStep | libbt/src/upio.c:363-530 | Each request, timeout and cleanup-then-init keeps that |
| Upio.InitIff | libbt/src/upio.c:251-276 | Initialising keeps track of the timers exactly when none is live, as after cleanup |
| Upio.LpmOffIff | libbt/src/upio.c:375-444 | De-asserting low-power mode removes the timer exactly when the request is not cached and the node opens, or there was none |
| Upio.LpmOnIff | libbt/src/upio.c:410-437 | After asserting low-power mode there is a timer exactly when there was one, or the request was not cached, the node opened and took the value and the kernel had one |
| Upio.WakeArmsIff | libbt/src/upio.c:500-511 | A BT_WAKE request changes the timer exactly when it writes the node, and then arms it for an assertion and disarms it for a de-assertion |
| Upio.TimeoutDrops | libbt/src/upio.c:197-203 | A timeout leaves BT_WAKE de-asserted and the timer disarmed; the value is written exactly in the notifying build with a node that opens and takes it |
| Upio.SilentOnceOff | libbt/src/upio.c:394-408 | After such a de-assertion no timeout fires until the mode is asserted again |
| Upio.FiresAfterFailedOpen | libbt/src/upio.c:376-392 | After a failed opening an armed timer can fire and a second de-assertion changes nothing |
| Upio.FiresFromInit | libbt/src/upio.c:376-392 | From a fresh start: mode on, BT_WAKE asserted, mode off with a node that does not open, and the timeout fires |
| Upio.WakeRefines | libbt/src/upio.c:446-474 | In the ioctl build the ioctls are the requests without consecutive repeats; the last one is the last request and is what is cached |
| Upio.BtwriteRefines | libbt/src/upio.c:446-522 | In the proc build, with working nodes and no timeout in between, the values written are the requests without consecutive repeats, or without notification only the assertions among them |
| Upio.LpmRefines | libbt/src/upio.c:375-444 | Likewise the values written to the LPM node are the low-power requests without consecutive repeats |
| UpioDriver.UpioControl.UpioSet | libbt/src/upio.c:363-530 | The whole new state for each pin, early returns included |
| UpioDriver.UpioControl.UpioInit | libbt/src/upio.c:251-257 | All levels unknown and the control block cleared |
| UpioDriver.UpioControl.UpioCleanup | libbt/src/upio.c:268-276 | The timer is deleted if there is one |
| UpioDriver.UpioControl.UpioStartStopTimer | libbt/src/upio.c:214-235 | Armed on assertion, disarmed otherwise, if the timer is live |
| UpioDriver.UpioControl.ProcBtwriteTimeout | libbt/src/upio.c:197-203 | The timeout clears btwrite_active and drives BT_WAKE down |
| PatchSearch.SearchIsLongest | libbt/src/hardware.c:435-542 | The search succeeds exactly when some candidate prefix of the id has an admissible first match, and picks the longest; the name is at most 249 characters; otherwise the id is left cut to its shortest candidate |
| PatchSearch.SearchPromise | libbt/src/hardware.c:435-542 | Spelled out, for every folder with a path: a configured name is joined to the path; a folder that cannot be listed leaves the id; otherwise the entry listed first that starts with the longest suitable prefix and ends in .hcd, in whatever case, path and entry at most 248 characters, is joined to the path with a slash exactly if that does not end in one, and the search fails exactly when no prefix suits |
| PatchSearch.MatchesIff | libbt/src/hardware.c:467-478 | An entry matches exactly when its characters are those of the id up to case and its last four are '.', h, c, d up to case |
| PatchSearch.FullNameJoins | libbt/src/hardware.c:451-456 | The full name is path and name with a slash between them exactly if the path does not end in one |
| PatchSearch.SearchFails | libbt/src/hardware.c:510-534 | Helper: when nothing is found, no candidate was admissible and the id is a prefix of the original |
| PatchSearch.SearchWins | libbt/src/hardware.c:462-508 | Helper: when something is found, it is the first match of the longest admissible candidate |
| PatchSearch.CutShortens | libbt/src/hardware.c:514-532 | The cut is at the last character from index 3 on that is neither a digit nor M or m, so the id strictly shrinks; none only if there is no such character |
| PatchSearch.FirstMatchIsFirst | libbt/src/hardware.c:465-506 | The scan's match is the entry listed first among those that match, and there is none exactly when none matches |
| PatchDriver.HwConfigFindpatch | libbt/src/hardware.c:435-542 | The recursion on the shrinking zero-terminated string refines the search, result and string |
| PatchDriver.HwStrncmp | libbt/src/hardware.c:407-421 | 0 exactly when the first len characters are the same caselessly; neither string is read past its terminator |
| PatchDriver.Scan | libbt/src/hardware.c:465-506 | The readdir loop finds the first match |
| PatchDriver.FindCut | libbt/src/hardware.c:514-527 | The backward scan stops right after the cut, or at 3 |
| PatchDriver.StoreFullName | libbt/src/hardware.c:491-500 | The string is the path, a slash if missing, and the file name, in that order and nothing else |
| Conf.LastWriterWins | libbt/src/conf.c:94-147 | Each known key ends with the second token of the last line that sets it, or unchanged if there is none |
| Conf.LoadSets | libbt/src/conf.c:70-78 | Spelled out for each setting: after loading, the port, the patch path and the patch name are what the last line reading UartPort, FwPatchFilePath or FwPatchFileName says, or as before |
| Conf.EntryIff | libbt/src/conf.c:109-125 | A line is an entry exactly when it does not start with # and consists of separators (blank, =, newline, return, tab), a name, separators, a value, and then the end or a separator |
| Conf.ChunksSpell | libbt/src/conf.c:100-107 | What fgets delivers spells the file, each piece at most 255 characters, cut nowhere but after a newline or when full |
| Conf.LoadInvertsPrint | libbt/src/conf.c:107-138 | Loading printed assignments and comments carries out exactly the assignments |
| Conf.LoadGivesAssignment | libbt/src/conf.c:107-138 | After that each key has the value printed for it last, in any order; keys not printed keep theirs |
| Conf.ChunksAreLinesIff | libbt/src/conf.c:100-107 | The loader sees the file's lines exactly when each fits the line buffer |
| Conf.PrintedEntry | libbt/src/conf.c:112-119 | Helper: a printed assignment tokenises to its key and value |
| ConfDriver.Configuration.VndLoadConf | libbt/src/conf.c:94-147 | The nested loops over a line buffer cut up in place load the file as specified; a missing file changes nothing |
| ConfDriver.Configuration.LoadLine | libbt/src/conf.c:109-138 | One line in the buffer has the effect of its entry, and none if it is a comment or lacks a value |
| ConfDriver.Configuration.Act | libbt/src/conf.c:127-138 | The walk over the table calls the setter of the key, and none for an unknown one |
| ConfDriver.Fgets | libbt/src/conf.c:107 | The next line with its newline, or as much of it as fits |
| ConfDriver.Strtok | libbt/src/conf.c:112-119 | The next token, cut off in place, with the remaining tokens intact |

## Left out

- Real I/O: termios, opening and configuring the serial port, device nodes, sysfs power control, properties and sleeping. Their results are answers.
- Logging, debug macros and string tables.
- `unit_test/`, `mocks/` and `libbt/include/uipc_msg.h`: they exercise or describe libraries that are not in the repository.
- The dispatch in `op()`, and `init()` called again in mid-run. `init()` does not load the configuration file either; the call is commented out at `libbt/src/bt_vendor_nordic.c:110`.
- The local-name handling before the patch search (upper-casing, looking for the chip name, `local_chip_name`): in the bring-up, whether a patch file is found is an answer; the search itself is modelled separately.
- `hw_lpm_get_idle_timeout`, `look_up_fw_settlement_delay`, `ms_delay`, `is_emulator_context`: single lookups that would add only easy members.
- The epilog reset and the A2DP offload hooks: compiled out or foreign code.
- The `FwPatchSettlementDelay` key: compiled only with run-time tuning, which is off by default.
- SCO and LPM callbacks after `cleanup`: callbacks are taken to be registered there, as `libbt/src/hardware.c:1399` demands.
- Runs after a start in mid-run: what such a start does is stated by `RestartCleanlyIff` and `RestartReportsTwice`, what runs follow it is not; starts with nothing outstanding are covered by `EveryBringUpCompletes`.
- Polarity and UPIO_HOST_WAKE: without effect in the source. A hold-timer timeout of 0 ms, which compiles the timer out.
- BringUpDriver.HwConfig.HwConfigCback: does not capture the changes to the event's bytes made while the local name is read.
- UpioDriver.UpioControl.UpioStartStopTimer: setting a timer id that is not live is taken to have no effect; the kernel could have handed the same id to somebody else.
- PatchDriver.HwConfigFindpatch: assumes a non-empty path, a string buffer large enough for the full name and letters as in the C locale.
- ConfDriver.Configuration.VndLoadConf: assumes a text without NUL characters and values that fit the fixed-size targets; the settings are unbounded strings.
- Conf.LoadInvertsPrint: assumes that each printed line fits the line buffer, because a longer one is read in pieces.
