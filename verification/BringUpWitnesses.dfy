/** Runs in which the bring-up does not do what one would expect of it, each for every patch file and
    setup of its kind. */
module BringUpWitnesses {
  import opened Hci
  import opened BringUp
  import opened BringUpRuns
  import opened BringUpCommands
  import opened BringUpStreaming
  import opened BringUpSpeeds
  import opened BringUpNominal
  import opened BringUpAddress
  import opened Results
  import Uart

  // ----- reaching a phase -----

  lemma {:induction false} RunAppend(setup: Setup, s: Sys, xs: seq<Stimulus>, x: Stimulus)
    requires Run(setup, s, xs) && Enabled(After(setup, s, xs), x)
    ensures Run(setup, s, xs + [x]) && After(setup, s, xs + [x]) == Step(setup, After(setup, s, xs), x)
    ensures Refused(setup, s, xs + [x]) <==> Refused(setup, s, xs) || RefusesAddress(After(setup, s, xs), x)
    decreases |xs|
  {
    if xs != [] {
      RunAppend(setup, Step(setup, s, xs[0]), xs[1..], x);
      assert (xs + [x])[1..] == xs[1..] + [x];
    } else {
      assert [x][1..] == [];
    }
  }

  /** The download, or the second baud update, is still to come. */
  predicate Ahead(s: Sys, second: bool) {
    var p := s.driver.phase;
    if second then !p.Off? && !p.SetBdAddr? && !p.ReadBdAddr?
    else !s.driver.baud2 && (p.DlMinidriver? ==> s.world.pos == 0)
         && (p.Start? || p.SetUartClock? || p.SetUartBaud1? || p.ReadLocalName? || p.DlMinidriver?)
  }

  predicate Reached(s: Sys, second: bool) {
    if second then s.driver.phase.SetUartBaud2? else s.driver.phase.DlMinidriver?
  }

  lemma StaysAhead(setup: Setup, s: Sys, x: Stimulus, second: bool)
    requires Inv(s) && Ahead(s, second) && !Reached(s, second) && Enabled(s, x) && Nominal(s, x)
    ensures var t := Step(setup, s, x); Ahead(t, second) && t.registered
  {
    StepIsRow(setup, s, x);
  }

  /** Nominal completions lead to the download, and on to the second baud update. */
  lemma {:induction false} Reaches(setup: Setup, s: Sys, second: bool) returns (xs: seq<Stimulus>)
    requires Inv(s) && s.registered && Ahead(s, second)
    ensures Run(setup, s, xs)
    ensures var t := After(setup, s, xs);
            Inv(t) && t.registered && Reached(t, second) && Ahead(t, second) && t.world.file == s.world.file
    decreases Rank(s)
  {
    xs := [];
    if !Reached(s, second) {
      var x := NominalGoesOn(s);
      InvStep(setup, s, x);
      RankStep(setup, s, x);
      StaysAhead(setup, s, x, second);
      var rest := Reaches(setup, Step(setup, s, x), second);
      xs := [x] + rest;
      assert xs[1..] == rest;
    }
  }

  /** A successful completion of the pending command, with a blank address in it. */
  function Completion(s: Sys, answers: Answers): (x: Stimulus)
    requires s.world.pending.Some?
    ensures x.Complete? && x.answers == answers && |x.event| == BDADDR_AT + 6
    ensures Opcode(x.event) == s.world.pending.value.opcode && Status(x.event) == 0 && Blank(x.event)
  {
    DecodeInvertsCommandComplete(1, s.world.pending.value.opcode, [0, 0, 0, 0, 0, 0, 0]);
    Complete(CommandComplete(1, s.world.pending.value.opcode, [0, 0, 0, 0, 0, 0, 0]), answers)
  }

  // ----- SUCCESS without an address -----

  lemma RefusalSucceeds(setup: Setup, s: Sys, x: Stimulus)
    requires Inv(s) && Enabled(s, x) && RefusesAddress(s, x)
    ensures Step(setup, s, x).world.reports == [Success] && Step(setup, s, x).world.commands == s.world.commands
  {
    AddressStep(setup, s, x);
    InvStep(setup, s, x);
    StepSends(setup, s, x);
    SuccessIff(setup, s, x);
  }

  const REFUSED := Answers(true, false, false, false, -1, None, None)

  /** Whatever the file and the setup, the address command after the second baud update may be refused,
      and then SUCCESS is reported without an address. */
  lemma AddressRefused(setup: Setup, file: seq<byte>) returns (xs: seq<Stimulus>)
    ensures Run(setup, Launched(file), xs) && After(setup, Launched(file), xs).world.reports == [Success]
    ensures !Addressed(setup, Launched(file), xs)
  {
    InvLaunched(file);
    xs := Reaches(setup, Launched(file), true);
    var t := After(setup, Launched(file), xs);
    var x := Completion(t, REFUSED);
    RefusalSucceeds(setup, t, x);
    RunAppend(setup, Launched(file), xs, x);
    xs := xs + [x];
    AddressRun(setup, Launched(file), xs);
  }

  /** The same when the controller's own address is asked for, read, and blank. */
  lemma BlankAddressRefused(setup: Setup, file: seq<byte>) returns (xs: seq<Stimulus>)
    requires setup.otpAddress
    ensures Run(setup, Launched(file), xs)
    ensures var w := After(setup, Launched(file), xs).world;
            && w.reports == [Success] && w.commands != []
            && w.commands[|w.commands| - 1].packet == [0x09, 0x10, 0]
    ensures !Addressed(setup, Launched(file), xs)
  {
    InvLaunched(file);
    xs := Reaches(setup, Launched(file), true);
    var s := After(setup, Launched(file), xs);
    var x := NominalGoesOn(s);
    AsksForAddress(setup, s, x);
    RunAppend(setup, Launched(file), xs, x);
    var t := Step(setup, s, x);
    var y := Completion(t, REFUSED);
    RefusalSucceeds(setup, t, y);
    RunAppend(setup, Launched(file), xs + [x], y);
    xs := xs + [x] + [y];
    AddressRun(setup, Launched(file), xs);
  }

  lemma AsksForAddress(setup: Setup, s: Sys, x: Stimulus)
    requires Inv(s) && s.driver.phase.SetUartBaud2? && setup.otpAddress && Enabled(s, x) && Nominal(s, x)
    ensures var t := Step(setup, s, x);
            && Inv(t) && t.registered && t.driver.phase.ReadBdAddr? && t.world.commands != []
            && t.world.commands[|t.world.commands| - 1].packet == [0x09, 0x10, 0]
  {
    InvStep(setup, s, x);
    StepIsRow(setup, s, x);
    assert Chosen(Row(setup, s, x), x.answers) == Some(ReadAddress);
  }

  // ----- speeds -----

  /** Over a file of whole records without LAUNCH_RAM or baud-rate records, and with a supported target
      other than 115200, a run in which nothing goes wrong reports SUCCESS although host and controller
      were at different speeds at some transmission. */
  lemma NoLaunchDisagrees(setup: Setup, rs: Records) returns (xs: seq<Stimulus>)
    requires Uart.Supported(setup.target) && setup.target != INITIAL
    requires forall r :: r in rs ==> ReadLe16(r, 0) != LAUNCH_RAM && ReadLe16(r, 0) != UPDATE_BAUDRATE
    ensures Run(setup, Launched(Flat(rs)), xs)
    ensures var w := After(setup, Launched(Flat(rs)), xs).world; w.reports == [Success] && !Agreed(w.commands)
  {
    InvLaunched(Flat(rs));
    xs := NominalCompletes(setup, Launched(Flat(rs)));
    NominalRunDownloads(setup, rs, xs);
    NominalSpeedsAgreeIff(setup, rs, xs);
    UpToLaunchFrom(rs);
    LaunchDecides(setup, rs);
  }

  lemma {:induction false} UpToLaunchFrom(rs: Records)
    ensures forall r :: r in UpToLaunch(rs) ==> r in rs
  {
    if rs != [] {
      UpToLaunchFrom(rs[1..]);
    }
  }

  /** With an unsupported target a run in which nothing goes wrong reports SUCCESS with the host at 115200
      and the controller at the target. */
  lemma UnsupportedSucceeds(setup: Setup, rs: Records) returns (xs: seq<Stimulus>)
    requires !Uart.Supported(setup.target)
    ensures Run(setup, Launched(Flat(rs)), xs)
    ensures var w := After(setup, Launched(Flat(rs)), xs).world;
            w.reports == [Success] && w.host == INITIAL && w.controller == setup.target != INITIAL
  {
    InvLaunched(Flat(rs));
    xs := NominalCompletes(setup, Launched(Flat(rs)));
    NominalRunDownloads(setup, rs, xs);
    SpeedLaunched(setup, Flat(rs), xs);
    Uart.TablesCompose(setup.target);
  }

  // ----- malformed records -----

  /** Whenever the first record has a payload, a short read makes the driver send a malformed command. */
  lemma ShortReadMalformed(setup: Setup, file: seq<byte>) returns (xs: seq<Stimulus>)
    requires |file| >= PREAMBLE && file[2] > 0
    ensures Run(setup, Launched(file), xs)
    ensures var cs := After(setup, Launched(file), xs).world.commands;
            && cs != [] && cs[|cs| - 1].phase.DlFwPatch?
            && !WellFormed(cs[|cs| - 1].opcode, cs[|cs| - 1].packet)
  {
    InvLaunched(file);
    xs := Reaches(setup, Launched(file), false);
    var t := After(setup, Launched(file), xs);
    GenuineLaunched(setup, file);
    GenuineRun(setup, Launched(file), xs);
    var x := Completion(t, Answers(true, true, false, false, -1, Some(file[..PREAMBLE]), Some([])));
    MinidriverCompletes(setup, t, x);
    RunAppend(setup, Launched(file), xs, x);
    xs := xs + [x];
  }

  lemma MinidriverCompletes(setup: Setup, s: Sys, x: Stimulus)
    requires Inv(s) && s.registered && s.driver.phase.DlMinidriver? && s.world.pos == 0
    requires x.Complete? && |x.event| > STATUS_AT && Status(x.event) == 0
    requires Opcode(x.event) == s.world.pending.value.opcode && Genuine(setup, s.world.pending.value)
    requires |s.world.file| >= PREAMBLE && s.world.file[2] > 0
    requires x.answers == Answers(true, true, false, false, -1, Some(s.world.file[..PREAMBLE]), Some([]))
    ensures Enabled(s, x)
    ensures var cs := Step(setup, s, x).world.commands;
            && cs != [] && cs[|cs| - 1].phase.DlFwPatch?
            && !WellFormed(cs[|cs| - 1].opcode, cs[|cs| - 1].packet)
  {
    PendingLaunches(setup, s.world.pending.value);
    DownloadSends(setup, s, x);
    assert Step(setup, s, x).world.pending.value.packet == s.world.file[..PREAMBLE] + [];
  }

  // ----- start and cleanup in mid-run -----

  /** A start during the download, whatever comes of it, leaves a file open that the driver has no
      descriptor for. */
  lemma RestartForgetsFile(setup: Setup, file: seq<byte>, alloc: bool, accept: bool) returns (xs: seq<Stimulus>)
    ensures Run(setup, Launched(file), xs)
    ensures var s := After(setup, Launched(file), xs);
            var t := Begin(s, alloc, accept);
            && Downloading(s.driver.phase) && s.world.pending.Some? && s.driver.fd != -1
            && t.driver.fd == -1 && t.world.open == Some(s.driver.fd) && !FileInv(t.driver, t.world)
            && (t.world.fault <==> alloc && accept)
  {
    InvLaunched(file);
    xs := Reaches(setup, Launched(file), false);
    RestartCleanlyIff(After(setup, Launched(file), xs), alloc, accept);
  }

  /** Cleanup in mid-run: the next event's buffer stays with the library. */
  lemma CleanupKeepsEvent(setup: Setup, s: Sys) returns (x: Stimulus)
    requires Inv(s) && s.registered && !s.driver.phase.Off?
    ensures Run(setup, s, [Cleanup, x])
    ensures var t := After(setup, s, [Cleanup, x]);
            t.driver.phase.Off? && t.world.reports == [] && !t.world.buffers.Settled()
  {
    var t := Step(setup, s, Cleanup);
    InvStep(setup, s, Cleanup);
    x := CanGoOn(t);
    BufferStep(setup, t, x);
    StepIsRow(setup, t, x);
    RunAppend(setup, s, [], Cleanup);
    assert [] + [Cleanup] == [Cleanup] && [Cleanup] + [x] == [Cleanup, x];
    RunAppend(setup, s, [Cleanup], x);
  }
}
