/** What every run of the bring-up protocol keeps: resources, termination, completion. */
module BringUpRuns {
  import opened Hci
  import opened Buffers
  import opened BringUp
  import opened Results

  // ----- the inductive invariant -----

  /** Which phases go with an open patch file and with the second-pass flag. */
  predicate PhaseInv(d: Driver, opens: nat) {
    match d.phase
    case Off => d.fd == -1
    case Start => d.fd == -1 && (d.baud2 || opens == 0)
    case SetUartClock => d.fd == -1 && (d.baud2 || opens == 0)
    case SetUartBaud1 => d.fd == -1 && !d.baud2 && opens == 0
    case ReadLocalName => d.fd == -1 && !d.baud2 && opens == 0
    case DlMinidriver => d.fd != -1 && !d.baud2
    case DlFwPatch => d.fd != -1 && !d.baud2
    case SetUartBaud2 => d.fd == -1 && d.baud2
    case ReadBdAddr => d.fd == -1 && d.baud2
    case SetBdAddr => d.baud2 ==> d.fd == -1
  }

  /** The patch file is opened at most once and the driver's descriptor is the open one. */
  predicate FileInv(d: Driver, w: World) {
    && d.fd >= -1
    && w.open == (if d.fd == -1 then None else Some(d.fd))
    && w.opens == w.closes + (if w.open.Some? then 1 else 0)
    && w.opens <= 1
    && w.pos <= |w.file|
  }

  /** A phase other than Off has exactly one command outstanding, the one sent last, and nothing reported;
      Off has none, and one report if anybody was listening. */
  predicate PendingInv(s: Sys) {
    var w := s.world;
    && !w.fault
    && (s.driver.phase.Off? ==> w.pending.None? && |w.reports| <= 1 && (s.registered ==> |w.reports| == 1))
    && (!s.driver.phase.Off? ==>
          && w.pending.Some? && w.reports == []
          && |w.commands| > 0 && w.commands[|w.commands| - 1] == w.pending.value
          && w.pending.value.phase == s.driver.phase)
  }

  /** Nothing is left in the library's hands, except the event that arrived after cleanup. */
  ghost predicate BufferInv(s: Sys) {
    var l := s.world.buffers;
    l.Settled() || (!s.registered && s.driver.phase.Off? && l.next > 0 && l.Holds(l.next - 1))
  }

  ghost predicate Inv(s: Sys) {
    PhaseInv(s.driver, s.world.opens) && FileInv(s.driver, s.world) && PendingInv(s) && BufferInv(s)
      && (!s.driver.phase.Off? ==> s.world.buffers.Settled())
  }

  lemma InvLaunched(file: seq<byte>)
    ensures Inv(Launched(file))
  {
    PassThrough(EMPTY, Stack);
  }

  /** The completion reaches the table: it is a success, somebody listens and a buffer was to be had. */
  predicate Proceeds(s: Sys, x: Stimulus)
    requires Enabled(s, x) && x.Complete?
  {
    Status(x.event) == 0 && s.registered && x.answers.alloc
  }

  /** The row of the table a completion reaches, with the event buffer freed and a command buffer allocated. */
  function Row(setup: Setup, s: Sys, x: Stimulus): Reaction
    requires Enabled(s, x) && x.Complete? && Proceeds(s, x)
  {
    var w := Free(Deliver(s.world, x.event), s.world.buffers.next);
    React(setup, s.driver, w.(buffers := w.buffers.Acquire()), x.event, x.answers)
  }

  predicate Leads(r: Reaction, o: Order) {
    (r.first.Some? && r.first.value == o) || (r.second.Some? && r.second.value == o)
  }

  lemma StepIsRow(setup: Setup, s: Sys, x: Stimulus)
    requires Enabled(s, x) && x.Complete?
    ensures Proceeds(s, x) ==>
              Step(setup, s, x) == Conclude(setup, s.registered, Row(setup, s, x), s.world.buffers.next + 1, x.answers)
    ensures !Proceeds(s, x) ==>
              Step(setup, s, x) == Finish(s.(world := if s.registered
                                                       then Free(Deliver(s.world, x.event), s.world.buffers.next)
                                                       else Deliver(s.world, x.event)), Fail)
  {
  }

  /** One row of the table: the effects keep the file in step with the driver, leave everything that
      Conclude settles alone, and every order leads to a phase that fits. */
  lemma RowInv(setup: Setup, s: Sys, x: Stimulus)
    requires PhaseInv(s.driver, s.world.opens) && FileInv(s.driver, s.world) && PendingInv(s)
    requires Enabled(s, x) && x.Complete? && Proceeds(s, x)
    ensures var r := Row(setup, s, x);
            && FileInv(r.driver, r.world) && !r.world.fault
            && (forall o :: Leads(r, o) ==> PhaseInv(r.driver.(phase := PhaseOf(o)), r.world.opens))
            && r.world.buffers == s.world.buffers.Acquire().HandOver(s.world.buffers.next, Freed).Acquire()
            && r.world.reports == [] && r.world.commands == s.world.commands && r.world.pending == None
  {
  }

  lemma BufferStep(setup: Setup, s: Sys, x: Stimulus)
    requires Inv(s) && Enabled(s, x)
    ensures BufferInv(Step(setup, s, x))
    ensures x.Complete? ==> (Step(setup, s, x).world.buffers.Settled() <==> s.registered)
    ensures !Step(setup, s, x).driver.phase.Off? ==> Step(setup, s, x).world.buffers.Settled()
  {
    if x.Complete? {
      StepIsRow(setup, s, x);
      var l := s.world.buffers;
      PassThrough(l, Freed);
      if Proceeds(s, x) {
        RowInv(setup, s, x);
        PassThrough(l.Acquire().HandOver(l.next, Freed), Freed);
        PassThrough(l.Acquire().HandOver(l.next, Freed), Stack);
      }
    }
  }

  lemma ConcludeInv(setup: Setup, registered: bool, r: Reaction, buffer: nat, answers: Answers)
    requires FileInv(r.driver, r.world) && !r.world.fault && r.world.pending.None? && r.world.reports == []
    requires forall o :: Leads(r, o) ==> PhaseInv(r.driver.(phase := PhaseOf(o)), r.world.opens)
    ensures var t := Conclude(setup, registered, r, buffer, answers);
            PhaseInv(t.driver, t.world.opens) && FileInv(t.driver, t.world) && PendingInv(t)
  {
  }

  lemma InvStep(setup: Setup, s: Sys, x: Stimulus)
    requires Inv(s) && Enabled(s, x)
    ensures Inv(Step(setup, s, x))
  {
    BufferStep(setup, s, x);
    if x.Complete? {
      StepIsRow(setup, s, x);
      if Proceeds(s, x) {
        RowInv(setup, s, x);
        ConcludeInv(setup, s.registered, Row(setup, s, x), s.world.buffers.next + 1, x.answers);
      }
    }
  }

  lemma {:induction false} InvRun(setup: Setup, s: Sys, xs: seq<Stimulus>)
    requires Inv(s) && Run(setup, s, xs)
    ensures Inv(After(setup, s, xs))
    decreases |xs|
  {
    if xs != [] {
      InvStep(setup, s, xs[0]);
      InvRun(setup, Step(setup, s, xs[0]), xs[1..]);
    }
  }

  /** The command a completion makes the library send, if any. */
  function Outgoing(setup: Setup, s: Sys, x: Stimulus): Option<Command>
    requires Enabled(s, x) && x.Complete?
  {
    if !Proceeds(s, x) then None
    else
      var r := Row(setup, s, x);
      match Chosen(r, x.answers)
      case None => None
      case Some(o) => Some(Command(PhaseOf(o), OpcodeOf(o), PacketOf(setup, o), r.world.host, r.world.controller))
  }

  /** The world once the row's effects are done and before anything is sent. */
  function Effects(setup: Setup, s: Sys, x: Stimulus): World
    requires Enabled(s, x) && x.Complete?
  {
    if Proceeds(s, x) then Row(setup, s, x).world else Deliver(s.world, x.event)
  }

  lemma RowSendsNothing(setup: Setup, s: Sys, x: Stimulus)
    requires Enabled(s, x) && x.Complete? && Proceeds(s, x)
    ensures Row(setup, s, x).world.commands == s.world.commands
  {
  }

  lemma ConcludeSends(setup: Setup, registered: bool, r: Reaction, buffer: nat, answers: Answers)
    ensures var t := Conclude(setup, registered, r, buffer, answers);
            var w := r.world;
            && t.world.file == w.file && t.world.pos == w.pos && t.world.opens == w.opens
            && t.world.host == w.host && t.world.controller == w.controller
            && match Chosen(r, answers)
               case None => t.world.commands == w.commands && t.driver.phase.Off? && t.world.pending == w.pending
               case Some(o) =>
                 var c := Command(PhaseOf(o), OpcodeOf(o), PacketOf(setup, o), w.host, w.controller);
                 t.world.commands == w.commands + [c] && t.driver.phase == c.phase && t.world.pending == Some(c)
  {
  }

  lemma StepSends(setup: Setup, s: Sys, x: Stimulus)
    requires Enabled(s, x) && x.Complete?
    ensures var t := Step(setup, s, x).world;
            var w := Effects(setup, s, x);
            var sent := Outgoing(setup, s, x);
            && t.commands == s.world.commands + (if sent.Some? then [sent.value] else [])
            && Step(setup, s, x).driver.phase == (if sent.Some? then sent.value.phase else Off)
            && t.pending == (if sent.Some? then sent else w.pending)
            && t.file == w.file && t.pos == w.pos && t.opens == w.opens && t.host == w.host
            && t.controller == w.controller
  {
    StepIsRow(setup, s, x);
    if Proceeds(s, x) {
      RowSendsNothing(setup, s, x);
      ConcludeSends(setup, s.registered, Row(setup, s, x), s.world.buffers.next + 1, x.answers);
    }
  }

  // ----- termination and completion -----

  /** Completions still to come at most: phases left, the download counted in whole record headers. */
  function PhaseRank(d: Driver, size: nat, pos: nat): nat
    requires pos <= size
  {
    match d.phase
    case Off => 0
    case SetBdAddr => 1
    case ReadBdAddr => 2
    case SetUartBaud2 => 3
    case SetUartClock => if d.baud2 then 4 else size / PREAMBLE + 10
    case Start => if d.baud2 then 5 else size / PREAMBLE + 11
    case DlFwPatch => (size - pos) / PREAMBLE + 6
    case DlMinidriver => (size - pos) / PREAMBLE + 7
    case ReadLocalName => size / PREAMBLE + 8
    case SetUartBaud1 => size / PREAMBLE + 9
  }

  function Rank(s: Sys): nat
    requires s.world.pos <= |s.world.file|
  {
    PhaseRank(s.driver, |s.world.file|, s.world.pos) + if s.registered then 1 else 0
  }

  lemma RowRank(setup: Setup, s: Sys, x: Stimulus)
    requires Inv(s) && Enabled(s, x) && x.Complete? && Proceeds(s, x)
    ensures var r := Row(setup, s, x);
            && r.world.file == s.world.file && r.world.pos <= |s.world.file|
            && forall o :: Leads(r, o) ==>
                 PhaseRank(r.driver.(phase := PhaseOf(o)), |s.world.file|, r.world.pos)
                 < PhaseRank(s.driver, |s.world.file|, s.world.pos)
  {
    if Downloading(s.driver.phase) {
      RowRankDownload(setup, s, x);
    }
  }

  lemma RowRankDownload(setup: Setup, s: Sys, x: Stimulus)
    requires Inv(s) && Enabled(s, x) && x.Complete? && Proceeds(s, x) && Downloading(s.driver.phase)
    ensures var r := Row(setup, s, x);
            && r.world.file == s.world.file && r.world.pos <= |s.world.file|
            && r.first.Some? && r.second.None?
            && PhaseRank(r.driver.(phase := PhaseOf(r.first.value)), |s.world.file|, r.world.pos)
               < PhaseRank(s.driver, |s.world.file|, s.world.pos)
  {
    if SendsRecord(s.driver, x.event, x.answers) {
      var next := Row(setup, s, x).world.pos;
      assert |s.world.file| - next <= |s.world.file| - s.world.pos - PREAMBLE;
    }
  }

  lemma RankStep(setup: Setup, s: Sys, x: Stimulus)
    requires Inv(s) && Enabled(s, x)
    ensures var t := Step(setup, s, x);
            && t.world.pos <= |t.world.file| && Rank(t) < Rank(s)
            && t.world.file == s.world.file && |t.world.commands| <= |s.world.commands| + 1
  {
    if x.Complete? {
      StepIsRow(setup, s, x);
      if Proceeds(s, x) {
        RowInv(setup, s, x);
        RowRank(setup, s, x);
      }
    }
  }

  lemma {:induction false} RankRun(setup: Setup, s: Sys, xs: seq<Stimulus>)
    requires Inv(s) && Run(setup, s, xs)
    ensures var t := After(setup, s, xs);
            && t.world.pos <= |t.world.file| && |xs| + Rank(t) <= Rank(s)
            && t.world.file == s.world.file && |t.world.commands| <= |s.world.commands| + |xs|
    decreases |xs|
  {
    if xs != [] {
      RankStep(setup, s, xs[0]);
      InvStep(setup, s, xs[0]);
      RankRun(setup, Step(setup, s, xs[0]), xs[1..]);
    }
  }

  /** A run that is not over can always go on: some completion of the pending command is possible. */
  lemma CanGoOn(s: Sys) returns (x: Stimulus)
    requires Inv(s) && !s.driver.phase.Off?
    ensures x.Complete? && Enabled(s, x)
  {
    var opcode := s.world.pending.value.opcode;
    var returned: seq<byte> := [0, 0, 0, 0, 0, 0, 0];
    DecodeInvertsCommandComplete(1, opcode, returned);
    x := Complete(CommandComplete(1, opcode, returned), Answers(false, false, false, false, -1, None, None));
  }

  /** Every run started by hw_config_start is finite, with a bound that grows by one event for every
      three bytes of the patch file.  It is over exactly when no completion can arrive; then the driver
      is in state 0 with the file closed again if it was opened, no buffer kept, and one report made
      (none only if cleanup came first). */
  lemma EveryRunCompletes(setup: Setup, file: seq<byte>, xs: seq<Stimulus>)
    requires Run(setup, Launched(file), xs)
    ensures var t := After(setup, Launched(file), xs);
            && |xs| <= |file| / PREAMBLE + 12 && |t.world.commands| <= |file| / PREAMBLE + 13
            && !t.world.fault && !t.world.buffers.misused && BufferInv(t) && |t.world.reports| <= 1
            && (t.driver.phase.Off? <==> forall x: Stimulus :: x.Complete? ==> !Enabled(t, x))
            && (t.driver.phase.Off? ==>
                  && t.driver.fd == -1 && t.world.open.None? && t.world.closes == t.world.opens <= 1
                  && (t.registered ==> |t.world.reports| == 1 && t.world.buffers.Settled()))
            && (!t.driver.phase.Off? ==> t.world.reports == [] && t.world.buffers.Settled())
  {
    var s := Launched(file);
    InvLaunched(file);
    InvRun(setup, s, xs);
    RankRun(setup, s, xs);
    var t := After(setup, s, xs);
    if !t.driver.phase.Off? {
      var x := CanGoOn(t);
      assert Enabled(t, x);
    }
  }

  // ----- what the start does not look at -----

  /** hw_config_start ignores the result of its first send: with no command outstanding, the buffer is
      accounted for, and the run under way or reported, exactly when the send is not refused. */
  lemma StartsCleanlyIff(s: Sys, alloc: bool, accept: bool)
    requires s.registered && s.world.buffers.Settled() && s.world.pending.None?
    ensures var t := Begin(s, alloc, accept);
            && (t.world.buffers.Settled() <==> !alloc || accept)
            && (t.world.pending.Some? || t.world.reports != s.world.reports <==> !alloc || accept)
  {
    PassThrough(s.world.buffers, Stack);
  }

  /** A start in any state of a run: the driver's descriptor stays the open one exactly when no file was
      open; no second completion becomes due exactly when the run was over or the reset does not go
      out; and a reset that does not go out leaves the command outstanding as it was. */
  lemma RestartCleanlyIff(s: Sys, alloc: bool, accept: bool)
    requires Inv(s) && s.registered
    ensures var t := Begin(s, alloc, accept);
            && (FileInv(t.driver, t.world) <==> s.driver.fd == -1)
            && (!t.world.fault <==> s.driver.phase.Off? || !alloc || !accept)
            && (t.world.buffers.Settled() <==> !alloc || accept)
            && (!alloc || !accept ==> t.world.pending == s.world.pending)
  {
    PassThrough(s.world.buffers, Stack);
  }

  /** A start in mid-run that gets no buffer reports FAIL at once, and the completion still due makes the
      handler report FAIL again. */
  lemma RestartReportsTwice(setup: Setup, s: Sys, x: Stimulus)
    requires Inv(s) && s.registered && Enabled(s, x) && x.Complete?
    ensures var t := Begin(s, false, false);
            Enabled(t, x) && Step(setup, t, x).world.reports == [Fail, Fail]
  {
    var t := Begin(s, false, false);
    assert t.world.reports == [Fail];
  }

  // ----- what SUCCESS means -----

  predicate Addressing(p: Phase) {
    p.SetUartBaud2? || p.SetBdAddr? || p.ReadBdAddr?
  }

  /** A completion makes the run report SUCCESS exactly when it is a success itself, arrives in one of
      the last three phases, and no further command goes out - also because one was refused. */
  lemma SuccessIff(setup: Setup, s: Sys, x: Stimulus)
    requires Inv(s) && Enabled(s, x) && x.Complete?
    ensures Success in Step(setup, s, x).world.reports <==>
              Proceeds(s, x) && Addressing(s.driver.phase) && Outgoing(setup, s, x).None?
  {
    StepIsRow(setup, s, x);
    if Proceeds(s, x) {
      RowInv(setup, s, x);
    }
  }

  predicate EndsAddressing(s: Sys) {
    var cs := s.world.commands;
    Success in s.world.reports ==> cs != [] && Addressing(cs[|cs| - 1].phase)
  }

  lemma {:induction false} SuccessRun(setup: Setup, s: Sys, xs: seq<Stimulus>)
    requires Inv(s) && EndsAddressing(s) && Run(setup, s, xs)
    ensures EndsAddressing(After(setup, s, xs))
    decreases |xs|
  {
    if xs != [] {
      InvStep(setup, s, xs[0]);
      if xs[0].Complete? {
        SuccessIff(setup, s, xs[0]);
        StepSends(setup, s, xs[0]);
        assert Outgoing(setup, s, xs[0]).None? ==> Step(setup, s, xs[0]).world.commands == s.world.commands;
      }
      SuccessRun(setup, Step(setup, s, xs[0]), xs[1..]);
    }
  }
}
