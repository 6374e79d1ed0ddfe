/** In which order the commands of a run go out, and what makes a completion send one. */
module BringUpOrder {
  import opened Hci
  import opened BringUp
  import opened BringUpRuns
  import opened BringUpCommands
  import opened BringUpAddress
  import opened Results

  /** Which command may come directly after which; `downloaded` tells whether a download has been begun. */
  predicate MayFollow(setup: Setup, downloaded: bool, prev: Phase, next: Phase) {
    match next
    case Off => false
    case Start => prev.DlMinidriver? || prev.DlFwPatch?
    case SetUartClock => setup.target > 3000000 && prev.Start?
    case SetUartBaud1 => !downloaded && if setup.target > 3000000 then prev.SetUartClock? else prev.Start?
    case SetUartBaud2 => downloaded && if setup.target > 3000000 then prev.SetUartClock? else prev.Start?
    case ReadLocalName => prev.SetUartBaud1?
    case DlMinidriver => prev.ReadLocalName?
    case DlFwPatch => prev.DlMinidriver? || prev.DlFwPatch?
    case ReadBdAddr => setup.otpAddress && prev.SetUartBaud2?
    case SetBdAddr => prev.ReadLocalName? || (if setup.otpAddress then prev.ReadBdAddr? else prev.SetUartBaud2?)
  }

  predicate Downloaded(cs: seq<Command>, n: int) {
    exists j :: 0 <= j < n && j < |cs| && cs[j].phase.DlMinidriver?
  }

  predicate Ordered(setup: Setup, cs: seq<Command>) {
    && cs != [] && cs[0].phase.Start?
    && forall i :: 0 < i < |cs| ==> MayFollow(setup, Downloaded(cs, i), cs[i - 1].phase, cs[i].phase)
  }

  /** Phases that only some setups know. */
  predicate PhaseFits(setup: Setup, p: Phase) {
    (p.ReadBdAddr? ==> setup.otpAddress) && (p.SetUartClock? ==> setup.target > 3000000)
  }

  predicate OrderInv(setup: Setup, s: Sys) {
    var cs := s.world.commands;
    && Ordered(setup, cs)
    && PhaseFits(setup, s.driver.phase)
    && (!s.driver.phase.Off? ==> (Downloaded(cs, |cs|) <==> s.driver.baud2 || Downloading(s.driver.phase)))
  }

  lemma OrderedOneMore(setup: Setup, cs: seq<Command>, c: Command)
    requires Ordered(setup, cs) && MayFollow(setup, Downloaded(cs, |cs|), cs[|cs| - 1].phase, c.phase)
    ensures Ordered(setup, cs + [c])
    ensures Downloaded(cs + [c], |cs| + 1) <==> Downloaded(cs, |cs|) || c.phase.DlMinidriver?
  {
    var all := cs + [c];
    assert forall i :: 0 <= i < |cs| ==> all[i] == cs[i];
    forall i | 0 <= i <= |cs| ensures Downloaded(all, i) <==> Downloaded(cs, i) {
    }
    assert all[|cs|] == c;
  }

  lemma RowOrder(setup: Setup, s: Sys, x: Stimulus)
    requires Inv(s) && Enabled(s, x) && x.Complete? && Proceeds(s, x)
    requires PhaseFits(setup, s.driver.phase)
    ensures var r := Row(setup, s, x);
            var downloaded := s.driver.baud2 || Downloading(s.driver.phase);
            forall o :: Leads(r, o) ==>
              && MayFollow(setup, downloaded, s.driver.phase, PhaseOf(o))
              && (r.driver.baud2 || Downloading(PhaseOf(o)) <==> downloaded || PhaseOf(o).DlMinidriver?)
  {
  }

  lemma OrderStep(setup: Setup, s: Sys, x: Stimulus)
    requires Inv(s) && OrderInv(setup, s) && Enabled(s, x)
    ensures OrderInv(setup, Step(setup, s, x))
  {
    if x.Complete? {
      StepSends(setup, s, x);
      if Outgoing(setup, s, x).Some? {
        StepIsRow(setup, s, x);
        RowOrder(setup, s, x);
        OrderedOneMore(setup, s.world.commands, Outgoing(setup, s, x).value);
      } else {
        assert Step(setup, s, x).world.commands == s.world.commands;
      }
    }
  }

  lemma {:induction false} OrderRun(setup: Setup, s: Sys, xs: seq<Stimulus>)
    requires Inv(s) && OrderInv(setup, s) && Run(setup, s, xs)
    ensures OrderInv(setup, After(setup, s, xs))
    decreases |xs|
  {
    if xs != [] {
      InvStep(setup, s, xs[0]);
      OrderStep(setup, s, xs[0]);
      OrderRun(setup, Step(setup, s, xs[0]), xs[1..]);
    }
  }

  /** The commands of every run begin with a reset and go out in the order of the protocol. */
  lemma CommandsInOrder(setup: Setup, file: seq<byte>, xs: seq<Stimulus>)
    requires Run(setup, Launched(file), xs)
    ensures Ordered(setup, After(setup, Launched(file), xs).world.commands)
  {
    InvLaunched(file);
    OrderRun(setup, Launched(file), xs);
  }

  /** The clock is raised, directly after the reset and directly before the line speed, exactly for
      targets above 3000000; and this is what goes out, byte for byte. */
  lemma ClockBeforeBaud(setup: Setup, file: seq<byte>, xs: seq<Stimulus>, i: nat)
    requires Run(setup, Launched(file), xs) && i < |After(setup, Launched(file), xs).world.commands|
    requires !After(setup, Launched(file), xs).world.commands[i].phase.DlFwPatch?
    ensures var cs := After(setup, Launched(file), xs).world.commands;
            && (cs[i].opcode == 0xFC18 ==>
                  && i > 0
                  && cs[i - 1].packet == if setup.target > 3000000 then [0x45, 0xFC, 1, 1] else [0x03, 0x0C, 0])
            && (cs[i].opcode == 0xFC45 ==>
                  && setup.target > 3000000 && cs[i].packet == [0x45, 0xFC, 1, 1]
                  && i > 0 && cs[i - 1].packet == [0x03, 0x0C, 0])
  {
    var cs := After(setup, Launched(file), xs).world.commands;
    CommandsInOrder(setup, file, xs);
    CommandsSpelled(setup, file, xs, cs[i]);
    if i > 0 {
      CommandsSpelled(setup, file, xs, cs[i - 1]);
    }
  }

  // ----- what makes a completion send a command -----

  /** What the phase calls for is accepted: usually one command, but MINIDRV may be made up for by the
      address, a valid controller address calls for nothing, and neither does a written one. */
  predicate Accepts(s: Sys, x: Stimulus)
    requires Enabled(s, x) && x.Complete?
  {
    var a := x.answers;
    match s.driver.phase
    case Off => false
    case SetBdAddr => false
    case ReadBdAddr => Blank(x.event) && a.accept
    case ReadLocalName => a.accept || (a.found && a.fd != -1 && a.acceptRetry)
    case _ => a.accept
  }

  /** A record is to be had and due. */
  predicate RecordDue(s: Sys, x: Stimulus)
    requires Enabled(s, x) && x.Complete?
  {
    var a := x.answers;
    a.header.Some? && |a.header.value| == 3 && a.payload.Some? && Opcode(x.event) != 0xFC4E
  }

  lemma RowChooses(setup: Setup, s: Sys, x: Stimulus)
    requires Inv(s) && Enabled(s, x) && x.Complete? && Proceeds(s, x)
    ensures var o := Chosen(Row(setup, s, x), x.answers);
            var a := x.answers;
            && (o.Some? <==> Accepts(s, x))
            && (o.Some? && o.value.Minidriver? <==> s.driver.phase.ReadLocalName? && a.found && a.fd != -1 && a.accept)
            && (o.Some? && o.value.Patch? <==> Downloading(s.driver.phase) && a.accept && RecordDue(s, x))
  {
  }

  /** A run goes on exactly when its completion is a success, somebody listens, a buffer is to be had and
      what the phase calls for is accepted.  MINIDRV goes out exactly when a patch file is found and
      opens; a record exactly after a complete header and a payload read without error, unless
      LAUNCH_RAM has just completed. */
  lemma GoesOnIff(setup: Setup, s: Sys, x: Stimulus)
    requires Inv(s) && Enabled(s, x) && x.Complete?
    ensures var p := Step(setup, s, x).driver.phase;
            var a := x.answers;
            && (!p.Off? <==> Proceeds(s, x) && Accepts(s, x))
            && (p.DlMinidriver? <==>
                  Proceeds(s, x) && s.driver.phase.ReadLocalName? && a.found && a.fd != -1 && a.accept)
            && (p.DlFwPatch? <==> Proceeds(s, x) && Downloading(s.driver.phase) && a.accept && RecordDue(s, x))
  {
    StepSends(setup, s, x);
    if Proceeds(s, x) {
      RowChooses(setup, s, x);
    }
  }
}
