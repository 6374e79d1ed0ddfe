/** The line speeds of the host's UART and of the controller over whole runs. */
module BringUpSpeeds {
  import opened Hci
  import opened BringUp
  import opened BringUpRuns
  import opened BringUpCommands
  import opened Results
  import Uart

  const INITIAL := 115200

  /** What the host's UART is set to for the target speed. */
  function HostTarget(setup: Setup): nat {
    Uart.HostSpeed(Uart.LineSpeedToUserialBaud(setup.target))
  }

  /** Which commands can change the controller's speed, by the phase they were sent in. */
  lemma PhaseTells(setup: Setup, c: Command, speed: nat)
    requires Genuine(setup, c)
    ensures c.phase.SetUartBaud1? || c.phase.SetUartBaud2? ==> SpeedAfter(speed, c.opcode, c.packet) == setup.target
    ensures !c.phase.SetUartBaud1? && !c.phase.SetUartBaud2? && !c.phase.DlFwPatch? ==>
              SpeedAfter(speed, c.opcode, c.packet) == speed && c.opcode != LAUNCH_RAM
  {
    var o :| c.phase == PhaseOf(o) && c.opcode == OpcodeOf(o) && c.packet == PacketOf(setup, o);
    if o.Baud? {
      Le32RoundTrip(setup.target);
      var le := Le32(setup.target);
      assert c.packet[5] == le[0] && c.packet[6] == le[1] && c.packet[7] == le[2] && c.packet[8] == le[3];
    }
  }

  predicate SpeedInv(setup: Setup, s: Sys) {
    var w := s.world;
    match s.driver.phase
    case Off => Success in w.reports ==> w.host == HostTarget(setup) && w.controller == setup.target
    case Start => w.host == INITIAL && (s.driver.baud2 || w.controller == INITIAL)
    case SetUartClock => w.host == INITIAL && (s.driver.baud2 || w.controller == INITIAL)
    case SetUartBaud1 => true
    case SetUartBaud2 => true
    case DlFwPatch => w.host == HostTarget(setup)
    case _ => w.host == HostTarget(setup) && w.controller == setup.target
  }

  lemma RowSpeed(setup: Setup, s: Sys, x: Stimulus)
    requires Inv(s) && SpeedInv(setup, s) && Enabled(s, x) && x.Complete? && Proceeds(s, x)
    requires Genuine(setup, s.world.pending.value)
    ensures var r := Row(setup, s, x);
            && r.world.controller == SpeedAfter(s.world.controller, s.world.pending.value.opcode,
                                                s.world.pending.value.packet)
            && (r.otherwise.Success? ==> r.world.host == HostTarget(setup) && r.world.controller == setup.target)
            && r.world.reports == []
            && (forall o :: Leads(r, o) ==> SpeedInv(setup, Sys(s.registered, r.driver.(phase := PhaseOf(o)), r.world)))
  {
    PhaseTells(setup, s.world.pending.value, s.world.controller);
  }

  lemma ConcludeSpeed(setup: Setup, registered: bool, r: Reaction, buffer: nat, answers: Answers)
    requires r.world.reports == []
    requires r.otherwise.Success? ==> r.world.host == HostTarget(setup) && r.world.controller == setup.target
    requires forall o :: Leads(r, o) ==> SpeedInv(setup, Sys(registered, r.driver.(phase := PhaseOf(o)), r.world))
    ensures SpeedInv(setup, Conclude(setup, registered, r, buffer, answers))
  {
  }

  lemma SpeedStep(setup: Setup, s: Sys, x: Stimulus)
    requires Inv(s) && SpeedInv(setup, s) && Enabled(s, x) && AllGenuine(setup, s.world.commands)
    ensures SpeedInv(setup, Step(setup, s, x))
  {
    if x.Complete? {
      StepIsRow(setup, s, x);
      if Proceeds(s, x) {
        assert Genuine(setup, s.world.pending.value);
        RowSpeed(setup, s, x);
        ConcludeSpeed(setup, s.registered, Row(setup, s, x), s.world.buffers.next + 1, x.answers);
      }
    }
  }

  // ----- agreement at every transmission -----

  predicate Agreed(cs: seq<Command>) {
    forall i :: 0 <= i < |cs| ==> cs[i].host == cs[i].controller
  }

  /** A download command leaves the controller, running at the target speed, where the next command
      finds the host: at the target speed for another record, at 115200 for the reset that follows the
      download. */
  predicate Leaves(setup: Setup, c: Command, next: Phase) {
    Downloading(c.phase) ==>
      && (next.DlFwPatch? ==> SpeedAfter(setup.target, c.opcode, c.packet) == setup.target)
      && (next.Start? ==> SpeedAfter(setup.target, c.opcode, c.packet) == INITIAL)
  }

  predicate HandedOver(setup: Setup, cs: seq<Command>) {
    forall i :: 0 < i < |cs| ==> Leaves(setup, cs[i - 1], cs[i].phase)
  }

  predicate AgreeInv(setup: Setup, s: Sys) {
    var cs := s.world.commands;
    && (Agreed(cs) <==> HandedOver(setup, cs))
    && (Agreed(cs) && s.driver.phase.DlFwPatch? ==> s.world.controller == setup.target)
    && (Agreed(cs) && (s.driver.phase.Start? || s.driver.phase.SetUartClock?) ==> s.world.controller == INITIAL)
  }

  lemma AgreeOneMore(setup: Setup, cs: seq<Command>, c: Command)
    requires |cs| > 0
    ensures Agreed(cs + [c]) <==> Agreed(cs) && c.host == c.controller
    ensures HandedOver(setup, cs + [c]) <==> HandedOver(setup, cs) && Leaves(setup, cs[|cs| - 1], c.phase)
  {
    var all := cs + [c];
    assert all[|cs|] == c && all[|cs| - 1] == cs[|cs| - 1];
    assert forall i :: 0 <= i < |cs| ==> all[i] == cs[i];
  }

  /** As long as all transmissions agreed, what a row is about to send agrees exactly when the command
      that has just completed left the controller where it should. */
  lemma RowAgrees(setup: Setup, s: Sys, x: Stimulus)
    requires Inv(s) && SpeedInv(setup, s) && Enabled(s, x) && x.Complete? && Proceeds(s, x)
    requires AllGenuine(setup, s.world.commands) && AgreeInv(setup, s) && Agreed(s.world.commands)
    requires Uart.Supported(setup.target)
    ensures var w := Row(setup, s, x).world;
            forall o :: Leads(Row(setup, s, x), o) ==>
              && (w.host == w.controller <==> Leaves(setup, s.world.pending.value, PhaseOf(o)))
              && (w.host == w.controller ==>
                    && (o.Reset? || o.UartClock? ==> w.controller == INITIAL)
                    && (o.Patch? ==> w.controller == setup.target))
  {
    var c := s.world.pending.value;
    assert Genuine(setup, c);
    PhaseTells(setup, c, s.world.controller);
    Uart.TablesCompose(setup.target);
  }

  lemma AgreeSent(setup: Setup, s: Sys, o: Order, c: Command, t: Sys)
    requires AgreeInv(setup, s) && s.world.commands != []
    requires t.world.commands == s.world.commands + [c] && t.driver.phase == c.phase == PhaseOf(o)
    requires t.world.controller == c.controller
    requires Agreed(s.world.commands) ==>
               && (c.host == c.controller <==> Leaves(setup, s.world.commands[|s.world.commands| - 1], c.phase))
               && (c.host == c.controller ==>
                     && (o.Reset? || o.UartClock? ==> c.controller == INITIAL)
                     && (o.Patch? ==> c.controller == setup.target))
    ensures AgreeInv(setup, t)
  {
    AgreeOneMore(setup, s.world.commands, c);
  }

  lemma AgreeStep(setup: Setup, s: Sys, x: Stimulus)
    requires Inv(s) && SpeedInv(setup, s) && Enabled(s, x) && AllGenuine(setup, s.world.commands)
    requires AgreeInv(setup, s) && Uart.Supported(setup.target)
    ensures AgreeInv(setup, Step(setup, s, x))
  {
    if x.Complete? {
      StepSends(setup, s, x);
      var t := Step(setup, s, x);
      if Outgoing(setup, s, x).None? {
        assert t.world.commands == s.world.commands;
      } else {
        if Agreed(s.world.commands) {
          RowAgrees(setup, s, x);
        }
        AgreeSent(setup, s, Chosen(Row(setup, s, x), x.answers).value, t.world.pending.value, t);
      }
    }
  }

  lemma {:induction false} SpeedRun(setup: Setup, s: Sys, xs: seq<Stimulus>)
    requires Inv(s) && SpeedInv(setup, s) && Run(setup, s, xs) && AllGenuine(setup, s.world.commands)
    requires Uart.Supported(setup.target) ==> AgreeInv(setup, s)
    ensures var t := After(setup, s, xs);
            && Inv(t) && SpeedInv(setup, t)
            && (Uart.Supported(setup.target) ==> AgreeInv(setup, t))
    decreases |xs|
  {
    if xs != [] {
      InvStep(setup, s, xs[0]);
      GenuineStep(setup, s, xs[0]);
      SpeedStep(setup, s, xs[0]);
      if Uart.Supported(setup.target) {
        AgreeStep(setup, s, xs[0]);
      }
      SpeedRun(setup, Step(setup, s, xs[0]), xs[1..]);
    }
  }

  lemma SpeedLaunched(setup: Setup, file: seq<byte>, xs: seq<Stimulus>)
    requires Run(setup, Launched(file), xs)
    ensures var t := After(setup, Launched(file), xs);
            && Inv(t) && SpeedInv(setup, t)
            && (Uart.Supported(setup.target) ==> AgreeInv(setup, t))
  {
    InvLaunched(file);
    GenuineLaunched(setup, file);
    SpeedRun(setup, Launched(file), xs);
  }

  /** Once SUCCESS is reported the controller runs at the target speed, and the host does too exactly
      when the target is one of the speeds in the baud tables. */
  lemma SuccessMeansTargetSpeed(setup: Setup, file: seq<byte>, xs: seq<Stimulus>)
    requires Run(setup, Launched(file), xs)
    requires Success in After(setup, Launched(file), xs).world.reports
    ensures var w := After(setup, Launched(file), xs).world;
            w.controller == setup.target && (w.host == setup.target <==> Uart.Supported(setup.target))
  {
    SpeedLaunched(setup, file, xs);
    Uart.TablesCompose(setup.target);
  }

  /** For a supported target, host and controller agree at every transmission of a run exactly when each
      download command left the controller where the next command found the host.  So they do not when
      the download ends without LAUNCH_RAM - at the end of the file or on a read error - because the
      driver drops to 115200 all the same. */
  lemma SpeedsAgreeIff(setup: Setup, file: seq<byte>, xs: seq<Stimulus>)
    requires Run(setup, Launched(file), xs) && Uart.Supported(setup.target)
    ensures var cs := After(setup, Launched(file), xs).world.commands;
            Agreed(cs) <==> HandedOver(setup, cs)
  {
    SpeedLaunched(setup, file, xs);
  }
}
