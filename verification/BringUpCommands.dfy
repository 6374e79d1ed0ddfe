/** Every command the bring-up sends, as bytes. */
module BringUpCommands {
  import opened Hci
  import opened BringUp
  import opened BringUpRuns
  import opened Results

  /** The command is one of the sequence's own, in the phase that goes with it. */
  ghost predicate Genuine(setup: Setup, c: Command) {
    exists o :: c.phase == PhaseOf(o) && c.opcode == OpcodeOf(o) && c.packet == PacketOf(setup, o)
  }

  ghost predicate AllGenuine(setup: Setup, cs: seq<Command>) {
    forall c :: c in cs ==> Genuine(setup, c)
  }

  lemma GenuineStep(setup: Setup, s: Sys, x: Stimulus)
    requires Inv(s) && Enabled(s, x) && AllGenuine(setup, s.world.commands)
    ensures AllGenuine(setup, Step(setup, s, x).world.commands)
  {
    if x.Complete? {
      StepSends(setup, s, x);
      var sent := Outgoing(setup, s, x);
      if sent.Some? {
        assert Genuine(setup, sent.value) by {
          var o := Chosen(Row(setup, s, x), x.answers).value;
          assert sent.value.phase == PhaseOf(o);
        }
      }
    }
  }

  lemma {:induction false} GenuineRun(setup: Setup, s: Sys, xs: seq<Stimulus>)
    requires Inv(s) && Run(setup, s, xs) && AllGenuine(setup, s.world.commands)
    ensures AllGenuine(setup, After(setup, s, xs).world.commands)
    decreases |xs|
  {
    if xs != [] {
      InvStep(setup, s, xs[0]);
      GenuineStep(setup, s, xs[0]);
      GenuineRun(setup, Step(setup, s, xs[0]), xs[1..]);
    }
  }

  lemma GenuineLaunched(setup: Setup, file: seq<byte>)
    ensures AllGenuine(setup, Launched(file).world.commands)
  {
    var c := Launched(file).world.commands[0];
    assert c.phase == PhaseOf(Reset) && c.opcode == OpcodeOf(Reset) && c.packet == PacketOf(setup, Reset);
    assert Genuine(setup, c);
  }

  lemma OwnCommandsWellFormed(setup: Setup, o: Order)
    ensures !o.Patch? ==> WellFormed(OpcodeOf(o), PacketOf(setup, o))
    ensures o.Patch? ==> OpcodeOf(o) == ReadLe16(PacketOf(setup, o), 0)
    ensures |PacketOf(setup, o)| >= PREAMBLE
  {
  }

  lemma GenuineWellFormed(setup: Setup, c: Command)
    requires Genuine(setup, c)
    ensures |c.packet| >= PREAMBLE && c.opcode == ReadLe16(c.packet, 0)
    ensures !c.phase.DlFwPatch? ==> WellFormed(c.opcode, c.packet)
  {
    var o :| c.phase == PhaseOf(o) && c.opcode == OpcodeOf(o) && c.packet == PacketOf(setup, o);
    OwnCommandsWellFormed(setup, o);
  }

  /** In every run the opcode passed to the stack is the one in the packet, and every command except
      the patch records is a well-formed HCI command. */
  lemma CommandsWellFormed(setup: Setup, file: seq<byte>, xs: seq<Stimulus>, c: Command)
    requires Run(setup, Launched(file), xs) && c in After(setup, Launched(file), xs).world.commands
    ensures |c.packet| >= PREAMBLE && c.opcode == ReadLe16(c.packet, 0)
    ensures !c.phase.DlFwPatch? ==> WellFormed(c.opcode, c.packet)
  {
    InvLaunched(file);
    GenuineLaunched(setup, file);
    GenuineRun(setup, Launched(file), xs);
    GenuineWellFormed(setup, c);
  }

  /** A patch record that goes out always fits the command buffer, and is a well-formed command exactly
      when its payload was read in full. */
  lemma RecordWellFormedIff(setup: Setup, s: Sys, x: Stimulus)
    requires Inv(s) && Enabled(s, x) && x.Complete?
    requires Outgoing(setup, s, x).Some? && Outgoing(setup, s, x).value.phase.DlFwPatch?
    ensures var c := Outgoing(setup, s, x).value;
            && FullHeader(x.answers) && x.answers.payload.Some? && |c.packet| <= 258
            && (WellFormed(c.opcode, c.packet) <==> |x.answers.payload.value| == x.answers.header.value[2])
  {
    RowInv(setup, s, x);
  }

  // ----- the bytes -----

  predicate BaudBytes(p: seq<byte>, target: u32) {
    && |p| == 9 && p[..5] == [0x18, 0xFC, 6, 0, 0]
    && p[5] as int + 0x100 * (p[6] as int) + 0x1_0000 * (p[7] as int) + 0x100_0000 * (p[8] as int) == target
  }

  /** The address goes out last byte first. */
  predicate AddressBytes(p: seq<byte>, address: Address) {
    p == [0x01, 0xFC, 6, address[5], address[4], address[3], address[2], address[1], address[0]]
  }

  /** What goes out in each phase, byte by byte; a patch record is what was read from the file. */
  predicate Spelled(setup: Setup, c: Command) {
    match c.phase
    case Off => false
    case Start => c.opcode == 0x0C03 && c.packet == [0x03, 0x0C, 0]
    case SetUartClock => c.opcode == 0xFC45 && c.packet == [0x45, 0xFC, 1, 1]
    case SetUartBaud1 => c.opcode == 0xFC18 && BaudBytes(c.packet, setup.target)
    case SetUartBaud2 => c.opcode == 0xFC18 && BaudBytes(c.packet, setup.target)
    case ReadLocalName => c.opcode == 0x0C14 && c.packet == [0x14, 0x0C, 0]
    case DlMinidriver => c.opcode == 0xFC2E && c.packet == [0x2E, 0xFC, 0]
    case SetBdAddr => c.opcode == 0xFC01 && AddressBytes(c.packet, setup.address)
    case ReadBdAddr => c.opcode == 0x1009 && c.packet == [0x09, 0x10, 0]
    case DlFwPatch => |c.packet| >= 3 && c.opcode == c.packet[0] as int + 0x100 * (c.packet[1] as int)
  }

  lemma BaudSpelled(target: u32)
    ensures BaudBytes(Packet(UPDATE_BAUDRATE, [0, 0] + Le32(target)), target)
  {
    Le32RoundTrip(target);
    var le := Le32(target);
    assert Packet(UPDATE_BAUDRATE, [0, 0] + le) == [0x18, 0xFC, 6, 0, 0, le[0], le[1], le[2], le[3]];
  }

  lemma OrderSpelled(setup: Setup, o: Order)
    ensures Spelled(setup, Command(PhaseOf(o), OpcodeOf(o), PacketOf(setup, o), 0, 0))
  {
    if o.Baud? {
      BaudSpelled(setup.target);
    }
  }

  lemma GenuineSpelled(setup: Setup, c: Command)
    requires Genuine(setup, c)
    ensures Spelled(setup, c)
  {
    var o :| c.phase == PhaseOf(o) && c.opcode == OpcodeOf(o) && c.packet == PacketOf(setup, o);
    OrderSpelled(setup, o);
  }

  /** Every command of every run has exactly the bytes its phase calls for. */
  lemma CommandsSpelled(setup: Setup, file: seq<byte>, xs: seq<Stimulus>, c: Command)
    requires Run(setup, Launched(file), xs) && c in After(setup, Launched(file), xs).world.commands
    ensures Spelled(setup, c)
  {
    InvLaunched(file);
    GenuineLaunched(setup, file);
    GenuineRun(setup, Launched(file), xs);
    GenuineSpelled(setup, c);
  }

  /** When a run has reported SUCCESS, the last command accepted was the write of the address handed
      over by the stack, or the read of the controller's own, or the second baud update.  Whether the
      controller was left with an address is another matter (BringUpAddress). */
  lemma SuccessEndsAddressing(setup: Setup, file: seq<byte>, xs: seq<Stimulus>)
    requires Run(setup, Launched(file), xs) && Success in After(setup, Launched(file), xs).world.reports
    ensures var cs := After(setup, Launched(file), xs).world.commands;
            && cs != []
            && var last := cs[|cs| - 1];
               || (last.phase.SetBdAddr? && AddressBytes(last.packet, setup.address))
               || (last.phase.ReadBdAddr? && last.packet == [0x09, 0x10, 0])
               || (last.phase.SetUartBaud2? && BaudBytes(last.packet, setup.target))
  {
    InvLaunched(file);
    SuccessRun(setup, Launched(file), xs);
    GenuineLaunched(setup, file);
    GenuineRun(setup, Launched(file), xs);
    var cs := After(setup, Launched(file), xs).world.commands;
    var last := cs[|cs| - 1];
    GenuineSpelled(setup, last);
  }
}
