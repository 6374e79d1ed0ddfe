/** The bring-up part of hardware.c as the library runs it: a control block updated in place, commands
    written into a buffer through a moving position, phases falling through into each other. */
module BringUpDriver {
  import opened Hci
  import opened Buffers
  import opened BringUp
  import opened BringUpCommands
  import opened Stream
  import opened Results
  import Uart

  /** read() returns no more than it is asked for: the payload length is the header's third byte. */
  predicate NoOverread(answers: Answers) {
    FullHeader(answers) && answers.payload.Some? ==> |answers.payload.value| <= answers.header.value[2]
  }

  /** hw_cfg_cb, with the callback table and the world around it. */
  class HwConfig {
    const setup: Setup
    var registered: bool
    var phase: Phase
    var fwFd: int
    var fSetBaud2: bool
    ghost var world: World

    constructor (setup: Setup, ghost file: seq<byte>)
      ensures this.setup == setup && Snapshot() == Fresh(file)
    {
      this.setup := setup;
      registered, phase, fwFd, fSetBaud2 := true, Off, -1, false;
      world := Fresh(file).world;
    }

    ghost function Snapshot(): Sys
      reads this
    {
      Sys(registered, Driver(phase, fwFd, fSetBaud2), world)
    }

    /** The state after an attempt to send: the order is on its way, or nothing but the phase has changed. */
    ghost predicate AfterSend(before: Sys, o: Order, buffer: nat, accept: bool)
      reads this
    {
      if accept then Snapshot() == Sent(setup, before, o, buffer)
      else Snapshot() == before.(driver := before.driver.(phase := PhaseOf(o)))
    }

    method XmitCb(opcode: u16, buf: array<byte>, len: nat, ghost buffer: nat, accept: bool) returns (ok: bool)
      requires len <= buf.Length
      modifies `world
      ensures ok == accept && world == Transmit(old(world), phase, opcode, buf[..len], buffer, accept)
    {
      world := Transmit(world, phase, opcode, buf[..len], buffer, accept);
      ok := accept;
    }

    method UserialVendorSetBaud(symbol: nat)
      modifies `world
      ensures world == SetBaud(old(world), symbol)
    {
      world := SetBaud(world, symbol);
    }

    /** Close the patch file if it is open. */
    method CloseFwFd()
      modifies `fwFd, `world
      ensures fwFd == -1 && world == if old(fwFd) != -1 then CloseFile(old(world), old(fwFd)) else old(world)
    {
      if fwFd != -1 {
        world := CloseFile(world, fwFd);
        fwFd := -1;
      }
    }

    method HwConfigSetBdaddr(buf: array<byte>, ghost buffer: nat, accept: bool) returns (ok: bool)
      requires buf.Length == MAX_COMMAND
      modifies `phase, `world, buf
      ensures ok == accept && AfterSend(old(Snapshot()), WriteAddress, buffer, accept)
      ensures AddressBytes(buf[..9], setup.address)
    {
      var p := Put(buf, 0, Le16(WRITE_BD_ADDR));
      p := Put(buf, p, [6]);
      var a := setup.address;
      p := Put(buf, p, [a[5], a[4], a[3], a[2], a[1], a[0]]);
      phase := SetBdAddr;
      assert buf[..p] == PacketOf(setup, WriteAddress);
      ok := XmitCb(WRITE_BD_ADDR, buf, p, buffer, accept);
    }

    method HwConfigReadBdaddr(buf: array<byte>, ghost buffer: nat, accept: bool) returns (ok: bool)
      requires buf.Length == MAX_COMMAND
      modifies `phase, `world, buf
      ensures ok == accept && AfterSend(old(Snapshot()), ReadAddress, buffer, accept)
    {
      ok := SendBare(ReadAddress, buf, buffer, accept);
    }

    /** A command without parameters. */
    method SendBare(o: Order, buf: array<byte>, ghost buffer: nat, accept: bool) returns (ok: bool)
      requires PREAMBLE <= buf.Length && (o.Reset? || o.Name? || o.Minidriver? || o.ReadAddress?)
      modifies `phase, `world, buf
      ensures ok == accept && AfterSend(old(Snapshot()), o, buffer, accept)
    {
      var p := Put(buf, 0, Le16(OpcodeOf(o)));
      p := Put(buf, p, [0]);
      phase := PhaseOf(o);
      assert buf[..p] == PacketOf(setup, o);
      ok := XmitCb(OpcodeOf(o), buf, p, buffer, accept);
    }

    method SendClock(buf: array<byte>, ghost buffer: nat, accept: bool) returns (ok: bool)
      requires buf.Length == MAX_COMMAND
      modifies `phase, `world, buf
      ensures ok == accept && AfterSend(old(Snapshot()), UartClock, buffer, accept)
      ensures buf[..4] == [0x45, 0xFC, 1, 1]
    {
      var p := Put(buf, 0, Le16(WRITE_UART_CLOCK_SETTING));
      p := Put(buf, p, [1]);
      p := Put(buf, p, [1]);
      phase := SetUartClock;
      assert buf[..p] == PacketOf(setup, UartClock);
      ok := XmitCb(WRITE_UART_CLOCK_SETTING, buf, p, buffer, accept);
    }

    method SendBaud(buf: array<byte>, ghost buffer: nat, accept: bool) returns (ok: bool)
      requires buf.Length == MAX_COMMAND
      modifies `phase, `world, buf
      ensures ok == accept && AfterSend(old(Snapshot()), Baud(fSetBaud2), buffer, accept)
      ensures BaudBytes(buf[..9], setup.target)
    {
      var p := Put(buf, 0, Le16(UPDATE_BAUDRATE));
      p := Put(buf, p, [6]);
      p := Put(buf, p, [0, 0]);
      p := Put(buf, p, Le32(setup.target));
      phase := if fSetBaud2 then SetUartBaud2 else SetUartBaud1;
      assert buf[..p] == PacketOf(setup, Baud(fSetBaud2));
      BaudSpelled(setup.target);
      ok := XmitCb(UPDATE_BAUDRATE, buf, p, buffer, accept);
    }

    /** Read the next patch record into the buffer; when there is none to send, close the file. */
    method ReadRecord(opcode: u16, answers: Answers, buf: array<byte>) returns (len: nat)
      requires buf.Length == MAX_COMMAND && NoOverread(answers)
      modifies `fwFd, `world, buf
      ensures var got := old(fwFd) >= 0 && FullHeader(answers) && opcode != LAUNCH_RAM && answers.payload.Some?;
              && (got ==> PREAMBLE <= len <= buf.Length && buf[..len] == Record(answers) && fwFd == old(fwFd)
                          && world == Consume(Consume(old(world), answers.header), answers.payload))
              && (!got ==> len == 0 && fwFd == (if old(fwFd) >= 0 then -1 else old(fwFd))
                           && world == if old(fwFd) >= 0
                                       then CloseFile(Consume(old(world), answers.header), old(fwFd)) else old(world))
    {
      len := 0;
      if fwFd >= 0 {
        world := Consume(world, answers.header);
        if FullHeader(answers) && opcode != LAUNCH_RAM {
          len := Put(buf, 0, answers.header.value);
          if answers.payload.Some? {
            len := Put(buf, len, answers.payload.value);
            world := Consume(world, answers.payload);
            return;
          }
        }
        world := CloseFile(world, fwFd);
        fwFd, len := -1, 0;
      }
    }

    /** HW_CFG_DL_MINIDRIVER and HW_CFG_DL_FW_PATCH: send the next record, or end the download. */
    method Download(event: seq<byte>, answers: Answers, buf: array<byte>, ghost buffer: nat) returns (ok: bool)
      requires |event| > STATUS_AT && buf.Length == MAX_COMMAND && NoOverread(answers) && Downloading(phase)
      modifies this, buf
      ensures registered == old(registered)
      ensures Follows(setup, ReactDownload(old(Snapshot()).driver, old(world), event, answers),
                      registered, buffer, answers, ok, Snapshot())
    {
      ghost var d, w := Snapshot().driver, world;
      if phase.DlMinidriver? {
        phase := DlFwPatch;
      }
      var len := ReadRecord(Opcode(event), answers, buf);
      ghost var r := ReactDownload(d, w, event, answers);
      if len > 0 {
        assert r.first == Some(Patch(Record(answers))) && r.world == world;
        ok := XmitCb(ReadLe16(buf[..len], 0), buf, len, buffer, answers.accept);
      } else {
        ok := EndDownload(buf, buffer, answers.accept);
      }
    }

    /** Back to 115200, and the reset that begins the second pass. */
    method EndDownload(buf: array<byte>, ghost buffer: nat, accept: bool) returns (ok: bool)
      requires PREAMBLE <= buf.Length
      modifies this, buf
      ensures ok == accept
      ensures var s := old(Snapshot());
              AfterSend(s.(driver := s.driver.(baud2 := true), world := SetBaud(s.world, Uart.BAUD_115200)),
                        Reset, buffer, accept)
    {
      UserialVendorSetBaud(Uart.BAUD_115200);
      fSetBaud2 := true;
      ok := SendBare(Reset, buf, buffer, accept);
    }

    /** The switch of hw_config_cback, on a successful completion and with a command buffer. */
    method Dispatch(event: seq<byte>, answers: Answers, buf: array<byte>, ghost buffer: nat) returns (proceeding: bool)
      requires Readable(Driver(phase, fwFd, fSetBaud2), event) && Status(event) == 0
      requires buf.Length == MAX_COMMAND && NoOverread(answers)
      modifies this, buf
      ensures registered == old(registered)
      ensures Follows(setup, React(setup, old(Snapshot()).driver, old(world), event, answers),
                      registered, buffer, answers, proceeding, Snapshot())
    {
      proceeding := false;
      if phase.SetUartBaud1? {
        UserialVendorSetBaud(Uart.LineSpeedToUserialBaud(setup.target));
        proceeding := SendBare(Name, buf, buffer, answers.accept);
      } else if phase.ReadLocalName? {
        proceeding := LoadPatch(answers, buf, buffer);
      } else if phase.DlMinidriver? || phase.DlFwPatch? {
        proceeding := Download(event, answers, buf, buffer);
      } else if phase.Start? && setup.target > 3000000 {
        proceeding := SendClock(buf, buffer, answers.accept);
      } else if phase.Start? || phase.SetUartClock? {
        proceeding := SendBaud(buf, buffer, answers.accept);
      } else if phase.SetUartBaud2? || phase.SetBdAddr? || phase.ReadBdAddr? {
        proceeding := SetAddress(event, answers, buf, buffer);
      }
    }

    /** HW_CFG_READ_LOCAL_NAME: start the download, or skip it when there is no patch file, it does not
        open or the command is refused. */
    method LoadPatch(answers: Answers, buf: array<byte>, ghost buffer: nat) returns (proceeding: bool)
      requires phase.ReadLocalName? && buf.Length == MAX_COMMAND
      modifies this, buf
      ensures registered == old(registered)
      ensures Follows(setup, ReactName(old(Snapshot()).driver, old(world), answers),
                      registered, buffer, answers, proceeding, Snapshot())
    {
      proceeding := false;
      var firstSend := true;
      if answers.found {
        fwFd := answers.fd;
        if fwFd != -1 {
          world := OpenFile(world, fwFd);
          proceeding := SendBare(Minidriver, buf, buffer, answers.accept);
          firstSend := false;
        }
      }
      if !proceeding {
        proceeding := HwConfigSetBdaddr(buf, buffer, if firstSend then answers.accept else answers.acceptRetry);
      }
    }

    /** HW_CFG_SET_UART_BAUD_2 and what it falls through to: program or read the address, and report
        success if there is nothing to wait for. */
    method SetAddress(event: seq<byte>, answers: Answers, buf: array<byte>, ghost buffer: nat)
      returns (proceeding: bool)
      requires Readable(Driver(phase, fwFd, fSetBaud2), event) && Status(event) == 0 && buf.Length == MAX_COMMAND
      requires phase.SetUartBaud2? || phase.SetBdAddr? || phase.ReadBdAddr?
      modifies this, buf
      ensures registered == old(registered)
      ensures proceeding
      ensures var r := React(setup, old(Snapshot()).driver, old(world), event, answers);
              Snapshot() == Conclude(setup, registered, r, buffer, answers)
    {
      proceeding := false;
      if phase.SetUartBaud2? {
        UserialVendorSetBaud(Uart.LineSpeedToUserialBaud(setup.target));
        if setup.otpAddress {
          proceeding := HwConfigReadBdaddr(buf, buffer, answers.accept);
        } else {
          proceeding := HwConfigSetBdaddr(buf, buffer, answers.accept);
        }
      } else if phase.ReadBdAddr? && event[BDADDR_AT..BDADDR_AT + 6] == [0, 0, 0, 0, 0, 0] {
        proceeding := HwConfigSetBdaddr(buf, buffer, answers.accept);
      }
      if !proceeding {
        Succeed(buffer);
        proceeding := true;
      }
    }

    method Succeed(ghost buffer: nat)
      modifies `phase, `fwFd, `world
      ensures Snapshot() == Finish(old(Snapshot()).(world := Free(old(world), buffer)), Success)
    {
      world := Free(world, buffer);
      if registered {
        world := Report(world, Success);
      }
      phase := Off;
      CloseFwFd();
    }

    /** The abort tail of hw_config_cback. */
    method Abort(ghost buffer: Option<nat>)
      modifies `phase, `fwFd, `world
      ensures Snapshot() ==
              Finish(old(Snapshot()).(world := if registered && buffer.Some?
                                               then Free(old(world), buffer.value) else old(world)), Fail)
    {
      if registered {
        if buffer.Some? {
          world := Free(world, buffer.value);
        }
        world := Report(world, Fail);
      }
      CloseFwFd();
      phase := Off;
    }

    /** hw_config_start: the result of the first send is ignored. */
    method HwConfigStart(alloc: bool, accept: bool)
      modifies this
      ensures Snapshot() == Begin(old(Snapshot()), alloc, accept)
    {
      phase, fwFd, fSetBaud2 := Off, -1, false;
      if registered && alloc {
        ghost var buffer := world.buffers.next;
        world := world.(buffers := world.buffers.Acquire());
        var buf := new byte[PREAMBLE];
        var _ := SendBare(Reset, buf, buffer, accept);
      } else if registered {
        world := Report(world, Fail);
      }
    }

    /** The part of cleanup() that matters here. */
    method Cleanup()
      modifies `registered
      ensures Snapshot() == old(Snapshot()).(registered := false)
    {
      registered := false;
    }

    /** The callback for every Command Complete event of the bring-up.  `eventBuffer` is the buffer the
        event came in. */
    method HwConfigCback(event: seq<byte>, ghost eventBuffer: nat, answers: Answers)
      requires Readable(Driver(phase, fwFd, fSetBaud2), event) && NoOverread(answers)
      requires eventBuffer < world.buffers.next
      modifies this
      ensures Snapshot() == Handle(setup, old(Snapshot()), event, eventBuffer, answers)
    {
      ghost var s := Snapshot();
      var proceeding := false;
      ghost var buffer: Option<nat> := None;
      if Status(event) == 0 && registered && answers.alloc {
        EventFreedLast(setup, s, event, eventBuffer, answers);
        buffer := Some(world.buffers.next);
        world := world.(buffers := world.buffers.Acquire());
        var buf := new byte[MAX_COMMAND];
        proceeding := Dispatch(event, answers, buf, buffer.value);
        if !proceeding {
          HandOverCommutes(world.buffers, eventBuffer, buffer.value, Freed, Freed);
        }
      }
      if registered {
        world := Free(world, eventBuffer);
      }
      if !proceeding {
        Abort(buffer);
      }
    }
  }

  /** The system t after the switch: on the way with the chosen command, or done with success, or left
      for the abort tail with only the row's effects done. */
  ghost predicate Follows(setup: Setup, r: Reaction, registered: bool, buffer: nat, answers: Answers,
                          ok: bool, t: Sys) {
    if Chosen(r, answers).None? && r.otherwise.Fail?
    then !ok && t == Sys(registered, r.driver.(phase := t.driver.phase), r.world)
    else ok && t == Conclude(setup, registered, r, buffer, answers)
  }

  /** A row does not look at the ledger. */
  lemma RowFramesLedger(setup: Setup, d: Driver, w: World, l: Ledger, event: seq<byte>, answers: Answers)
    requires Readable(d, event) && Status(event) == 0
    ensures var r := React(setup, d, w, event, answers);
            r.world.buffers == w.buffers
            && React(setup, d, w.(buffers := l), event, answers) == r.(world := r.world.(buffers := l))
  {
    match d.phase
    case DlMinidriver => DownloadFramesLedger(d, w, l, event, answers);
    case DlFwPatch => DownloadFramesLedger(d, w, l, event, answers);
    case _ =>
  }

  lemma DownloadFramesLedger(d: Driver, w: World, l: Ledger, event: seq<byte>, answers: Answers)
    requires |event| > STATUS_AT
    ensures var r := ReactDownload(d, w, event, answers);
            r.world.buffers == w.buffers
            && ReactDownload(d, w.(buffers := l), event, answers) == r.(world := r.world.(buffers := l))
  {
  }

  lemma ConcludeThenFree(setup: Setup, r: Reaction, buffer: nat, other: nat, answers: Answers)
    requires buffer != other
    ensures var t := Conclude(setup, true, r, buffer, answers);
            Conclude(setup, true, r.(world := Free(r.world, other)), buffer, answers)
            == t.(world := Free(t.world, other))
  {
    HandOverCommutes(r.world.buffers, other, buffer, Freed, Freed);
    HandOverCommutes(r.world.buffers, other, buffer, Freed, Stack);
  }

  /** The event buffer may as well be freed after the switch. */
  lemma EventFreedLast(setup: Setup, s: Sys, event: seq<byte>, eventBuffer: nat, answers: Answers)
    requires Readable(s.driver, event) && eventBuffer < s.world.buffers.next
    requires Status(event) == 0 && s.registered && answers.alloc
    ensures var r := React(setup, s.driver, s.world.(buffers := s.world.buffers.Acquire()), event, answers);
            var t := Conclude(setup, true, r, s.world.buffers.next, answers);
            Handle(setup, s, event, eventBuffer, answers) == t.(world := Free(t.world, eventBuffer))
  {
    var l := s.world.buffers;
    var w := s.world.(buffers := l.Acquire());
    AcquireCommutes(l, eventBuffer, Freed);
    RowFramesLedger(setup, s.driver, w, l.Acquire().HandOver(eventBuffer, Freed), event, answers);
    ConcludeThenFree(setup, React(setup, s.driver, w, event, answers), l.next, eventBuffer, answers);
  }
}
