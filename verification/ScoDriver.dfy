/** The SCO part of hardware.c as the library runs it: parameter arrays changed in place and shared by
    all chains, commands copied out of them into fresh buffers. */
module ScoDriver {
  import opened Hci
  import opened Buffers
  import opened Sco
  import opened Stream
  import opened Results

  class ScoControl {
    const cfg: Config
    const btScoParam: array<byte>
    const btScoI2spcmParam: array<byte>
    var clockRate: byte
    var wbsClockRate: byte
    /** Flights, ledger and reports; its registers are not used. */
    ghost var world: State

    ghost predicate Valid()
      reads this
    {
      btScoParam.Length == 5 && btScoI2spcmParam.Length == 4 && btScoParam != btScoI2spcmParam
    }

    ghost function Registers(): Regs
      requires Valid()
      reads this, btScoParam, btScoI2spcmParam
    {
      Regs(btScoParam[..], btScoI2spcmParam[..], clockRate, wbsClockRate)
    }

    ghost function Snapshot(): State
      requires Valid()
      reads this, btScoParam, btScoI2spcmParam
    {
      world.(regs := Registers())
    }

    constructor (cfg: Config, pcm: Bytes5, i2s: Bytes4)
      ensures Valid() && this.cfg == cfg && Snapshot() == Fresh(pcm, i2s)
      ensures fresh(btScoParam) && fresh(btScoI2spcmParam)
    {
      this.cfg := cfg;
      btScoParam := new byte[5](i requires 0 <= i < 5 => pcm[i]);
      btScoI2spcmParam := new byte[4](i requires 0 <= i < 4 => i2s[i]);
      clockRate, wbsClockRate := INVALID_CLOCK, INVALID_CLOCK;
      world := Fresh(pcm, i2s);
      new;
      assert btScoParam[..] == pcm && btScoI2spcmParam[..] == i2s;
    }

    method AudioStateCb(ghost origin: Origin, outcome: Outcome, ghost done: seq<seq<byte>>)
      modifies `world
      ensures world == Tell(old(world), origin, outcome, done)
    {
      world := Tell(world, origin, outcome, done);
    }

    /** Build and send one command of a chain into a freshly allocated buffer, and report FAIL if it is
        refused. */
    method Send(handler: Handler, opcode: u16, params: seq<byte>,
                ghost origin: Origin, ghost done: seq<seq<byte>>, answers: Answers)
      requires Valid() && answers.alloc && |params| <= 5
      modifies `world
      ensures world == SendOrFail(old(world), Flight(handler, opcode, Packet(opcode, params), origin, done), answers)
    {
      ghost var id := world.buffers.next;
      world := world.(buffers := world.buffers.Acquire());
      var buf := new byte[PREAMBLE + |params|];
      var p := Put(buf, 0, Le16(opcode));
      p := Put(buf, p, [|params|]);
      p := Put(buf, p, params);
      assert buf[..p] == Packet(opcode, params);
      if answers.accept {
        world := world.(buffers := world.buffers.HandOver(id, Stack),
                        flights := world.flights[id := Flight(handler, opcode, buf[..p], origin, done)]);
      } else {
        world := world.(buffers := world.buffers.HandOver(id, Freed));
        AudioStateCb(origin, Fail, done);
      }
    }

    method HwScoI2spcmConfig(codec: u16, ghost origin: Origin, ghost done: seq<seq<byte>>, answers: Answers)
      requires Valid()
      modifies this, btScoParam, btScoI2spcmParam
      ensures clockRate == old(clockRate) && wbsClockRate == old(wbsClockRate)
      ensures Snapshot() == StartI2s(cfg, old(Snapshot()), codec == MSBC, origin, done, answers)
      ensures answers.alloc ==>
                && btScoI2spcmParam[2] == (if codec == MSBC then cfg.wbsSampleRate else 0)
                && btScoI2spcmParam[3] == btScoParam[1] == if codec == MSBC then wbsClockRate else clockRate
    {
      if !answers.alloc {
        AudioStateCb(origin, Fail, done);
        return;
      }
      if codec == CVSD {
        btScoI2spcmParam[2] := 0;
        btScoI2spcmParam[3] := clockRate;
        btScoParam[1] := clockRate;
      } else if codec == MSBC {
        btScoI2spcmParam[2] := cfg.wbsSampleRate;
        btScoI2spcmParam[3] := wbsClockRate;
        btScoParam[1] := wbsClockRate;
      } else {
        btScoI2spcmParam[2] := 0;
        btScoI2spcmParam[3] := clockRate;
        btScoParam[1] := clockRate;
      }
      assert Registers() == Tuned(cfg, old(Registers()), codec == MSBC);
      world := world.(lastI2s := Some(I2sPacket(Registers())));
      Send(ConfigSet, WRITE_I2SPCM_INTERFACE_PARAM, btScoI2spcmParam[..], origin, done, answers);
    }

    method HwScoConfig(answers: Answers)
      requires Valid()
      modifies this, btScoParam, btScoI2spcmParam
      ensures Snapshot() == Configure(cfg, old(Snapshot()), answers)
    {
      if cfg.bus.I2s? {
        btScoI2spcmParam[0] := 1;
        clockRate := btScoI2spcmParam[3];
      } else {
        btScoI2spcmParam[0] := 0;
        clockRate := btScoParam[1];
        btScoI2spcmParam[1] := btScoParam[4];
      }
      if wbsClockRate == INVALID_CLOCK {
        wbsClockRate := cfg.wbsClock;
        if wbsClockRate < clockRate {
          wbsClockRate := clockRate;
        }
      }
      assert Registers() == Configured(cfg, old(Registers()));
      if cfg.bus.I2s? {
        world := world.(starts := world.starts + 1);
        HwScoI2spcmConfig(CVSD, Startup, [], answers);
      }
      world := world.(scoReports := world.scoReports + 1);
    }

    method HwSetScoCodec(codec: u16, answers: Answers) returns (ret: int)
      requires Valid()
      modifies `world
      ensures ret == Accepted(answers) && Snapshot() == AskCodec(old(Snapshot()), codec, answers)
    {
      if !answers.alloc {
        return -1;
      }
      ghost var id := world.buffers.next;
      world := world.(buffers := world.buffers.Acquire());
      var buf := new byte[PREAMBLE + 3];
      var p := Put(buf, 0, Le16(ENABLE_WBS));
      var msbc: bool;
      if codec == MSBC {
        p := Put(buf, p, [3]);
        p := Put(buf, p, [1]);
        p := Put(buf, p, Le16(codec));
        msbc := true;
      } else {
        p := Put(buf, p, [1]);
        p := Put(buf, p, [0]);
        msbc := false;
      }
      assert buf[..p] == EnableWbs(codec);
      if answers.accept {
        ret := 0;
        world := world.(buffers := world.buffers.HandOver(id, Stack), starts := world.starts + 1,
                        flights := world.flights[id := Flight(CodecSet(msbc), ENABLE_WBS, buf[..p],
                                                              Request(codec), [])]);
      } else {
        world := world.(buffers := world.buffers.HandOver(id, Freed));
        ret := -1;
      }
    }

    /** The stack completes the command in buffer `id`: its callback runs with the event. */
    method CommandCompleted(handler: Handler, ghost id: nat, event: seq<byte>, answers: Answers)
      requires Valid() && id in world.flights && world.flights[id].handler == handler && |event| > STATUS_AT
      modifies this, btScoParam, btScoI2spcmParam
      ensures Snapshot() == Complete(cfg, old(Snapshot()), id, event, answers)
    {
      ghost var f := world.flights[id];
      world := world.(flights := world.flights - {id}, buffers := world.buffers.Acquire());
      ghost var eventBuffer := world.buffers.next - 1;
      match handler
      case CodecSet(msbc) =>
        HwScoI2spcmConfigFromCommand(event, eventBuffer, if msbc then MSBC else CVSD, f, answers);
      case ConfigSet =>
        HwScoI2spcmCfgCback(event, eventBuffer, f, answers);
    }

    method HwScoI2spcmConfigFromCommand(event: seq<byte>, ghost eventBuffer: nat, codec: u16, ghost f: Flight,
                                        answers: Answers)
      requires Valid() && |event| > STATUS_AT && f.handler == CodecSet(codec == MSBC)
      modifies this, btScoParam, btScoI2spcmParam
      ensures var s := old(Snapshot());
              Snapshot() == Continue(cfg, s.(buffers := s.buffers.HandOver(eventBuffer, Freed)), f,
                                     Opcode(event), Status(event) == 0, answers)
    {
      world := world.(buffers := world.buffers.HandOver(eventBuffer, Freed));
      if Status(event) == 0 {
        HwScoI2spcmConfig(codec, f.origin, f.done + [f.packet], answers);
      } else {
        AudioStateCb(f.origin, Fail, f.done);
      }
    }

    method HwScoI2spcmCfgCback(event: seq<byte>, ghost eventBuffer: nat, ghost f: Flight, answers: Answers)
      requires Valid() && |event| > STATUS_AT && f.handler == ConfigSet
      modifies `world
      ensures var s := old(Snapshot());
              Snapshot() == Continue(cfg, s.(buffers := s.buffers.HandOver(eventBuffer, Freed)), f,
                                     Opcode(event), Status(event) == 0, answers)
    {
      var opcode := Opcode(event);
      var outcome := if Status(event) == 0 then Success else Fail;
      world := world.(buffers := world.buffers.HandOver(eventBuffer, Freed));
      ghost var done := if outcome == Success then f.done + [f.packet] else f.done;
      if outcome == Success {
        if opcode == WRITE_I2SPCM_INTERFACE_PARAM && cfg.bus.Pcm? {
          if answers.alloc {
            Send(ConfigSet, WRITE_SCO_PCM_INT_PARAM, btScoParam[..], f.origin, done, answers);
            return;
          }
          outcome := Fail;
        } else if opcode == WRITE_SCO_PCM_INT_PARAM && cfg.bus.Pcm? {
          if answers.alloc {
            Send(ConfigSet, WRITE_PCM_DATA_FORMAT_PARAM, cfg.format, f.origin, done, answers);
            return;
          }
          outcome := Fail;
        }
      }
      AudioStateCb(f.origin, outcome, done);
    }
  }
}
