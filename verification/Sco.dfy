/** The SCO/audio configuration chains as transitions: requests, completions of any command in flight,
    and what the library sends or reports next.  Several chains may be in flight at once; they share the
    parameter registers. */
module Sco {
  import opened Hci
  import opened Buffers
  import opened Results

  // Codec identifiers of the vendor interface header, which is not part of this model.
  const CVSD: u16 := 1
  const MSBC: u16 := 2

  const INVALID_CLOCK: byte := 0xFF

  datatype Bus = Pcm | I2s

  type Bytes5 = s: seq<byte> | |s| == 5 witness [0, 0, 0, 0, 0]
  type Bytes4 = s: seq<byte> | |s| == 4 witness [0, 0, 0, 0]

  /** Build-time choices: the bus, the wideband sample rate and default clock, the PCM data format. */
  datatype Config = Config(bus: Bus, wbsSampleRate: byte, wbsClock: byte, format: Bytes5)

  /** bt_sco_param, bt_sco_i2spcm_param and the two clock rates. */
  datatype Regs = Regs(pcm: Bytes5, i2s: Bytes4, nbs: byte, wbs: byte)

  datatype Origin = Request(codec: u16) | Startup

  datatype Handler = CodecSet(msbc: bool) | ConfigSet

  /** An accepted command: its callback, its bytes, the chain it belongs to and the packets of that
      chain completed before it. */
  datatype Flight = Flight(handler: Handler, opcode: u16, packet: seq<byte>, origin: Origin, done: seq<seq<byte>>)

  /** A call of audio_state_cb, with the completed packets of the chain it ends. */
  datatype Report = Report(origin: Origin, outcome: Outcome, done: seq<seq<byte>>)

  datatype State = State(regs: Regs, flights: map<nat, Flight>, buffers: Ledger,
                         starts: nat, reports: seq<Report>, scoReports: nat, lastI2s: Option<seq<byte>>)

  datatype Answers = Answers(alloc: bool, accept: bool)

  // ----- packets -----

  function EnableWbs(codec: u16): seq<byte> {
    Packet(ENABLE_WBS, if codec == MSBC then [1] + Le16(codec) else [0])
  }

  function I2sPacket(regs: Regs): seq<byte> {
    Packet(WRITE_I2SPCM_INTERFACE_PARAM, regs.i2s)
  }

  function PcmPacket(regs: Regs): seq<byte> {
    Packet(WRITE_SCO_PCM_INT_PARAM, regs.pcm)
  }

  function FormatPacket(cfg: Config): seq<byte> {
    Packet(WRITE_PCM_DATA_FORMAT_PARAM, cfg.format)
  }

  function SampleRate(cfg: Config, msbc: bool): byte {
    if msbc then cfg.wbsSampleRate else 0
  }

  function Clock(regs: Regs, msbc: bool): byte {
    if msbc then regs.wbs else regs.nbs
  }

  /** The registers once an I2SPCM command for the codec has been built. */
  function Tuned(cfg: Config, regs: Regs, msbc: bool): Regs {
    var clock := Clock(regs, msbc);
    regs.(i2s := regs.i2s[2 := SampleRate(cfg, msbc)][3 := clock], pcm := regs.pcm[1 := clock])
  }

  // ----- what the library does -----

  function Tell(s: State, origin: Origin, outcome: Outcome, done: seq<seq<byte>>): State {
    s.(reports := s.reports + [Report(origin, outcome, done)])
  }

  /** Allocate, build and send one command of a chain; a chain that cannot go on ends with FAIL. */
  function SendOrFail(s: State, f: Flight, answers: Answers): State {
    if !answers.alloc then Tell(s, f.origin, Fail, f.done)
    else
      var id := s.buffers.next;
      var l := s.buffers.Acquire();
      if answers.accept then s.(buffers := l.HandOver(id, Stack), flights := s.flights[id := f])
      else Tell(s.(buffers := l.HandOver(id, Freed)), f.origin, Fail, f.done)
  }

  /** hw_sco_i2spcm_config.  The registers change as soon as there is a buffer to build the command in. */
  function StartI2s(cfg: Config, s: State, msbc: bool, origin: Origin, done: seq<seq<byte>>, answers: Answers): State {
    if !answers.alloc then Tell(s, origin, Fail, done)
    else
      var regs := Tuned(cfg, s.regs, msbc);
      SendOrFail(s.(regs := regs, lastI2s := Some(I2sPacket(regs))),
                 Flight(ConfigSet, WRITE_I2SPCM_INTERFACE_PARAM, I2sPacket(regs), origin, done), answers)
  }

  /** hw_set_SCO_codec: nothing but the ledger changes when it returns -1. */
  function AskCodec(s: State, codec: u16, answers: Answers): State {
    if !answers.alloc then s
    else
      var id := s.buffers.next;
      var l := s.buffers.Acquire();
      if !answers.accept then s.(buffers := l.HandOver(id, Freed))
      else s.(buffers := l.HandOver(id, Stack), starts := s.starts + 1,
              flights := s.flights[id := Flight(CodecSet(codec == MSBC), ENABLE_WBS, EnableWbs(codec),
                                                Request(codec), [])])
  }

  function Accepted(answers: Answers): int {
    if answers.alloc && answers.accept then 0 else -1
  }

  /** The register part of hw_sco_config. */
  function Configured(cfg: Config, regs: Regs): Regs {
    var nbs := if cfg.bus.I2s? then regs.i2s[3] else regs.pcm[1];
    var i2s := if cfg.bus.I2s? then regs.i2s[0 := 1] else regs.i2s[0 := 0][1 := regs.pcm[4]];
    var wbs := if regs.wbs != INVALID_CLOCK then regs.wbs else if cfg.wbsClock < nbs then nbs else cfg.wbsClock;
    regs.(i2s := i2s, nbs := nbs, wbs := wbs)
  }

  function Configure(cfg: Config, s: State, answers: Answers): State {
    var s1 := s.(regs := Configured(cfg, s.regs));
    var s2 := if cfg.bus.I2s? then StartI2s(cfg, s1.(starts := s1.starts + 1), false, Startup, [], answers) else s1;
    s2.(scoReports := s2.scoReports + 1)
  }

  /** The callback of a completed command: hw_set_*_codec_cback or hw_sco_i2spcm_cfg_cback. */
  function Continue(cfg: Config, s: State, f: Flight, opcode: u16, success: bool, answers: Answers): State {
    if !success then Tell(s, f.origin, Fail, f.done)
    else
      var done := f.done + [f.packet];
      match f.handler
      case CodecSet(msbc) => StartI2s(cfg, s, msbc, f.origin, done, answers)
      case ConfigSet =>
        if opcode == WRITE_I2SPCM_INTERFACE_PARAM && cfg.bus.Pcm? then
          SendOrFail(s, Flight(ConfigSet, WRITE_SCO_PCM_INT_PARAM, PcmPacket(s.regs), f.origin, done), answers)
        else if opcode == WRITE_SCO_PCM_INT_PARAM && cfg.bus.Pcm? then
          SendOrFail(s, Flight(ConfigSet, WRITE_PCM_DATA_FORMAT_PARAM, FormatPacket(cfg), f.origin, done), answers)
        else
          Tell(s, f.origin, Success, done)
  }

  /** The command with buffer `id` completes: its event arrives in a buffer of its own, which is freed. */
  function Complete(cfg: Config, s: State, id: nat, event: seq<byte>, answers: Answers): State
    requires id in s.flights && |event| > STATUS_AT
  {
    var s1 := s.(flights := s.flights - {id}, buffers := s.buffers.Acquire().HandOver(s.buffers.next, Freed));
    Continue(cfg, s1, s.flights[id], Opcode(event), Status(event) == 0, answers)
  }

  // ----- runs -----

  datatype Stimulus = SetAudioState(codec: u16, answers: Answers)
                    | ScoConfig(answers: Answers)
                    | Completion(id: nat, event: seq<byte>, answers: Answers)

  /** Commands complete in any order, each with an event carrying its opcode. */
  predicate Enabled(s: State, x: Stimulus) {
    x.Completion? ==> x.id in s.flights && |x.event| > STATUS_AT && Opcode(x.event) == s.flights[x.id].opcode
  }

  function Step(cfg: Config, s: State, x: Stimulus): State
    requires Enabled(s, x)
  {
    match x
    case SetAudioState(codec, answers) => AskCodec(s, codec, answers)
    case ScoConfig(answers) => Configure(cfg, s, answers)
    case Completion(id, event, answers) => Complete(cfg, s, id, event, answers)
  }

  predicate Run(cfg: Config, s: State, xs: seq<Stimulus>)
    decreases |xs|
  {
    xs == [] || (Enabled(s, xs[0]) && Run(cfg, Step(cfg, s, xs[0]), xs[1..]))
  }

  function After(cfg: Config, s: State, xs: seq<Stimulus>): State
    requires Run(cfg, s, xs)
    decreases |xs|
  {
    if xs == [] then s else After(cfg, Step(cfg, s, xs[0]), xs[1..])
  }

  /** The library as loaded: both clock rates invalid, nothing sent. */
  function Fresh(pcm: Bytes5, i2s: Bytes4): State {
    State(Regs(pcm, i2s, INVALID_CLOCK, INVALID_CLOCK), map[], EMPTY, 0, [], 0, None)
  }
}
