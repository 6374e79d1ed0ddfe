/** What a chain has made the controller do by the time it is reported. */
module ScoChains {
  import opened Hci
  import opened Buffers
  import opened Sco
  import opened ScoRuns
  import opened Results

  function IsMsbc(origin: Origin): bool {
    origin.Request? && origin.codec == MSBC
  }

  /** The commands of a chain, in order. */
  function Plan(cfg: Config, origin: Origin): seq<u16> {
    (if origin.Request? then [ENABLE_WBS] else []) + [WRITE_I2SPCM_INTERFACE_PARAM]
    + if cfg.bus.Pcm? then [WRITE_SCO_PCM_INT_PARAM, WRITE_PCM_DATA_FORMAT_PARAM] else []
  }

  predicate ClockOk(base: Regs, msbc: bool, clock: byte) {
    if msbc then clock == base.wbs else clock in {base.nbs, base.wbs}
  }

  predicate EnableBytes(p: seq<byte>, codec: u16) {
    p == if codec == MSBC then [0x7E, 0xFC, 3, 1, 2, 0] else [0x7E, 0xFC, 1, 0]
  }

  predicate I2sBytes(p: seq<byte>, base: Regs, rate: byte, clock: byte) {
    p == [0x6D, 0xFC, 4, base.i2s[0], base.i2s[1], rate, clock]
  }

  predicate PcmBytes(p: seq<byte>, base: Regs, clock: byte) {
    p == [0x1C, 0xFC, 5, base.pcm[0], clock, base.pcm[2], base.pcm[3], base.pcm[4]]
  }

  predicate FormatBytes(p: seq<byte>, format: Bytes5) {
    p == [0x1E, 0xFC, 5, format[0], format[1], format[2], format[3], format[4]]
  }

  /** A packet of the chain is well formed and carries what it should; SCO_PCM_INT may carry either
      clock, because it is taken from registers all chains share. */
  predicate StageOk(cfg: Config, base: Regs, origin: Origin, opcode: u16, p: seq<byte>) {
    && WellFormed(opcode, p)
    && (opcode == ENABLE_WBS ==> origin.Request? && EnableBytes(p, origin.codec))
    && (opcode == WRITE_I2SPCM_INTERFACE_PARAM ==>
          && |p| == 7 && ClockOk(base, IsMsbc(origin), p[6])
          && I2sBytes(p, base, if IsMsbc(origin) then cfg.wbsSampleRate else 0, p[6]))
    && (opcode == WRITE_SCO_PCM_INT_PARAM ==>
          |p| == 8 && p[4] in {base.nbs, base.wbs} && PcmBytes(p, base, p[4]))
    && (opcode == WRITE_PCM_DATA_FORMAT_PARAM ==> FormatBytes(p, cfg.format))
  }

  predicate ChainOk(cfg: Config, base: Regs, origin: Origin, packets: seq<seq<byte>>) {
    |packets| <= |Plan(cfg, origin)|
    && forall i :: 0 <= i < |packets| ==> StageOk(cfg, base, origin, Plan(cfg, origin)[i], packets[i])
  }

  predicate FlightOk(cfg: Config, base: Regs, f: Flight) {
    && |f.done| < |Plan(cfg, f.origin)|
    && ChainOk(cfg, base, f.origin, f.done)
    && f.opcode == Plan(cfg, f.origin)[|f.done|]
    && StageOk(cfg, base, f.origin, f.opcode, f.packet)
    && f.handler == if f.opcode == ENABLE_WBS then CodecSet(IsMsbc(f.origin)) else ConfigSet
  }

  predicate ReportOk(cfg: Config, base: Regs, r: Report) {
    ChainOk(cfg, base, r.origin, r.done) && (r.outcome.Success? <==> |r.done| == |Plan(cfg, r.origin)|)
  }

  /** The narrow clock register is the one in the I2SPCM packet built last. */
  predicate LastI2sInv(s: State) {
    s.lastI2s.Some? ==> |s.lastI2s.value| == 7 && s.regs.pcm[1] == s.lastI2s.value[6]
  }

  predicate ChainsInv(cfg: Config, base: Regs, s: State) {
    && RegsInv(cfg, base, s.regs) && LastI2sInv(s)
    && (forall id :: id in s.flights ==>
          FlightOk(cfg, base, s.flights[id]) && (s.flights[id].opcode != ENABLE_WBS ==> s.lastI2s.Some?))
    && (forall i :: 0 <= i < |s.reports| ==> ReportOk(cfg, base, s.reports[i]))
  }

  lemma OneDone(cfg: Config, base: Regs, f: Flight)
    requires FlightOk(cfg, base, f)
    ensures ChainOk(cfg, base, f.origin, f.done + [f.packet])
  {
  }

  /** The next command of a chain is the one its plan says. */
  lemma SendKeeps(cfg: Config, base: Regs, s: State, f: Flight, answers: Answers)
    requires ChainsInv(cfg, base, s) && FlightOk(cfg, base, f) && (f.opcode != ENABLE_WBS ==> s.lastI2s.Some?)
    ensures ChainsInv(cfg, base, SendOrFail(s, f, answers))
  {
  }

  lemma I2sKeeps(cfg: Config, base: Regs, s: State, msbc: bool, origin: Origin, done: seq<seq<byte>>, answers: Answers)
    requires ChainsInv(cfg, base, s) && ChainOk(cfg, base, origin, done) && msbc == IsMsbc(origin)
    requires |done| == if origin.Request? then 1 else 0
    ensures ChainsInv(cfg, base, StartI2s(cfg, s, msbc, origin, done, answers))
  {
    if answers.alloc {
      var regs := Tuned(cfg, s.regs, msbc);
      var p := I2sPacket(regs);
      assert regs.i2s == [base.i2s[0], base.i2s[1], SampleRate(cfg, msbc), Clock(s.regs, msbc)];
      SendKeeps(cfg, base, s.(regs := regs, lastI2s := Some(p)),
                Flight(ConfigSet, WRITE_I2SPCM_INTERFACE_PARAM, p, origin, done), answers);
    }
  }

  lemma ContinueKeeps(cfg: Config, base: Regs, s: State, f: Flight, success: bool, answers: Answers)
    requires ChainsInv(cfg, base, s) && FlightOk(cfg, base, f) && (f.opcode != ENABLE_WBS ==> s.lastI2s.Some?)
    ensures ChainsInv(cfg, base, Continue(cfg, s, f, f.opcode, success, answers))
  {
    if success {
      OneDone(cfg, base, f);
      var done := f.done + [f.packet];
      if f.opcode == ENABLE_WBS {
        I2sKeeps(cfg, base, s, IsMsbc(f.origin), f.origin, done, answers);
      } else if f.opcode == WRITE_I2SPCM_INTERFACE_PARAM && cfg.bus.Pcm? {
        assert PcmPacket(s.regs) == Packet(WRITE_SCO_PCM_INT_PARAM, base.pcm[1 := PcmPacket(s.regs)[4]]);
        SendKeeps(cfg, base, s, Flight(ConfigSet, WRITE_SCO_PCM_INT_PARAM, PcmPacket(s.regs), f.origin, done), answers);
      } else if f.opcode == WRITE_SCO_PCM_INT_PARAM && cfg.bus.Pcm? {
        SendKeeps(cfg, base, s, Flight(ConfigSet, WRITE_PCM_DATA_FORMAT_PARAM, FormatPacket(cfg), f.origin, done),
                  answers);
      }
    }
  }

  lemma RequestKeeps(cfg: Config, base: Regs, s: State, codec: u16, answers: Answers)
    requires ChainsInv(cfg, base, s)
    ensures ChainsInv(cfg, base, AskCodec(s, codec, answers))
  {
    var f := Flight(CodecSet(codec == MSBC), ENABLE_WBS, EnableWbs(codec), Request(codec), []);
    assert FlightOk(cfg, base, f);
  }

  lemma ConfigureKeeps(cfg: Config, base: Regs, s: State, answers: Answers)
    requires ChainsInv(cfg, base, s)
    ensures ChainsInv(cfg, base, Configure(cfg, s, answers))
  {
    var s1 := s.(regs := Configured(cfg, s.regs));
    assert ChainsInv(cfg, base, s1);
    if cfg.bus.I2s? {
      I2sKeeps(cfg, base, s1.(starts := s1.starts + 1), false, Startup, [], answers);
    }
  }

  lemma ChainsStep(cfg: Config, base: Regs, s: State, x: Stimulus)
    requires ChainsInv(cfg, base, s) && Enabled(s, x)
    ensures ChainsInv(cfg, base, Step(cfg, s, x))
  {
    match x
    case SetAudioState(codec, answers) => RequestKeeps(cfg, base, s, codec, answers);
    case ScoConfig(answers) => ConfigureKeeps(cfg, base, s, answers);
    case Completion(id, event, answers) =>
      var s1 := s.(flights := s.flights - {id}, buffers := s.buffers.Acquire().HandOver(s.buffers.next, Freed));
      ContinueKeeps(cfg, base, s1, s.flights[id], Status(event) == 0, answers);
  }

  lemma {:induction false} ChainsRun(cfg: Config, base: Regs, s: State, xs: seq<Stimulus>)
    requires ChainsInv(cfg, base, s) && Run(cfg, s, xs)
    ensures ChainsInv(cfg, base, After(cfg, s, xs))
    decreases |xs|
  {
    if xs != [] {
      ChainsStep(cfg, base, s, xs[0]);
      ChainsRun(cfg, base, Step(cfg, s, xs[0]), xs[1..]);
    }
  }

  /** The library right after its first hw_sco_config, before any answer to it. */
  function Started(cfg: Config, pcm: Bytes5, i2s: Bytes4, answers: Answers): State {
    Configure(cfg, Fresh(pcm, i2s), answers)
  }

  lemma StartedOk(cfg: Config, pcm: Bytes5, i2s: Bytes4, answers: Answers)
    requires ValidRates(cfg, Fresh(pcm, i2s).regs)
    ensures ChainsInv(cfg, Configured(cfg, Fresh(pcm, i2s).regs), Started(cfg, pcm, i2s, answers))
    ensures Conserved(Started(cfg, pcm, i2s, answers))
  {
    var s := Fresh(pcm, i2s);
    FirstConfiguration(cfg, s.regs);
    ConfigureKeeps(cfg, Configured(cfg, s.regs), s.(regs := Configured(cfg, s.regs)), answers);
    assert Configured(cfg, Configured(cfg, s.regs)) == Configured(cfg, s.regs);
    ConservedStep(cfg, s, ScoConfig(answers));
  }

  lemma StartedRun(cfg: Config, pcm: Bytes5, i2s: Bytes4, answers: Answers, xs: seq<Stimulus>)
    requires ValidRates(cfg, Fresh(pcm, i2s).regs) && Run(cfg, Started(cfg, pcm, i2s, answers), xs)
    ensures ChainsInv(cfg, Configured(cfg, Fresh(pcm, i2s).regs), After(cfg, Started(cfg, pcm, i2s, answers), xs))
  {
    StartedOk(cfg, pcm, i2s, answers);
    ChainsRun(cfg, Configured(cfg, Fresh(pcm, i2s).regs), Started(cfg, pcm, i2s, answers), xs);
  }

  /** Over any interleaving of requests, configurations and completions: a chain reports SUCCESS
      exactly when the controller has completed every command of its plan, in order and each as it
      should be; and no chain ever gets out of order. */
  lemma SuccessMeansPlanDone(cfg: Config, pcm: Bytes5, i2s: Bytes4, answers: Answers, xs: seq<Stimulus>, r: Report)
    requires ValidRates(cfg, Fresh(pcm, i2s).regs) && Run(cfg, Started(cfg, pcm, i2s, answers), xs)
    requires r in After(cfg, Started(cfg, pcm, i2s, answers), xs).reports
    ensures var base := Configured(cfg, Fresh(pcm, i2s).regs);
            var plan := Plan(cfg, r.origin);
            && |r.done| <= |plan| && (r.outcome.Success? <==> |r.done| == |plan|)
            && forall i :: 0 <= i < |r.done| ==> StageOk(cfg, base, r.origin, plan[i], r.done[i])
  {
    StartedRun(cfg, pcm, i2s, answers, xs);
  }

  /** In t, buffer id holds the SCO_PCM_INT command, with the clock of the I2SPCM command built last in s. */
  predicate CarriesLast(s: State, t: State, id: nat) {
    && id in t.flights && t.flights[id].opcode == WRITE_SCO_PCM_INT_PARAM && |t.flights[id].packet| == 8
    && s.lastI2s.Some? && |s.lastI2s.value| == 7 && t.flights[id].packet[4] == s.lastI2s.value[6]
  }

  /** The I2SPCM command of a chain completes, and the next command goes out. */
  predicate I2sCompletes(s: State, x: Stimulus)
    requires Enabled(s, x)
  {
    && x.Completion? && s.flights[x.id].opcode == WRITE_I2SPCM_INTERFACE_PARAM
    && Status(x.event) == 0 && x.answers.alloc && x.answers.accept
  }

  /** The SCO_PCM_INT command that follows a completed I2SPCM command carries the clock of the I2SPCM
      command built last, so it matches its own chain's exactly when that one does. */
  lemma PcmIntClockIff(cfg: Config, base: Regs, s: State, x: Stimulus)
    requires ChainsInv(cfg, base, s) && cfg.bus.Pcm? && Enabled(s, x) && I2sCompletes(s, x)
    ensures var own := s.flights[x.id].packet;
            var id := s.buffers.next + 1;
            var t := Step(cfg, s, x);
            && CarriesLast(s, t, id) && |own| == 7
            && (t.flights[id].packet[4] == own[6] <==> s.lastI2s.value[6] == own[6])
  {
    assert FlightOk(cfg, base, s.flights[x.id]);
  }

  /** So in every state s that a run after the first configuration leads to. */
  lemma PcmIntCarriesLast(cfg: Config, pcm: Bytes5, i2s: Bytes4, answers: Answers, xs: seq<Stimulus>, s: State,
                          x: Stimulus)
    requires cfg.bus.Pcm? && ValidRates(cfg, Fresh(pcm, i2s).regs) && Run(cfg, Started(cfg, pcm, i2s, answers), xs)
    requires s == After(cfg, Started(cfg, pcm, i2s, answers), xs) && Enabled(s, x) && I2sCompletes(s, x)
    ensures CarriesLast(s, Step(cfg, s, x), s.buffers.next + 1)
  {
    StartedRun(cfg, pcm, i2s, answers, xs);
    PcmIntClockIff(cfg, Configured(cfg, Fresh(pcm, i2s).regs), s, x);
  }

  // ----- a request on its own -----

  /** What the controller is to complete for one request, with the clocks as they are. */
  function Wanted(cfg: Config, r: Regs, codec: u16): seq<seq<byte>> {
    var tuned := Tuned(cfg, r, codec == MSBC);
    [EnableWbs(codec), I2sPacket(tuned), PcmPacket(tuned), FormatPacket(cfg)]
  }

  /** Byte for byte: the sample rate and the clock are the codec's, and the clock goes into both commands. */
  lemma WantedBytes(cfg: Config, r: Regs, codec: u16)
    ensures var wanted := Wanted(cfg, r, codec);
            var clock := if codec == MSBC then r.wbs else r.nbs;
            && EnableBytes(wanted[0], codec)
            && I2sBytes(wanted[1], r, if codec == MSBC then cfg.wbsSampleRate else 0, clock)
            && PcmBytes(wanted[2], r, clock)
            && FormatBytes(wanted[3], cfg.format)
  {
    var tuned := Tuned(cfg, r, codec == MSBC);
    I2sSpelled(tuned);
    PcmSpelled(tuned);
  }

  lemma I2sSpelled(r: Regs)
    ensures I2sBytes(I2sPacket(r), r, r.i2s[2], r.i2s[3])
  {
    assert r.i2s == [r.i2s[0], r.i2s[1], r.i2s[2], r.i2s[3]];
  }

  lemma PcmSpelled(r: Regs)
    ensures PcmBytes(PcmPacket(r), r, r.pcm[1])
  {
    assert r.pcm == [r.pcm[0], r.pcm[1], r.pcm[2], r.pcm[3], r.pcm[4]];
  }

  /** The command is the next one wanted, and the registers are as it left them. */
  predicate OnTheWay(cfg: Config, r: Regs, codec: u16, now: Regs, f: Flight) {
    var wanted := Wanted(cfg, r, codec);
    var k := |f.done|;
    && f.origin == Request(codec) && k < 4 && f.done == wanted[..k] && f.packet == wanted[k]
    && f.opcode == [ENABLE_WBS, WRITE_I2SPCM_INTERFACE_PARAM, WRITE_SCO_PCM_INT_PARAM, WRITE_PCM_DATA_FORMAT_PARAM][k]
    && f.handler == (if k == 0 then CodecSet(codec == MSBC) else ConfigSet)
    && now == if k == 0 then r else Tuned(cfg, r, codec == MSBC)
  }

  predicate EndedOk(cfg: Config, r: Regs, codec: u16, report: Report) {
    report.origin == Request(codec) && (report.outcome.Success? <==> report.done == Wanted(cfg, r, codec))
  }

  /** One chain in flight, as far along as the registers say; or the chain has just been reported. */
  predicate Alone(cfg: Config, r: Regs, codec: u16, s: State) {
    if |s.flights| == 0 then s.reports != [] && EndedOk(cfg, r, codec, s.reports[|s.reports| - 1])
    else |s.flights| == 1 && forall id :: id in s.flights ==> OnTheWay(cfg, r, codec, s.regs, s.flights[id])
  }

  lemma AloneSend(cfg: Config, r: Regs, codec: u16, s: State, f: Flight, answers: Answers)
    requires s.flights == map[] && OnTheWay(cfg, r, codec, s.regs, f)
    ensures Alone(cfg, r, codec, SendOrFail(s, f, answers))
  {
    assert map[s.buffers.next := f].Keys == {s.buffers.next};
  }

  lemma AloneContinue(cfg: Config, r: Regs, codec: u16, s: State, f: Flight, success: bool, answers: Answers)
    requires cfg.bus.Pcm? && s.flights == map[] && OnTheWay(cfg, r, codec, s.regs, f)
    ensures Alone(cfg, r, codec, Continue(cfg, s, f, f.opcode, success, answers))
  {
    var wanted := Wanted(cfg, r, codec);
    var done := f.done + [f.packet];
    assert done == wanted[..|f.done| + 1];
    if success && |f.done| == 0 {
      var regs := Tuned(cfg, r, codec == MSBC);
      AloneSend(cfg, r, codec, s.(regs := regs, lastI2s := Some(I2sPacket(regs))),
                Flight(ConfigSet, WRITE_I2SPCM_INTERFACE_PARAM, I2sPacket(regs), f.origin, done), answers);
    } else if success && |f.done| == 1 {
      AloneSend(cfg, r, codec, s, Flight(ConfigSet, WRITE_SCO_PCM_INT_PARAM, PcmPacket(s.regs), f.origin, done),
                answers);
    } else if success && |f.done| == 2 {
      AloneSend(cfg, r, codec, s, Flight(ConfigSet, WRITE_PCM_DATA_FORMAT_PARAM, FormatPacket(cfg), f.origin, done),
                answers);
    } else {
      assert wanted[..4] == wanted;
    }
  }

  lemma AloneStep(cfg: Config, r: Regs, codec: u16, s: State, x: Stimulus)
    requires cfg.bus.Pcm? && Alone(cfg, r, codec, s) && Enabled(s, x) && x.Completion?
    ensures Alone(cfg, r, codec, Step(cfg, s, x))
  {
    assert |s.flights - {x.id}| == |s.flights| - 1;
    assert s.flights - {x.id} == map[];
    var s1 := s.(flights := s.flights - {x.id}, buffers := s.buffers.Acquire().HandOver(s.buffers.next, Freed));
    AloneContinue(cfg, r, codec, s1, s.flights[x.id], Status(x.event) == 0, x.answers);
  }

  lemma {:induction false} AloneRun(cfg: Config, r: Regs, codec: u16, s: State, xs: seq<Stimulus>)
    requires cfg.bus.Pcm? && Alone(cfg, r, codec, s) && Run(cfg, s, xs) && forall x :: x in xs ==> x.Completion?
    ensures Alone(cfg, r, codec, After(cfg, s, xs))
    decreases |xs|
  {
    if xs != [] {
      AloneStep(cfg, r, codec, s, xs[0]);
      AloneRun(cfg, r, codec, Step(cfg, s, xs[0]), xs[1..]);
    }
  }

  /** End to end in PCM mode: when a request is accepted with nothing in flight and nothing else is
      asked until it is reported, it is reported SUCCESS exactly when the controller completed, in
      order, ENABLE_WBS (enabled exactly for mSBC), I2SPCM with the codec's sample rate and clock,
      SCO_PCM_INT with that same clock, and PCM_DATA_FORMAT. */
  lemma AloneSucceeds(cfg: Config, s: State, codec: u16, answers: Answers, xs: seq<Stimulus>)
    requires cfg.bus.Pcm? && s.flights == map[] && Accepted(answers) == 0
    requires Run(cfg, AskCodec(s, codec, answers), xs) && forall x :: x in xs ==> x.Completion?
    requires After(cfg, AskCodec(s, codec, answers), xs).flights == map[]
    ensures var reports := After(cfg, AskCodec(s, codec, answers), xs).reports;
            reports != [] && EndedOk(cfg, s.regs, codec, reports[|reports| - 1])
    ensures var wanted := Wanted(cfg, s.regs, codec);
            var clock := if codec == MSBC then s.regs.wbs else s.regs.nbs;
            && EnableBytes(wanted[0], codec)
            && I2sBytes(wanted[1], s.regs, if codec == MSBC then cfg.wbsSampleRate else 0, clock)
            && PcmBytes(wanted[2], s.regs, clock)
            && FormatBytes(wanted[3], cfg.format)
  {
    var t := AskCodec(s, codec, answers);
    assert t.flights.Keys == {s.buffers.next};
    AloneRun(cfg, s.regs, codec, t, xs);
    WantedBytes(cfg, s.regs, codec);
  }

  lemma {:induction false} RunAppend(cfg: Config, s: State, xs: seq<Stimulus>, x: Stimulus)
    requires Run(cfg, s, xs) && Enabled(After(cfg, s, xs), x)
    ensures Run(cfg, s, xs + [x]) && After(cfg, s, xs + [x]) == Step(cfg, After(cfg, s, xs), x)
    decreases |xs|
  {
    if xs != [] {
      RunAppend(cfg, Step(cfg, s, xs[0]), xs[1..], x);
      assert (xs + [x])[1..] == xs[1..] + [x];
    } else {
      assert [x][1..] == [];
    }
  }

  lemma Completes(cfg: Config, s: State, xs: seq<Stimulus>, t: State, id: nat, answers: Answers)
    returns (ys: seq<Stimulus>, u: State)
    requires Run(cfg, s, xs) && t == After(cfg, s, xs) && id in t.flights
    ensures Run(cfg, s, ys) && u == After(cfg, s, ys)
    ensures u == Continue(cfg, t.(flights := t.flights - {id},
                                  buffers := t.buffers.Acquire().HandOver(t.buffers.next, Freed)),
                          t.flights[id], t.flights[id].opcode, true, answers)
  {
    DecodeInvertsCommandComplete(1, t.flights[id].opcode, [0]);
    var x := Completion(id, CommandComplete(1, t.flights[id].opcode, [0]), answers);
    RunAppend(cfg, s, xs, x);
    ys, u := xs + [x], Step(cfg, t, x);
  }

  // ----- overlapping requests -----

  /** The PCM bus, valid rates, and different clocks for the two codecs. */
  predicate TwoClocks(cfg: Config, pcm: Bytes5, i2s: Bytes4) {
    var r := Configured(cfg, Fresh(pcm, i2s).regs);
    cfg.bus.Pcm? && ValidRates(cfg, Fresh(pcm, i2s).regs) && r.nbs != r.wbs
  }

  const YES := Answers(true, true)

  /** Two requests, one for each codec, both in flight. */
  lemma OverlapAsks(cfg: Config, pcm: Bytes5, i2s: Bytes4) returns (xs: seq<Stimulus>, t: State)
    requires TwoClocks(cfg, pcm, i2s)
    ensures Run(cfg, Started(cfg, pcm, i2s, YES), xs) && t == After(cfg, Started(cfg, pcm, i2s, YES), xs)
    ensures t.buffers.next == 2 && t.reports == [] && t.regs == Configured(cfg, Fresh(pcm, i2s).regs)
    ensures t.flights == map[0 := Flight(CodecSet(true), ENABLE_WBS, EnableWbs(MSBC), Request(MSBC), []),
                             1 := Flight(CodecSet(false), ENABLE_WBS, EnableWbs(CVSD), Request(CVSD), [])]
  {
    var start := Started(cfg, pcm, i2s, YES);
    t := start;
    RunAppend(cfg, t, [], SetAudioState(MSBC, YES));
    xs, t := [SetAudioState(MSBC, YES)], AskCodec(t, MSBC, YES);
    assert [] + xs == xs;
    RunAppend(cfg, start, xs, SetAudioState(CVSD, YES));
    xs, t := xs + [SetAudioState(CVSD, YES)], AskCodec(t, CVSD, YES);
  }

  /** Both codecs set: the narrowband I2SPCM command is the last one built. */
  lemma OverlapBegins(cfg: Config, pcm: Bytes5, i2s: Bytes4) returns (xs: seq<Stimulus>, t: State)
    requires TwoClocks(cfg, pcm, i2s)
    ensures Run(cfg, Started(cfg, pcm, i2s, YES), xs) && t == After(cfg, Started(cfg, pcm, i2s, YES), xs)
    ensures t.buffers.next == 6 && t.reports == [] && 3 in t.flights
    ensures var r := Configured(cfg, Fresh(pcm, i2s).regs);
            var f := t.flights[3];
            && t.regs.pcm[1] == r.nbs
            && f.handler == ConfigSet && f.opcode == WRITE_I2SPCM_INTERFACE_PARAM && |f.packet| == 7
            && f.packet[6] == r.wbs
            && f.origin == Request(MSBC) && |f.done| == 1
  {
    xs, t := OverlapAsks(cfg, pcm, i2s);
    xs, t := Completes(cfg, Started(cfg, pcm, i2s, YES), xs, t, 0, YES);
    xs, t := Completes(cfg, Started(cfg, pcm, i2s, YES), xs, t, 1, YES);
  }

  lemma OverlapGoesOn(cfg: Config, pcm: Bytes5, i2s: Bytes4) returns (xs: seq<Stimulus>, t: State)
    requires TwoClocks(cfg, pcm, i2s)
    ensures Run(cfg, Started(cfg, pcm, i2s, YES), xs) && t == After(cfg, Started(cfg, pcm, i2s, YES), xs)
    ensures t.buffers.next == 8 && t.reports == [] && 7 in t.flights
    ensures var r := Configured(cfg, Fresh(pcm, i2s).regs);
            var f := t.flights[7];
            && f.handler == ConfigSet && f.opcode == WRITE_SCO_PCM_INT_PARAM && |f.packet| == 8 && f.packet[4] == r.nbs
            && f.origin == Request(MSBC) && |f.done| == 2 && |f.done[1]| == 7 && f.done[1][6] == r.wbs
  {
    xs, t := OverlapBegins(cfg, pcm, i2s);
    xs, t := Completes(cfg, Started(cfg, pcm, i2s, YES), xs, t, 3, YES);
  }

  /** Overlapping requests do mix clocks, whenever there are two: an mSBC request followed by a CVSD
      request before the first I2SPCM completes is reported SUCCESS although its SCO_PCM_INT carried the
      narrowband clock. */
  lemma OverlapMixesClocks(cfg: Config, pcm: Bytes5, i2s: Bytes4) returns (xs: seq<Stimulus>)
    requires TwoClocks(cfg, pcm, i2s)
    ensures Run(cfg, Started(cfg, pcm, i2s, YES), xs)
    ensures var reports := After(cfg, Started(cfg, pcm, i2s, YES), xs).reports;
            && |reports| == 1 && reports[0].origin == Request(MSBC) && reports[0].outcome.Success?
            && |reports[0].done| == 4 && |reports[0].done[1]| == 7 && |reports[0].done[2]| == 8
            && reports[0].done[1][6] != reports[0].done[2][4]
  {
    var t: State;
    xs, t := OverlapGoesOn(cfg, pcm, i2s);
    xs, t := Completes(cfg, Started(cfg, pcm, i2s, YES), xs, t, 7, YES);
    xs, t := Completes(cfg, Started(cfg, pcm, i2s, YES), xs, t, 9, YES);
  }

  /** The I2SPCM and SCO_PCM_INT commands of a chain on the PCM bus carry the same clock. */
  predicate OneClock(r: Report) {
    var k := if r.origin.Request? then 1 else 0;
    |r.done| > k + 1 && |r.done[k]| == 7 && |r.done[k + 1]| == 8 && r.done[k][6] == r.done[k + 1][4]
  }

  ghost predicate AlwaysOneClock(cfg: Config, s: State) {
    forall xs, r :: Run(cfg, s, xs) && r in After(cfg, s, xs).reports && r.outcome.Success? ==> OneClock(r)
  }

  lemma OneClockIfEqual(cfg: Config, base: Regs, r: Report)
    requires cfg.bus.Pcm? && base.nbs == base.wbs && ReportOk(cfg, base, r) && r.outcome.Success?
    ensures OneClock(r)
  {
    var k := if r.origin.Request? then 1 else 0;
    assert StageOk(cfg, base, r.origin, Plan(cfg, r.origin)[k], r.done[k]);
    assert StageOk(cfg, base, r.origin, Plan(cfg, r.origin)[k + 1], r.done[k + 1]);
  }

  /** On the PCM bus, with valid rates: every chain reported SUCCESS, in every run after the first
      configuration, has had one clock throughout, exactly when the wideband clock configured is not
      above the narrowband one, because then both codecs get the same. */
  lemma OneClockIff(cfg: Config, pcm: Bytes5, i2s: Bytes4)
    requires cfg.bus.Pcm? && ValidRates(cfg, Fresh(pcm, i2s).regs)
    ensures AlwaysOneClock(cfg, Started(cfg, pcm, i2s, YES)) <==> cfg.wbsClock <= pcm[1]
  {
    var base := Configured(cfg, Fresh(pcm, i2s).regs);
    var s := Started(cfg, pcm, i2s, YES);
    if base.nbs == base.wbs {
      forall xs, r | Run(cfg, s, xs) && r in After(cfg, s, xs).reports && r.outcome.Success? ensures OneClock(r) {
        StartedRun(cfg, pcm, i2s, YES, xs);
        OneClockIfEqual(cfg, base, r);
      }
    } else {
      var xs := OverlapMixesClocks(cfg, pcm, i2s);
      var r := After(cfg, s, xs).reports[0];
      assert r in After(cfg, s, xs).reports && !OneClock(r);
    }
  }
}
