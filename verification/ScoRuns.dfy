/** What every interleaving of audio requests, configurations and completions keeps. */
module ScoRuns {
  import opened Hci
  import opened Buffers
  import opened Sco
  import opened Results

  // ----- conservation -----

  /** Every chain that was started has been reported once or is in flight, in a buffer of the stack's. */
  ghost predicate Conserved(s: State) {
    && s.buffers.Settled()
    && s.starts == |s.reports| + |s.flights|
    && forall id :: id in s.flights ==> id in s.buffers.owner && s.buffers.owner[id] == Stack
  }

  lemma ConservedSend(s: State, f: Flight, answers: Answers)
    requires s.buffers.Settled() && s.starts == |s.reports| + |s.flights| + 1
    requires forall id :: id in s.flights ==> id in s.buffers.owner && s.buffers.owner[id] == Stack
    ensures Conserved(SendOrFail(s, f, answers))
  {
    PassThrough(s.buffers, Stack);
    PassThrough(s.buffers, Freed);
    assert s.buffers.next !in s.buffers.owner;
  }

  lemma ConservedContinue(cfg: Config, s: State, f: Flight, opcode: u16, success: bool, answers: Answers)
    requires s.buffers.Settled() && s.starts == |s.reports| + |s.flights| + 1
    requires forall id :: id in s.flights ==> id in s.buffers.owner && s.buffers.owner[id] == Stack
    ensures Conserved(Continue(cfg, s, f, opcode, success, answers))
  {
    var done := f.done + [f.packet];
    if success {
      match f.handler
      case CodecSet(msbc) =>
        var regs := Tuned(cfg, s.regs, msbc);
        ConservedSend(s.(regs := regs, lastI2s := Some(I2sPacket(regs))),
                      Flight(ConfigSet, WRITE_I2SPCM_INTERFACE_PARAM, I2sPacket(regs), f.origin, done), answers);
      case ConfigSet =>
        ConservedSend(s, Flight(ConfigSet, WRITE_SCO_PCM_INT_PARAM, PcmPacket(s.regs), f.origin, done), answers);
        ConservedSend(s, Flight(ConfigSet, WRITE_PCM_DATA_FORMAT_PARAM, FormatPacket(cfg), f.origin, done), answers);
    }
  }

  lemma ConservedRequest(s: State, codec: u16, answers: Answers)
    requires Conserved(s)
    ensures Conserved(AskCodec(s, codec, answers))
  {
    PassThrough(s.buffers, Stack);
    PassThrough(s.buffers, Freed);
    assert s.buffers.next !in s.buffers.owner;
  }

  lemma ConservedConfigure(cfg: Config, s: State, answers: Answers)
    requires Conserved(s)
    ensures Conserved(Configure(cfg, s, answers))
  {
    if cfg.bus.I2s? {
      var s1 := s.(regs := Configured(cfg, s.regs), starts := s.starts + 1);
      var regs := Tuned(cfg, s1.regs, false);
      ConservedSend(s1.(regs := regs, lastI2s := Some(I2sPacket(regs))),
                    Flight(ConfigSet, WRITE_I2SPCM_INTERFACE_PARAM, I2sPacket(regs), Startup, []), answers);
    }
  }

  lemma ConservedStep(cfg: Config, s: State, x: Stimulus)
    requires Conserved(s) && Enabled(s, x)
    ensures Conserved(Step(cfg, s, x))
  {
    match x
    case SetAudioState(codec, answers) => ConservedRequest(s, codec, answers);
    case ScoConfig(answers) => ConservedConfigure(cfg, s, answers);
    case Completion(id, event, answers) =>
      PassThrough(s.buffers, Freed);
      var s1 := s.(flights := s.flights - {id}, buffers := s.buffers.Acquire().HandOver(s.buffers.next, Freed));
      assert |s1.flights| == |s.flights| - 1;
      ConservedContinue(cfg, s1, s.flights[id], Opcode(event), Status(event) == 0, answers);
  }

  /** Over any interleaving, accepted starts equal audio_state_cb calls plus chains in flight, and every
      buffer has been freed or is the stack's. */
  lemma {:induction false} ConservedRun(cfg: Config, s: State, xs: seq<Stimulus>)
    requires Conserved(s) && Run(cfg, s, xs)
    ensures Conserved(After(cfg, s, xs))
    decreases |xs|
  {
    if xs != [] {
      ConservedStep(cfg, s, xs[0]);
      ConservedRun(cfg, Step(cfg, s, xs[0]), xs[1..]);
    }
  }

  /** A request that returns -1 starts nothing and is never reported; one that returns 0 starts a chain. */
  lemma RequestCounts(s: State, codec: u16, answers: Answers)
    requires Conserved(s)
    ensures var t := AskCodec(s, codec, answers);
            && t.reports == s.reports && t.regs == s.regs
            && (Accepted(answers) == -1 ==> t.starts == s.starts && t.flights == s.flights)
            && (Accepted(answers) == 0 ==> t.starts == s.starts + 1 && |t.flights| == |s.flights| + 1)
  {
    assert s.buffers.next !in s.buffers.owner;
  }

  predicate AllWellFormed(s: State) {
    forall id :: id in s.flights ==> WellFormed(s.flights[id].opcode, s.flights[id].packet)
  }

  lemma PacketsWellFormed(cfg: Config, r: Regs, codec: u16)
    ensures WellFormed(ENABLE_WBS, EnableWbs(codec)) && WellFormed(WRITE_I2SPCM_INTERFACE_PARAM, I2sPacket(r))
    ensures WellFormed(WRITE_SCO_PCM_INT_PARAM, PcmPacket(r))
            && WellFormed(WRITE_PCM_DATA_FORMAT_PARAM, FormatPacket(cfg))
  {
  }

  lemma WellFormedSend(s: State, f: Flight, answers: Answers)
    requires AllWellFormed(s) && WellFormed(f.opcode, f.packet)
    ensures AllWellFormed(SendOrFail(s, f, answers))
  {
  }

  lemma WellFormedI2s(cfg: Config, s: State, msbc: bool, origin: Origin, done: seq<seq<byte>>, answers: Answers)
    requires AllWellFormed(s)
    ensures AllWellFormed(StartI2s(cfg, s, msbc, origin, done, answers))
  {
    if answers.alloc {
      var regs := Tuned(cfg, s.regs, msbc);
      PacketsWellFormed(cfg, regs, 0);
      WellFormedSend(s.(regs := regs, lastI2s := Some(I2sPacket(regs))),
                     Flight(ConfigSet, WRITE_I2SPCM_INTERFACE_PARAM, I2sPacket(regs), origin, done), answers);
    }
  }

  lemma WellFormedContinue(cfg: Config, s: State, f: Flight, opcode: u16, success: bool, answers: Answers)
    requires AllWellFormed(s)
    ensures AllWellFormed(Continue(cfg, s, f, opcode, success, answers))
  {
    if success {
      var done := f.done + [f.packet];
      match f.handler
      case CodecSet(msbc) => WellFormedI2s(cfg, s, msbc, f.origin, done, answers);
      case ConfigSet =>
        PacketsWellFormed(cfg, s.regs, 0);
        WellFormedSend(s, Flight(ConfigSet, WRITE_SCO_PCM_INT_PARAM, PcmPacket(s.regs), f.origin, done), answers);
        WellFormedSend(s, Flight(ConfigSet, WRITE_PCM_DATA_FORMAT_PARAM, FormatPacket(cfg), f.origin, done), answers);
    }
  }

  lemma WellFormedStep(cfg: Config, s: State, x: Stimulus)
    requires AllWellFormed(s) && Enabled(s, x)
    ensures AllWellFormed(Step(cfg, s, x))
  {
    match x
    case SetAudioState(codec, _) => PacketsWellFormed(cfg, s.regs, codec);
    case ScoConfig(answers) =>
      WellFormedI2s(cfg, s.(regs := Configured(cfg, s.regs), starts := s.starts + 1), false, Startup, [], answers);
    case Completion(id, event, answers) =>
      var s1 := s.(flights := s.flights - {id}, buffers := s.buffers.Acquire().HandOver(s.buffers.next, Freed));
      WellFormedContinue(cfg, s1, s.flights[id], Opcode(event), Status(event) == 0, answers);
  }

  /** Every command of every interleaving is a well-formed HCI command. */
  lemma {:induction false} CommandsWellFormed(cfg: Config, s: State, xs: seq<Stimulus>)
    requires AllWellFormed(s) && Run(cfg, s, xs)
    ensures AllWellFormed(After(cfg, s, xs))
    decreases |xs|
  {
    if xs != [] {
      WellFormedStep(cfg, s, xs[0]);
      CommandsWellFormed(cfg, Step(cfg, s, xs[0]), xs[1..]);
    }
  }

  function Configurations(xs: seq<Stimulus>): nat {
    if xs == [] then 0 else (if xs[0].ScoConfig? then 1 else 0) + Configurations(xs[1..])
  }

  /** scocfg_cb is called once for every hw_sco_config. */
  lemma {:induction false} ConfigurationsReported(cfg: Config, s: State, xs: seq<Stimulus>)
    requires Run(cfg, s, xs)
    ensures After(cfg, s, xs).scoReports == s.scoReports + Configurations(xs)
    decreases |xs|
  {
    if xs != [] {
      ConfigurationsReported(cfg, Step(cfg, s, xs[0]), xs[1..]);
    }
  }

  // ----- clock rates -----

  /** The register the narrowband clock is taken from. */
  function ClockSource(cfg: Config, r: Regs): byte {
    if cfg.bus.I2s? then r.i2s[3] else r.pcm[1]
  }

  /** The registers against those left by the first hw_sco_config: the wideband clock is the same, the
      narrowband clock is the first one or the wideband one, and so is what a repetition would pick up;
      everything but the sample rate and the clocks is as it was. */
  predicate RegsInv(cfg: Config, base: Regs, r: Regs) {
    && base.wbs != INVALID_CLOCK && base.nbs <= base.wbs
    && r.wbs == base.wbs && r.nbs in {base.nbs, base.wbs} && ClockSource(cfg, r) in {r.nbs, r.wbs}
    && r.i2s[0] == base.i2s[0] && r.i2s[1] == base.i2s[1] && r.pcm == base.pcm[1 := r.pcm[1]]
    && (cfg.bus.Pcm? ==> base.i2s[1] == base.pcm[4])
    && base.i2s[0] == if cfg.bus.I2s? then 1 else 0
  }

  predicate ValidRates(cfg: Config, r: Regs) {
    cfg.wbsClock <= 4 && ClockSource(cfg, r) <= 4
  }

  /** The first hw_sco_config takes the narrowband clock from the bus's own parameter and the wideband
      clock from the configuration, or the narrowband one if that is higher; it sets the interface mode,
      copies the role on the PCM bus, and leaves everything else. */
  lemma FirstConfiguration(cfg: Config, r: Regs)
    requires r.wbs == INVALID_CLOCK && ValidRates(cfg, r)
    ensures var base := Configured(cfg, r);
            && RegsInv(cfg, base, base)
            && base.nbs == (if cfg.bus.I2s? then r.i2s[3] else r.pcm[1])
            && base.wbs == (if cfg.wbsClock >= base.nbs then cfg.wbsClock else base.nbs)
            && base.pcm == r.pcm && base.i2s[2..] == r.i2s[2..]
            && base.i2s[0] == (if cfg.bus.I2s? then 1 else 0)
            && base.i2s[1] == (if cfg.bus.I2s? then r.i2s[1] else r.pcm[4])
  {
    var base := Configured(cfg, r);
    assert base.pcm == base.pcm[1 := base.pcm[1]];
  }

  /** No hw_sco_config yet: the clock rates are invalid, and so are the clock parameters as soon as an
      I2SPCM command has been built. */
  predicate Untouched(cfg: Config, s: State, pcm: Bytes5, i2s: Bytes4) {
    && s.regs.wbs == INVALID_CLOCK && s.regs.nbs == INVALID_CLOCK
    && (s.lastI2s.None? ==> s.regs.pcm == pcm && s.regs.i2s == i2s)
    && (s.lastI2s.Some? ==> s.regs.pcm[1] == INVALID_CLOCK && s.regs.i2s[3] == INVALID_CLOCK)
  }

  lemma {:induction false} BeforeConfiguration(cfg: Config, s: State, pcm: Bytes5, i2s: Bytes4, xs: seq<Stimulus>)
    requires Untouched(cfg, s, pcm, i2s) && Run(cfg, s, xs) && forall x :: x in xs ==> !x.ScoConfig?
    ensures Untouched(cfg, After(cfg, s, xs), pcm, i2s)
    decreases |xs|
  {
    if xs != [] {
      BeforeConfiguration(cfg, Step(cfg, s, xs[0]), pcm, i2s, xs[1..]);
    }
  }

  /** hw_set_audio_state before the first hw_sco_config is what breaks the clocks: with valid rates
      configured, the first configuration yields valid clocks exactly when no I2SPCM command was built
      before it. */
  lemma ClocksValidIff(cfg: Config, pcm: Bytes5, i2s: Bytes4, xs: seq<Stimulus>)
    requires ValidRates(cfg, Fresh(pcm, i2s).regs)
    requires Run(cfg, Fresh(pcm, i2s), xs) && forall x :: x in xs ==> !x.ScoConfig?
    ensures var s := After(cfg, Fresh(pcm, i2s), xs);
            var r := Configured(cfg, s.regs);
            (r.nbs <= 4 && r.wbs <= 4 <==> s.lastI2s.None?) && (s.lastI2s.Some? ==> r.nbs == r.wbs == INVALID_CLOCK)
  {
    BeforeConfiguration(cfg, Fresh(pcm, i2s), pcm, i2s, xs);
  }

  /** Both clock rates and the parameters they are taken from are invalid. */
  predicate Poisoned(r: Regs) {
    r.nbs == 0xFF && r.wbs == 0xFF && r.pcm[1] == 0xFF && r.i2s[3] == 0xFF
  }

  lemma {:induction false} PoisonedRun(cfg: Config, s: State, xs: seq<Stimulus>)
    requires Poisoned(s.regs) && Run(cfg, s, xs)
    ensures Poisoned(After(cfg, s, xs).regs)
    decreases |xs|
  {
    if xs != [] {
      PoisonedRun(cfg, Step(cfg, s, xs[0]), xs[1..]);
    }
  }

  /** And that is for good: once an I2SPCM command has been built before the first hw_sco_config, clock
      rates and parameters are invalid after whatever follows, further configurations included. */
  lemma ClocksLostForGood(cfg: Config, pcm: Bytes5, i2s: Bytes4, xs: seq<Stimulus>, ys: seq<Stimulus>)
    requires Run(cfg, Fresh(pcm, i2s), xs) && forall x :: x in xs ==> !x.ScoConfig?
    requires var s := After(cfg, Fresh(pcm, i2s), xs); s.lastI2s.Some? && Run(cfg, s, ys)
    ensures Poisoned(After(cfg, After(cfg, Fresh(pcm, i2s), xs), ys).regs)
  {
    BeforeConfiguration(cfg, Fresh(pcm, i2s), pcm, i2s, xs);
    PoisonedRun(cfg, After(cfg, Fresh(pcm, i2s), xs), ys);
  }

  lemma TunedKeeps(cfg: Config, base: Regs, r: Regs, msbc: bool)
    requires RegsInv(cfg, base, r)
    ensures RegsInv(cfg, base, Tuned(cfg, r, msbc)) && Tuned(cfg, r, msbc).nbs == r.nbs
  {
  }

  lemma ConfiguredKeeps(cfg: Config, base: Regs, r: Regs)
    requires RegsInv(cfg, base, r)
    ensures RegsInv(cfg, base, Configured(cfg, r)) && r.nbs <= Configured(cfg, r).nbs
  {
  }

  /** A step leaves the registers, tunes them to a codec, or configures them first. */
  lemma StepRegs(cfg: Config, s: State, x: Stimulus)
    requires Enabled(s, x)
    ensures var r := Step(cfg, s, x).regs;
            var c := Configured(cfg, s.regs);
            if x.ScoConfig? then r == c || r == Tuned(cfg, c, false)
            else r == s.regs || r == Tuned(cfg, s.regs, true) || r == Tuned(cfg, s.regs, false)
  {
  }

  lemma RegsStep(cfg: Config, base: Regs, s: State, x: Stimulus)
    requires RegsInv(cfg, base, s.regs) && Enabled(s, x)
    ensures RegsInv(cfg, base, Step(cfg, s, x).regs) && s.regs.nbs <= Step(cfg, s, x).regs.nbs
  {
    StepRegs(cfg, s, x);
    ConfiguredKeeps(cfg, base, s.regs);
    TunedKeeps(cfg, base, Configured(cfg, s.regs), false);
    TunedKeeps(cfg, base, s.regs, false);
    TunedKeeps(cfg, base, s.regs, true);
  }

  /** Once hw_sco_config has run, the wideband clock never changes, and the narrowband clock never
      decreases and is always the first one or the wideband one. */
  lemma {:induction false} ClocksRun(cfg: Config, base: Regs, s: State, xs: seq<Stimulus>)
    requires RegsInv(cfg, base, s.regs) && Run(cfg, s, xs)
    ensures var r := After(cfg, s, xs).regs;
            && RegsInv(cfg, base, r) && s.regs.nbs <= r.nbs <= r.wbs == s.regs.wbs
    decreases |xs|
  {
    if xs != [] {
      RegsStep(cfg, base, s, xs[0]);
      ClocksRun(cfg, base, Step(cfg, s, xs[0]), xs[1..]);
    }
  }
}
