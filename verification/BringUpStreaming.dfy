/** What the download states send, compared with the patch file. */
module BringUpStreaming {
  import opened Hci
  import opened BringUp
  import opened BringUpRuns
  import opened Results

  /** The packets sent in the download state, in order. */
  function PatchPackets(cs: seq<Command>): seq<seq<byte>> {
    if cs == [] then []
    else
      var last := cs[|cs| - 1];
      PatchPackets(cs[..|cs| - 1]) + if last.phase.DlFwPatch? then [last.packet] else []
  }

  function Flat(packets: seq<seq<byte>>): seq<byte> {
    if packets == [] then [] else Flat(packets[..|packets| - 1]) + packets[|packets| - 1]
  }

  lemma OneMore(cs: seq<Command>, c: Command)
    ensures PatchPackets(cs + [c]) == if c.phase.DlFwPatch? then PatchPackets(cs) + [c.packet] else PatchPackets(cs)
    ensures c.phase.DlFwPatch? ==> Flat(PatchPackets(cs + [c])) == Flat(PatchPackets(cs)) + c.packet
  {
    assert (cs + [c])[..|cs|] == cs;
    if c.phase.DlFwPatch? {
      assert PatchPackets(cs + [c])[..|PatchPackets(cs)|] == PatchPackets(cs);
    }
  }

  /** The packets sent in the download state are exactly the first n bytes of the file, at least three at a time. */
  predicate Streams(cs: seq<Command>, file: seq<byte>, n: nat) {
    n <= |file| && Flat(PatchPackets(cs)) == file[..n] && PREAMBLE * |PatchPackets(cs)| <= n
  }

  predicate StreamInv(s: Sys) {
    var w := s.world;
    var n := |Flat(PatchPackets(w.commands))|;
    && n <= w.pos <= |w.file| && Streams(w.commands, w.file, n)
    && (w.opens == 0 ==> n == 0)
    && (Downloading(s.driver.phase) ==> n == w.pos)
  }

  lemma StreamsRecord(cs: seq<Command>, c: Command, file: seq<byte>, n: nat)
    requires Streams(cs, file, n) && c.phase.DlFwPatch?
    requires n + |c.packet| <= |file| && c.packet == file[n..n + |c.packet|] && |c.packet| >= PREAMBLE
    ensures Streams(cs + [c], file, n + |c.packet|)
  {
    OneMore(cs, c);
    assert file[..n + |c.packet|] == file[..n] + c.packet;
  }

  /** The file position after a completion's effects, and where the packet it sends stands in the file. */
  predicate ReadsOn(s: Sys, w: World, sent: Option<Command>) {
    && w.file == s.world.file && w.pos <= |w.file| && w.opens >= s.world.opens
    && (s.world.opens == 0 || w.pos >= s.world.pos)
    && (sent.Some? ==>
          && (sent.value.phase.DlMinidriver? ==> s.world.opens == 0 && w.pos == 0)
          && (sent.value.phase.DlFwPatch? ==>
                && Downloading(s.driver.phase) && |sent.value.packet| >= PREAMBLE && s.world.opens > 0
                && w.pos == s.world.pos + |sent.value.packet| && sent.value.packet == w.file[s.world.pos..w.pos]))
  }

  lemma ReadsJoin(file: seq<byte>, pos: nat, header: seq<byte>, payload: seq<byte>)
    requires ReadFits(file, pos, Some(header), |header|) && ReadFits(file, pos + |header|, Some(payload), |payload|)
    ensures header + payload == file[pos..pos + |header + payload|]
  {
  }

  lemma DownloadReadsOn(setup: Setup, s: Sys, x: Stimulus)
    requires Inv(s) && Enabled(s, x) && x.Complete? && Proceeds(s, x) && Downloading(s.driver.phase)
    ensures ReadsOn(s, Effects(setup, s, x), Outgoing(setup, s, x))
  {
    if SendsRecord(s.driver, x.event, x.answers) {
      ReadsJoin(s.world.file, s.world.pos, x.answers.header.value, x.answers.payload.value);
    }
  }

  lemma RowStream(setup: Setup, s: Sys, x: Stimulus)
    requires Inv(s) && Enabled(s, x) && x.Complete?
    ensures ReadsOn(s, Effects(setup, s, x), Outgoing(setup, s, x))
  {
    if Proceeds(s, x) && Downloading(s.driver.phase) {
      DownloadReadsOn(setup, s, x);
    }
  }

  lemma StreamStep(setup: Setup, s: Sys, x: Stimulus)
    requires Inv(s) && StreamInv(s) && Enabled(s, x)
    ensures StreamInv(Step(setup, s, x))
  {
    if x.Complete? {
      StepSends(setup, s, x);
      RowStream(setup, s, x);
      StreamSent(s.world, Effects(setup, s, x), Outgoing(setup, s, x), s.driver.phase);
      var t := Step(setup, s, x).world;
      assert Outgoing(setup, s, x).None? ==> t.commands == s.world.commands;
    }
  }

  lemma StreamSent(w0: World, w: World, sent: Option<Command>, phase: Phase)
    requires var n := |Flat(PatchPackets(w0.commands))|;
             && n <= w0.pos && Streams(w0.commands, w0.file, n) && (w0.opens == 0 ==> n == 0)
             && (Downloading(phase) ==> n == w0.pos)
    requires w.file == w0.file && w.pos <= |w.file| && w.opens >= w0.opens && (w0.opens == 0 || w.pos >= w0.pos)
    requires sent.Some? ==>
               && (sent.value.phase.DlMinidriver? ==> w0.opens == 0 && w.pos == 0)
               && (sent.value.phase.DlFwPatch? ==>
                     && Downloading(phase) && |sent.value.packet| >= PREAMBLE && w0.opens > 0
                     && w.pos == w0.pos + |sent.value.packet| && sent.value.packet == w.file[w0.pos..w.pos])
    ensures var cs := w0.commands + if sent.Some? then [sent.value] else [];
            var n := |Flat(PatchPackets(cs))|;
            && n <= w.pos && Streams(cs, w.file, n) && (w.opens == 0 ==> n == 0)
            && (sent.Some? && Downloading(sent.value.phase) ==> n == w.pos)
  {
    if sent.None? {
      assert w0.commands + [] == w0.commands;
    } else if sent.value.phase.DlFwPatch? {
      StreamsRecord(w0.commands, sent.value, w.file, w0.pos);
    } else {
      OneMore(w0.commands, sent.value);
    }
  }

  lemma {:induction false} StreamRun(setup: Setup, s: Sys, xs: seq<Stimulus>)
    requires Inv(s) && StreamInv(s) && Run(setup, s, xs)
    ensures StreamInv(After(setup, s, xs))
    decreases |xs|
  {
    if xs != [] {
      InvStep(setup, s, xs[0]);
      StreamStep(setup, s, xs[0]);
      StreamRun(setup, Step(setup, s, xs[0]), xs[1..]);
    }
  }

  /** However short the reads, and whatever fails: the packets sent in the download state, put end to
      end, are a prefix of the patch file, and there are at most a third as many as the file has bytes. */
  lemma DownloadsAPrefix(setup: Setup, file: seq<byte>, xs: seq<Stimulus>)
    requires Run(setup, Launched(file), xs)
    ensures var sent := PatchPackets(After(setup, Launched(file), xs).world.commands);
            Flat(sent) <= file && |sent| <= |file| / PREAMBLE
  {
    var s := Launched(file);
    InvLaunched(file);
    assert s.world.commands[..0] == [];
    StreamRun(setup, s, xs);
    RankRun(setup, s, xs);
  }
}
