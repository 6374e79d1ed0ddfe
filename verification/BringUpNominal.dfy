/** Runs in which nothing goes wrong, over a patch file made of whole records. */
module BringUpNominal {
  import opened Hci
  import opened BringUp
  import opened BringUpRuns
  import opened BringUpCommands
  import opened BringUpStreaming
  import opened BringUpSpeeds
  import opened Results
  import Uart

  type Records = rs: seq<PatchRecord> | forall r :: r in rs ==> |r| == PREAMBLE + r[2] witness []

  predicate Launches(r: PatchRecord) {
    r[0] == 0x4E && r[1] == 0xFC
  }

  /** The records up to and including the first LAUNCH_RAM. */
  function UpToLaunch(rs: Records): Records {
    if rs == [] then []
    else if Launches(rs[0]) then [rs[0]]
    else [rs[0]] + UpToLaunch(rs[1..])
  }

  predicate HasLaunch(rs: Records) {
    exists r :: r in rs && Launches(r)
  }

  /** k records have been passed and none before the last of them was LAUNCH_RAM. */
  predicate Passed(rs: Records, k: nat) {
    k <= |rs| && forall i :: 0 <= i < k - 1 ==> !Launches(rs[i])
  }

  lemma {:induction false} StopsAtLaunch(rs: Records, k: nat)
    requires Passed(rs, k) && (k == |rs| || (k > 0 && Launches(rs[k - 1])))
    ensures UpToLaunch(rs) == rs[..k] && (HasLaunch(rs) <==> k > 0 && Launches(rs[k - 1]))
  {
    if k > 0 && Launches(rs[k - 1]) {
      assert rs[k - 1] in rs;
    }
    if k > 1 {
      assert forall i :: 0 <= i < k - 2 ==> rs[1..][i] == rs[i + 1];
      StopsAtLaunch(rs[1..], k - 1);
      assert rs[..k] == [rs[0]] + rs[1..][..k - 1];
    } else if k == 1 && !Launches(rs[0]) {
      assert rs[1..] == [];
    }
  }

  lemma {:induction false} FlatPrefix(rs: seq<seq<byte>>, k: nat)
    requires k <= |rs|
    ensures Flat(rs[..k]) <= Flat(rs)
    decreases |rs|
  {
    if k < |rs| {
      FlatPrefix(rs[..|rs| - 1], k);
      assert rs[..|rs| - 1][..k] == rs[..k];
    } else {
      assert rs[..k] == rs;
    }
  }

  /** After k records of the file comes record k, or the end. */
  lemma NextRecord(rs: Records, k: nat)
    requires k <= |rs|
    ensures var n := |Flat(rs[..k])|;
            && n <= |Flat(rs)|
            && (k == |rs| ==> n == |Flat(rs)|)
            && (k < |rs| ==> n + |rs[k]| <= |Flat(rs)| && rs[k] == Flat(rs)[n..n + |rs[k]|])
  {
    FlatPrefix(rs, k);
    if k < |rs| {
      FlatPrefix(rs, k + 1);
      FlatOneMore(rs, k);
      LastOfPrefix(Flat(rs), Flat(rs[..k]), rs[k]);
    } else {
      assert rs[..k] == rs;
    }
  }

  lemma FlatOneMore(rs: seq<seq<byte>>, k: nat)
    requires k < |rs|
    ensures Flat(rs[..k + 1]) == Flat(rs[..k]) + rs[k]
  {
    assert rs[..k + 1][..k] == rs[..k];
  }

  lemma LastOfPrefix(file: seq<byte>, before: seq<byte>, r: seq<byte>)
    requires before + r <= file
    ensures |before| + |r| <= |file| && r == file[|before|..|before| + |r|]
  {
    assert (before + r)[|before|..] == r;
  }

  // ----- nominal runs -----

  function FullRead(file: seq<byte>, pos: nat, asked: nat): seq<byte> {
    if pos + asked <= |file| then file[pos..pos + asked] else if pos <= |file| then file[pos..] else []
  }

  /** The command succeeds, a buffer is to be had, the send is accepted, the patch is found and opens,
      and reads return as much as there is. */
  predicate Nominal(s: Sys, x: Stimulus)
    requires Enabled(s, x)
  {
    && x.Complete? && Proceeds(s, x) && x.answers.accept
    && (s.driver.phase.ReadLocalName? ==> x.answers.found && x.answers.fd != -1)
    && (Downloading(s.driver.phase) ==>
          && x.answers.header == Some(FullRead(s.world.file, s.world.pos, PREAMBLE))
          && (FullHeader(x.answers) ==>
                x.answers.payload == Some(FullRead(s.world.file, s.world.pos + PREAMBLE, x.answers.header.value[2]))))
  }

  predicate NominalRun(setup: Setup, s: Sys, xs: seq<Stimulus>)
    decreases |xs|
  {
    xs == [] || (Enabled(s, xs[0]) && Nominal(s, xs[0]) && NominalRun(setup, Step(setup, s, xs[0]), xs[1..]))
  }

  /** The records sent so far, by phase: a prefix of the file's during the download, all that should
      go out after it. */
  predicate SentInv(rs: Records, d: Driver, pending: Option<Command>, sent: seq<seq<byte>>) {
    if Downloading(d.phase) then
      && Passed(rs, |sent|) && sent == rs[..|sent|] && pending.Some?
      && (d.phase.DlFwPatch? ==> |sent| > 0 && pending.value.packet == rs[|sent| - 1])
      && (d.phase.DlMinidriver? ==> sent == [])
    else if d.baud2 then sent == UpToLaunch(rs)
    else sent == [] && !d.phase.Off? && !d.phase.SetBdAddr?
  }

  /** The speed a record leaves the controller at, running at the target speed before. */
  function RecordSpeed(setup: Setup, r: seq<byte>): nat {
    if |r| < PREAMBLE then setup.target else SpeedAfter(setup.target, ReadLe16(r, 0), r)
  }

  /** Each record but the last leaves the controller at the target speed, and once the download has
      ended the last one leaves it at 115200. */
  predicate RecordsAgree(setup: Setup, sent: seq<seq<byte>>, ended: bool) {
    && (forall i :: 0 <= i < |sent| - 1 ==> RecordSpeed(setup, sent[i]) == setup.target)
    && (ended ==> INITIAL == if sent == [] then setup.target else RecordSpeed(setup, sent[|sent| - 1]))
  }

  /** What can be read off the patch file beforehand: the records that will be sent agree. */
  predicate FileAgrees(setup: Setup, rs: Records) {
    RecordsAgree(setup, UpToLaunch(rs), true)
  }

  predicate NominalInv(setup: Setup, rs: Records, s: Sys) {
    var w := s.world;
    var sent := PatchPackets(w.commands);
    && s.registered && w.file == Flat(rs)
    && SentInv(rs, s.driver, w.pending, sent)
    && (HandedOver(setup, w.commands) <==> RecordsAgree(setup, sent, s.driver.baud2))
    && (s.driver.phase.Off? ==> w.reports == [Success])
  }

  /** Two full reads where a whole record lies in the file return that record. */
  lemma ReadsRecord(file: seq<byte>, n: nat, r: seq<byte>)
    requires n + |r| <= |file| && r == file[n..n + |r|] && |r| >= PREAMBLE && |r| == PREAMBLE + r[2]
    ensures var header := FullRead(file, n, PREAMBLE);
            |header| == PREAMBLE && header + FullRead(file, n + PREAMBLE, header[2]) == r
  {
    var header := FullRead(file, n, PREAMBLE);
    assert header[2] == file[n + 2] == r[2];
    assert file[n..n + PREAMBLE] + file[n + PREAMBLE..n + |r|] == file[n..n + |r|];
  }

  /** Two full reads at the end of k records find record k, or the end of the file. */
  lemma FullReadsFind(rs: Records, k: nat, file: seq<byte>, pos: nat)
    requires k <= |rs| && file == Flat(rs) && pos == |Flat(rs[..k])|
    ensures var header := FullRead(file, pos, PREAMBLE);
            && (k == |rs| ==> header == [])
            && (k < |rs| ==> |header| == PREAMBLE && header + FullRead(file, pos + PREAMBLE, header[2]) == rs[k])
  {
    NextRecord(rs, k);
    if k < |rs| {
      ReadsRecord(file, pos, rs[k]);
    }
  }

  lemma PendingLaunches(setup: Setup, c: Command)
    requires Genuine(setup, c)
    ensures c.phase.DlFwPatch? ==> |c.packet| >= PREAMBLE && c.opcode == ReadLe16(c.packet, 0)
    ensures c.phase.DlMinidriver? ==> c.opcode != LAUNCH_RAM
  {
    var o :| c.phase == PhaseOf(o) && c.opcode == OpcodeOf(o) && c.packet == PacketOf(setup, o);
  }

  lemma DownloadChoice(setup: Setup, s: Sys, x: Stimulus)
    requires Enabled(s, x) && x.Complete? && Proceeds(s, x) && Downloading(s.driver.phase) && x.answers.accept
    ensures var r := Row(setup, s, x);
            var goesOn := SendsRecord(s.driver, x.event, x.answers);
            && Chosen(r, x.answers) == Some(if goesOn then Patch(Record(x.answers)) else Reset)
            && r.driver.baud2 == (s.driver.baud2 || !goesOn)
  {
  }

  /** The next download completion carries on with record k unless that was the last record or
      LAUNCH_RAM has just completed. */
  lemma GoesOn(setup: Setup, rs: Records, s: Sys, x: Stimulus, k: nat)
    requires Enabled(s, x) && Nominal(s, x) && Downloading(s.driver.phase) && s.driver.fd >= 0
    requires k <= |rs| && s.world.file == Flat(rs) && s.world.pos == |Flat(rs[..k])|
    requires s.world.pending.value.opcode == LAUNCH_RAM <==> k > 0 && Launches(rs[k - 1])
    ensures SendsRecord(s.driver, x.event, x.answers) <==> k < |rs| && !(k > 0 && Launches(rs[k - 1]))
    ensures k < |rs| ==> FullHeader(x.answers) && x.answers.payload.Some? && Record(x.answers) == rs[k]
  {
    FullReadsFind(rs, k, s.world.file, s.world.pos);
  }

  lemma DownloadSent(rs: Records, d: Driver, pending: Command, sent: seq<seq<byte>>, next: Driver, c: Command)
    requires SentInv(rs, d, Some(pending), sent) && Downloading(d.phase)
    requires Follows(rs, sent, c) && next.phase == c.phase && next.baud2 == c.phase.Start?
    ensures SentInv(rs, next, Some(c), if next.phase.DlFwPatch? then sent + [c.packet] else sent)
  {
    var k := |sent|;
    if next.phase.DlFwPatch? {
      assert rs[..k + 1] == rs[..k] + [rs[k]];
    } else {
      StopsAtLaunch(rs, k);
    }
  }

  /** The system t is s with one more command sent. */
  predicate OneSent(s: Sys, t: Sys, c: Command) {
    && t.registered == s.registered && t.world.file == s.world.file
    && t.world.commands == s.world.commands + [c] && t.world.pending == Some(c)
    && t.driver.phase == c.phase && !c.phase.Off?
  }

  lemma DownloadSends(setup: Setup, s: Sys, x: Stimulus)
    requires Enabled(s, x) && x.Complete? && Proceeds(s, x) && Downloading(s.driver.phase) && x.answers.accept
    ensures var t := Step(setup, s, x);
            && t.world.pending.Some? && OneSent(s, t, t.world.pending.value)
            && (if SendsRecord(s.driver, x.event, x.answers)
                then t.driver.phase.DlFwPatch? && t.world.pending.value.packet == Record(x.answers)
                     && t.driver.baud2 == s.driver.baud2
                else t.driver.phase.Start? && t.driver.baud2)
  {
    DownloadChoice(setup, s, x);
    StepSends(setup, s, x);
    StepIsRow(setup, s, x);
  }

  /** The command that has just completed decides whether the next one agrees. */
  lemma DownloadAgrees(setup: Setup, cs: seq<Command>, sent: seq<seq<byte>>, c: Command)
    requires cs != [] && (HandedOver(setup, cs) <==> RecordsAgree(setup, sent, false))
    requires var last := cs[|cs| - 1];
             && Downloading(last.phase) && Genuine(setup, last)
             && if last.phase.DlFwPatch? then sent != [] && last.packet == sent[|sent| - 1] else sent == []
    requires c.phase.DlFwPatch? || c.phase.Start?
    ensures HandedOver(setup, cs + [c]) <==>
              RecordsAgree(setup, if c.phase.DlFwPatch? then sent + [c.packet] else sent, c.phase.Start?)
  {
    var last := cs[|cs| - 1];
    AgreeOneMore(setup, cs, c);
    PendingLaunches(setup, last);
    PhaseTells(setup, last, setup.target);
    if c.phase.DlFwPatch? {
      var more := sent + [c.packet];
      assert forall i :: 0 <= i < |sent| ==> more[i] == sent[i];
      assert RecordsAgree(setup, more, false) <==>
             forall i :: 0 <= i < |sent| ==> RecordSpeed(setup, sent[i]) == setup.target;
    }
  }

  /** c is what should follow the records sent so far. */
  predicate Follows(rs: Records, sent: seq<seq<byte>>, c: Command) {
    var k := |sent|;
    if k < |rs| && !(k > 0 && Launches(rs[k - 1])) then c.phase.DlFwPatch? && c.packet == rs[k] else c.phase.Start?
  }

  lemma AgreesStill(setup: Setup, rs: Records, s: Sys, c: Command)
    requires SentInv(rs, s.driver, s.world.pending, PatchPackets(s.world.commands)) && Downloading(s.driver.phase)
    requires HandedOver(setup, s.world.commands) <==> RecordsAgree(setup, PatchPackets(s.world.commands), false)
    requires s.world.commands != [] && s.world.commands[|s.world.commands| - 1] == s.world.pending.value
    requires Genuine(setup, s.world.pending.value) && s.world.pending.value.phase == s.driver.phase
    requires Follows(rs, PatchPackets(s.world.commands), c)
    ensures var cs := s.world.commands + [c];
            HandedOver(setup, cs) <==> RecordsAgree(setup, PatchPackets(cs), c.phase.Start?)
  {
    OneMore(s.world.commands, c);
    DownloadAgrees(setup, s.world.commands, PatchPackets(s.world.commands), c);
  }

  lemma DownloadKeeps(setup: Setup, rs: Records, s: Sys, t: Sys, c: Command)
    requires NominalInv(setup, rs, s) && Downloading(s.driver.phase) && !s.driver.baud2 && OneSent(s, t, c)
    requires s.world.commands != [] && s.world.commands[|s.world.commands| - 1] == s.world.pending.value
    requires Genuine(setup, s.world.pending.value) && s.world.pending.value.phase == s.driver.phase
    requires Follows(rs, PatchPackets(s.world.commands), c) && t.driver.baud2 == c.phase.Start?
    ensures NominalInv(setup, rs, t)
  {
    AgreesStill(setup, rs, s, c);
    OneMore(s.world.commands, c);
    DownloadSent(rs, s.driver, s.world.pending.value, PatchPackets(s.world.commands), t.driver, c);
  }

  lemma SentStands(setup: Setup, rs: Records, d: Driver, pending: Command, sent: seq<seq<byte>>)
    requires SentInv(rs, d, Some(pending), sent) && Downloading(d.phase)
    requires Genuine(setup, pending) && pending.phase == d.phase
    ensures |sent| <= |rs| && sent == rs[..|sent|]
    ensures pending.opcode == LAUNCH_RAM <==> |sent| > 0 && Launches(rs[|sent| - 1])
  {
    PendingLaunches(setup, pending);
  }

  lemma FileStands(s: Sys)
    requires PhaseInv(s.driver, s.world.opens) && FileInv(s.driver, s.world) && StreamInv(s)
    requires Downloading(s.driver.phase)
    ensures s.world.pos == |Flat(PatchPackets(s.world.commands))| && s.driver.fd >= 0 && !s.driver.baud2
  {
  }

  /** k records have been sent and the file stands right after them. */
  lemma Stands(setup: Setup, rs: Records, s: Sys)
    requires PhaseInv(s.driver, s.world.opens) && FileInv(s.driver, s.world) && PendingInv(s) && StreamInv(s)
    requires SentInv(rs, s.driver, s.world.pending, PatchPackets(s.world.commands))
    requires Downloading(s.driver.phase) && Genuine(setup, s.world.pending.value)
    ensures var k := |PatchPackets(s.world.commands)|;
            && k <= |rs| && PatchPackets(s.world.commands) == rs[..k] && s.world.pos == |Flat(rs[..k])|
            && s.driver.fd >= 0 && !s.driver.baud2
            && (s.world.pending.value.opcode == LAUNCH_RAM <==> k > 0 && Launches(rs[k - 1]))
  {
    FileStands(s);
    var pending := s.world.pending.value;
    assert pending.phase == s.driver.phase;
    SentStands(setup, rs, s.driver, pending, PatchPackets(s.world.commands));
  }

  lemma DownloadNext(setup: Setup, rs: Records, s: Sys, x: Stimulus, k: nat)
    requires Enabled(s, x) && Nominal(s, x) && Downloading(s.driver.phase) && s.driver.fd >= 0 && !s.driver.baud2
    requires k <= |rs| && s.world.file == Flat(rs) && s.world.pos == |Flat(rs[..k])|
    requires s.world.pending.value.opcode == LAUNCH_RAM <==> k > 0 && Launches(rs[k - 1])
    ensures var t := Step(setup, s, x);
            && t.world.pending.Some? && OneSent(s, t, t.world.pending.value)
            && Follows(rs, rs[..k], t.world.pending.value) && t.driver.baud2 == t.driver.phase.Start?
  {
    GoesOn(setup, rs, s, x, k);
    DownloadSends(setup, s, x);
  }

  lemma DownloadStep(setup: Setup, rs: Records, s: Sys, x: Stimulus)
    requires PhaseInv(s.driver, s.world.opens) && FileInv(s.driver, s.world) && PendingInv(s)
    requires StreamInv(s) && NominalInv(setup, rs, s) && Enabled(s, x) && Nominal(s, x)
    requires Downloading(s.driver.phase) && Genuine(setup, s.world.pending.value)
    ensures NominalInv(setup, rs, Step(setup, s, x))
  {
    Stands(setup, rs, s);
    DownloadNext(setup, rs, s, x, |PatchPackets(s.world.commands)|);
    var t := Step(setup, s, x);
    DownloadKeeps(setup, rs, s, t, t.world.pending.value);
  }

  /** Outside the download a nominal completion sends its row's first command; only after the second
      baud switch can there be none, and then the run succeeds. */
  lemma OtherChoice(setup: Setup, s: Sys, x: Stimulus)
    requires Inv(s) && Enabled(s, x) && Nominal(s, x) && !Downloading(s.driver.phase)
    requires s.driver.phase.SetBdAddr? ==> s.driver.baud2
    ensures var r := Row(setup, s, x);
            && Chosen(r, x.answers) == r.first && r.driver.baud2 == s.driver.baud2 && r.world.file == s.world.file
            && (r.first.None? ==> s.driver.baud2 && r.otherwise.Success?)
            && (r.first.Some? ==> !r.first.value.Reset? && !r.first.value.Patch?)
            && (r.first.Some? && s.driver.baud2 ==> !Downloading(PhaseOf(r.first.value)))
            && (r.first.Some? && !s.driver.baud2 ==> !r.first.value.WriteAddress?)
  {
  }

  lemma OtherSends(setup: Setup, s: Sys, x: Stimulus)
    requires Inv(s) && Enabled(s, x) && Nominal(s, x) && !Downloading(s.driver.phase)
    requires s.driver.phase.SetBdAddr? ==> s.driver.baud2
    ensures var t := Step(setup, s, x);
            && t.registered && t.driver.baud2 == s.driver.baud2 && t.world.file == s.world.file
            && (t.driver.phase.Off? ==>
                  s.driver.baud2 && t.world.commands == s.world.commands && t.world.reports == [Success])
            && (!t.driver.phase.Off? ==>
                  && t.world.pending.Some? && OneSent(s, t, t.world.pending.value)
                  && !t.driver.phase.Start? && !t.driver.phase.DlFwPatch?
                  && (if s.driver.baud2 then !t.driver.phase.DlMinidriver? else !t.driver.phase.SetBdAddr?))
  {
    OtherChoice(setup, s, x);
    StepSends(setup, s, x);
    StepIsRow(setup, s, x);
    RowInv(setup, s, x);
  }

  lemma OtherStep(setup: Setup, rs: Records, s: Sys, x: Stimulus)
    requires Inv(s) && NominalInv(setup, rs, s) && Enabled(s, x) && Nominal(s, x) && !Downloading(s.driver.phase)
    ensures NominalInv(setup, rs, Step(setup, s, x))
  {
    OtherSends(setup, s, x);
    var t := Step(setup, s, x);
    if !t.driver.phase.Off? {
      OneMore(s.world.commands, t.world.pending.value);
      AgreeOneMore(setup, s.world.commands, t.world.pending.value);
    }
  }

  lemma {:induction false} RunsNominally(setup: Setup, rs: Records, s: Sys, xs: seq<Stimulus>)
    requires NominalRun(setup, s, xs)
    requires Inv(s) && StreamInv(s) && NominalInv(setup, rs, s) && AllGenuine(setup, s.world.commands)
    ensures Run(setup, s, xs)
    ensures var t := After(setup, s, xs); Inv(t) && NominalInv(setup, rs, t) && AllGenuine(setup, t.world.commands)
    decreases |xs|
  {
    if xs != [] {
      InvStep(setup, s, xs[0]);
      StreamStep(setup, s, xs[0]);
      GenuineStep(setup, s, xs[0]);
      if Downloading(s.driver.phase) {
        DownloadStep(setup, rs, s, xs[0]);
      } else {
        OtherStep(setup, rs, s, xs[0]);
      }
      RunsNominally(setup, rs, Step(setup, s, xs[0]), xs[1..]);
    }
  }

  /** A nominal run over a file of whole records sends exactly the records up to and including the
      first LAUNCH_RAM, in order and one command each, and when it is over it has reported SUCCESS. */
  lemma NominalRunDownloads(setup: Setup, rs: Records, xs: seq<Stimulus>)
    requires NominalRun(setup, Launched(Flat(rs)), xs)
    ensures Run(setup, Launched(Flat(rs)), xs)
    ensures var t := After(setup, Launched(Flat(rs)), xs);
            && (t.driver.baud2 ==> PatchPackets(t.world.commands) == UpToLaunch(rs))
            && (t.driver.phase.Off? ==> t.driver.baud2 && t.world.reports == [Success])
            && (t.driver.baud2 ==> (HandedOver(setup, t.world.commands) <==> FileAgrees(setup, rs)))
  {
    var s := Launched(Flat(rs));
    InvLaunched(Flat(rs));
    GenuineLaunched(setup, Flat(rs));
    assert s.world.commands[..0] == [];
    RunsNominally(setup, rs, s, xs);
  }

  /** With a supported target, a completed nominal run has both ends at the same speed at every
      transmission exactly when the records of the file agree. */
  lemma NominalSpeedsAgreeIff(setup: Setup, rs: Records, xs: seq<Stimulus>)
    requires NominalRun(setup, Launched(Flat(rs)), xs) && Uart.Supported(setup.target)
    ensures Run(setup, Launched(Flat(rs)), xs)
    ensures var t := After(setup, Launched(Flat(rs)), xs);
            t.driver.phase.Off? ==>
              && (Agreed(t.world.commands) <==> FileAgrees(setup, rs))
              && t.world.host == t.world.controller == setup.target
  {
    NominalRunDownloads(setup, rs, xs);
    if After(setup, Launched(Flat(rs)), xs).driver.phase.Off? {
      SpeedsAgreeIff(setup, Flat(rs), xs);
      SuccessMeansTargetSpeed(setup, Flat(rs), xs);
    }
  }

  lemma {:induction false} UpToLaunchEnds(rs: Records)
    ensures var sent := UpToLaunch(rs);
            && (forall i :: 0 <= i < |sent| - 1 ==> !Launches(sent[i]))
            && (HasLaunch(rs) <==> |sent| > 0 && Launches(sent[|sent| - 1]))
  {
    if rs != [] && !Launches(rs[0]) {
      UpToLaunchEnds(rs[1..]);
      assert forall r :: r in rs <==> r == rs[0] || r in rs[1..];
    } else if rs != [] {
      assert rs[0] in rs;
    }
  }

  /** For a file without baud-rate records it comes down to whether it has a LAUNCH_RAM record (or the
      target is 115200 anyway). */
  lemma LaunchDecides(setup: Setup, rs: Records)
    requires forall r :: r in UpToLaunch(rs) ==> ReadLe16(r, 0) != UPDATE_BAUDRATE
    ensures FileAgrees(setup, rs) <==> HasLaunch(rs) || setup.target == INITIAL
  {
    UpToLaunchEnds(rs);
  }

  /** Nominal runs exist: one that is not over can go on. */
  lemma NominalGoesOn(s: Sys) returns (x: Stimulus)
    requires Inv(s) && s.registered && !s.driver.phase.Off?
    ensures Enabled(s, x) && Nominal(s, x)
  {
    var opcode := s.world.pending.value.opcode;
    var returned: seq<byte> := [0, 0, 0, 0, 0, 0, 0];
    DecodeInvertsCommandComplete(1, opcode, returned);
    var header := FullRead(s.world.file, s.world.pos, PREAMBLE);
    var payload := if |header| == PREAMBLE then FullRead(s.world.file, s.world.pos + PREAMBLE, header[2]) else [];
    x := Complete(CommandComplete(1, opcode, returned),
                  Answers(true, true, true, true, 0, Some(header), Some(payload)));
  }

  /** Nominal runs do come to an end. */
  lemma {:induction false} NominalCompletes(setup: Setup, s: Sys) returns (xs: seq<Stimulus>)
    requires Inv(s) && s.registered
    ensures NominalRun(setup, s, xs) && Run(setup, s, xs) && After(setup, s, xs).driver.phase.Off?
    decreases Rank(s)
  {
    xs := [];
    if !s.driver.phase.Off? {
      var x := NominalGoesOn(s);
      InvStep(setup, s, x);
      RankStep(setup, s, x);
      var rest := NominalCompletes(setup, Step(setup, s, x));
      xs := [x] + rest;
      assert xs[1..] == rest;
    }
  }
}
