/** Bring-ups after the first one: whatever happened before, a start with nothing outstanding begins a run
    like the first. */
module BringUpAgain {
  import opened Hci
  import opened Buffers
  import opened BringUp
  import opened BringUpRuns
  import opened BringUpCommands
  import opened BringUpStreaming
  import opened BringUpSpeeds
  import opened BringUpOrder
  import opened Results
  import Uart

  // ----- what happened before does not matter -----

  predicate Extends(base: World, w: World) {
    base.opens <= w.opens && base.closes <= w.closes && base.commands <= w.commands && base.reports <= w.reports
  }

  /** The world with only what has happened since. */
  function Since(base: World, w: World): World
    requires Extends(base, w)
  {
    w.(opens := w.opens - base.opens, closes := w.closes - base.closes,
       commands := w.commands[|base.commands|..], reports := w.reports[|base.reports|..])
  }

  function View(base: World, s: Sys): Sys
    requires Extends(base, s.world)
  {
    s.(world := Since(base, s.world))
  }

  lemma DownloadFrames(base: World, d: Driver, w: World, event: seq<byte>, answers: Answers)
    requires Extends(base, w) && |event| > STATUS_AT
    ensures var r := ReactDownload(d, w, event, answers);
            && Extends(base, r.world)
            && ReactDownload(d, Since(base, w), event, answers) == r.(world := Since(base, r.world))
  {
  }

  lemma RowFrames(setup: Setup, base: World, d: Driver, w: World, event: seq<byte>, answers: Answers)
    requires Extends(base, w) && Readable(d, event) && Status(event) == 0
    ensures var r := React(setup, d, w, event, answers);
            && Extends(base, r.world)
            && React(setup, d, Since(base, w), event, answers) == r.(world := Since(base, r.world))
  {
    match d.phase
    case DlMinidriver => DownloadFrames(base, d, w, event, answers);
    case DlFwPatch => DownloadFrames(base, d, w, event, answers);
    case _ =>
  }

  lemma FinishFrames(base: World, s: Sys, outcome: Outcome)
    requires Extends(base, s.world)
    ensures var t := Finish(s, outcome); Extends(base, t.world) && Finish(View(base, s), outcome) == View(base, t)
  {
  }

  lemma SentFrames(setup: Setup, base: World, s: Sys, o: Order, buffer: nat)
    requires Extends(base, s.world)
    ensures var t := Sent(setup, s, o, buffer);
            Extends(base, t.world) && Sent(setup, View(base, s), o, buffer) == View(base, t)
  {
  }

  lemma ConcludeFrames(setup: Setup, base: World, registered: bool, r: Reaction, buffer: nat, answers: Answers)
    requires Extends(base, r.world)
    ensures var t := Conclude(setup, registered, r, buffer, answers);
            && Extends(base, t.world)
            && Conclude(setup, registered, r.(world := Since(base, r.world)), buffer, answers) == View(base, t)
  {
    var s := Sys(registered, r.driver, r.world);
    match Chosen(r, answers)
    case Some(o) => SentFrames(setup, base, s, o, buffer);
    case None => FinishFrames(base, s.(world := Free(s.world, buffer)), r.otherwise);
  }

  lemma AcquireFrames(base: World, w: World)
    requires Extends(base, w)
    ensures var w1 := w.(buffers := w.buffers.Acquire());
            && Extends(base, w1) && Since(base, w1) == Since(base, w).(buffers := Since(base, w).buffers.Acquire())
            && Since(base, w).buffers == w.buffers
  {
  }

  lemma FreeFrames(base: World, w: World, buffer: nat)
    requires Extends(base, w)
    ensures Extends(base, Free(w, buffer)) && Since(base, Free(w, buffer)) == Free(Since(base, w), buffer)
  {
  }

  /** A completion that reaches the table, the event buffer freed. */
  lemma ProceedFrames(setup: Setup, base: World, s: Sys, event: seq<byte>, answers: Answers)
    requires Extends(base, s.world) && Readable(s.driver, event) && Status(event) == 0
    ensures var r := React(setup, s.driver, s.world.(buffers := s.world.buffers.Acquire()), event, answers);
            var t := Conclude(setup, s.registered, r, s.world.buffers.next, answers);
            var w := Since(base, s.world);
            var r1 := React(setup, s.driver, w.(buffers := w.buffers.Acquire()), event, answers);
            Extends(base, t.world) && Conclude(setup, s.registered, r1, w.buffers.next, answers) == View(base, t)
  {
    var w := s.world.(buffers := s.world.buffers.Acquire());
    AcquireFrames(base, s.world);
    RowFrames(setup, base, s.driver, w, event, answers);
    ConcludeFrames(setup, base, s.registered, React(setup, s.driver, w, event, answers), s.world.buffers.next, answers);
  }

  lemma HandleFrames(setup: Setup, base: World, s: Sys, event: seq<byte>, eventBuffer: nat, answers: Answers)
    requires Extends(base, s.world) && Readable(s.driver, event)
    ensures var t := Handle(setup, s, event, eventBuffer, answers);
            Extends(base, t.world) && Handle(setup, View(base, s), event, eventBuffer, answers) == View(base, t)
  {
    FreeFrames(base, s.world, eventBuffer);
    var s1 := if s.registered then s.(world := Free(s.world, eventBuffer)) else s;
    if Status(event) == 0 && s.registered && answers.alloc {
      ProceedFrames(setup, base, s1, event, answers);
    } else {
      FinishFrames(base, s1, Fail);
    }
  }

  lemma DeliverFrames(base: World, w: World, event: seq<byte>)
    requires Extends(base, w) && w.pending.Some? && |event| > STATUS_AT
    ensures Extends(base, Deliver(w, event)) && Since(base, Deliver(w, event)) == Deliver(Since(base, w), event)
  {
  }

  lemma EnabledFrames(base: World, s: Sys, x: Stimulus)
    requires Extends(base, s.world) && Enabled(s, x)
    ensures Enabled(View(base, s), x)
  {
  }

  lemma StepFrames(setup: Setup, base: World, s: Sys, x: Stimulus)
    requires Extends(base, s.world) && Enabled(s, x)
    ensures var t := Step(setup, s, x);
            Enabled(View(base, s), x) && Extends(base, t.world) && Step(setup, View(base, s), x) == View(base, t)
  {
    EnabledFrames(base, s, x);
    if x.Complete? {
      DeliverFrames(base, s.world, x.event);
      HandleFrames(setup, base, s.(world := Deliver(s.world, x.event)), x.event, s.world.buffers.next, x.answers);
    }
  }

  /** A run seen from some point on is a run. */
  lemma {:induction false} RunFrames(setup: Setup, base: World, s: Sys, xs: seq<Stimulus>)
    requires Extends(base, s.world) && Run(setup, s, xs)
    ensures Run(setup, View(base, s), xs)
    ensures var t := After(setup, s, xs); Extends(base, t.world) && After(setup, View(base, s), xs) == View(base, t)
    decreases |xs|
  {
    if xs != [] {
      StepFrames(setup, base, s, xs[0]);
      RunFrames(setup, base, Step(setup, s, xs[0]), xs[1..]);
    }
  }

  // ----- starting again -----

  /** Nothing outstanding and nothing held; both ends at 115200, as after power-up and opening the port.
      The second-pass flag is whatever the last run left. */
  ghost predicate Idle(s: Sys) {
    var w := s.world;
    && s.registered && w.open.None? && w.pending.None? && w.pos <= |w.file| && !w.fault && w.buffers.Settled()
    && w.host == INITIAL && w.controller == INITIAL
  }

  /** What every state of a run from a first start satisfies. */
  ghost predicate LikeFirst(setup: Setup, s: Sys) {
    && Inv(s) && StreamInv(s) && SpeedInv(setup, s) && OrderInv(setup, s) && AllGenuine(setup, s.world.commands)
    && (Uart.Supported(setup.target) ==> AgreeInv(setup, s))
  }

  lemma BeginsAfresh(setup: Setup, s: Sys)
    requires Idle(s)
    ensures var t := Begin(s, true, true);
            && Extends(s.world, t.world) && LikeFirst(setup, View(s.world, t))
            && Rank(View(s.world, t)) == |s.world.file| / 3 + 12
  {
    var t := View(s.world, Begin(s, true, true));
    PassThrough(s.world.buffers, Stack);
    var c := t.world.commands[0];
    assert t.world.commands == [c];
    assert t.world.commands[..0] == [];
    assert Genuine(setup, c) by {
      assert c.phase == PhaseOf(Reset) && c.opcode == OpcodeOf(Reset) && c.packet == PacketOf(setup, Reset);
    }
    assert StreamInv(t);
  }

  lemma {:induction false} LikeFirstRun(setup: Setup, s: Sys, xs: seq<Stimulus>)
    requires LikeFirst(setup, s) && Run(setup, s, xs)
    ensures LikeFirst(setup, After(setup, s, xs))
  {
    InvRun(setup, s, xs);
    StreamRun(setup, s, xs);
    SpeedRun(setup, s, xs);
    OrderRun(setup, s, xs);
    GenuineRun(setup, s, xs);
  }

  /** A run begun with nothing outstanding, whatever came before it, keeps everything a first one does,
      within the same bounds, and only adds to what has happened. */
  lemma AgainLikeFirst(setup: Setup, s: Sys, xs: seq<Stimulus>)
    requires Idle(s) && Run(setup, Begin(s, true, true), xs)
    ensures var t := After(setup, Begin(s, true, true), xs);
            && Extends(s.world, t.world) && LikeFirst(setup, View(s.world, t))
            && t.world.file == s.world.file
            && |xs| <= |s.world.file| / 3 + 12 && |t.world.commands| <= |s.world.commands| + |s.world.file| / 3 + 13
  {
    BeginsAfresh(setup, s);
    RunFrames(setup, s.world, Begin(s, true, true), xs);
    var t := View(s.world, Begin(s, true, true));
    LikeFirstRun(setup, t, xs);
    RankRun(setup, t, xs);
  }

  /** So every bring-up, not only the first: it opens the patch file at most once and closes it again,
      sends no more of it than a prefix, makes one more report when it is over and none before, sends its
      commands in order from the reset on, and has the controller at the target speed when it reports SUCCESS. */
  lemma EveryBringUpCompletes(setup: Setup, s: Sys, xs: seq<Stimulus>)
    requires Idle(s) && Run(setup, Begin(s, true, true), xs)
    ensures var t := After(setup, Begin(s, true, true), xs);
            && Extends(s.world, t.world) && !t.world.fault
            && t.world.opens <= s.world.opens + 1
            && Ordered(setup, t.world.commands[|s.world.commands|..])
            && Flat(PatchPackets(t.world.commands[|s.world.commands|..])) <= s.world.file
            && (t.driver.phase.Off? ==>
                  && t.driver.fd == -1 && t.world.open.None?
                  && t.world.closes - s.world.closes == t.world.opens - s.world.opens
                  && (t.registered ==> |t.world.reports| == |s.world.reports| + 1))
            && (!t.driver.phase.Off? ==> t.world.reports == s.world.reports)
            && (Success in t.world.reports[|s.world.reports|..] ==>
                  && t.world.controller == setup.target
                  && (t.world.host == setup.target <==> Uart.Supported(setup.target)))
  {
    AgainLikeFirst(setup, s, xs);
    Uart.TablesCompose(setup.target);
  }

  /** And after it, with the controller powered up and the port opened again, there may be another one. */
  lemma IdleAgain(setup: Setup, s: Sys, xs: seq<Stimulus>)
    requires Idle(s) && Run(setup, Begin(s, true, true), xs)
    ensures var t := After(setup, Begin(s, true, true), xs);
            t.driver.phase.Off? && t.registered ==> Idle(t.(world := t.world.(host := INITIAL, controller := INITIAL)))
  {
    AgainLikeFirst(setup, s, xs);
  }
}
