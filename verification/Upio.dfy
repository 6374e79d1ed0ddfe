/** LPM and BT_WAKE control: the state cache, the proc nodes and the btwrite hold timer. */
module Upio {
  import opened Results

  datatype Level = Unknown | Deassert | Assert

  /** How BT_WAKE is driven: not at all, by UART ioctl, or through proc nodes. */
  datatype Build = Plain | Ioctl | Proc(notifyDeassert: bool)

  /** The caches and lpm_proc_cb, and around them the ioctls issued, the values written to the btwrite and
      to the LPM node, and the live kernel timers, each armed or not. */
  datatype State = State(lpm: Level, wake: Level, active: bool, created: bool, timerId: nat,
                         ioctls: seq<Level>, writes: seq<Level>, modes: seq<Level>, timers: map<nat, bool>)

  /** Whether the proc node opens and takes the write, and the id of a new timer. */
  datatype Answers = Answers(opens: bool, writes: bool, timer: Option<nat>)

  /** upio_init clears the control block and forgets a live timer. */
  function Init(s: State): State {
    s.(lpm := Unknown, wake := Unknown, active := false, created := false, timerId := 0)
  }

  function DeleteTimer(s: State): State {
    s.(timers := s.timers - {s.timerId}, created := false)
  }

  function Cleanup(s: State): State {
    if s.created then DeleteTimer(s) else s
  }

  /** A timer id handed out by the kernel is not live already. */
  predicate Possible(s: State, answers: Answers) {
    answers.timer.Some? ==> answers.timer.value !in s.timers
  }

  /** upio_set(UPIO_LPM_MODE, ...). */
  function SetLpm(build: Build, s: State, action: Level, answers: Answers): State {
    if s.lpm == action then s
    else
      var s1 := s.(lpm := action);
      if !build.Proc? || !answers.opens then s1
      else
        var s2 := if action != Assert then Cleanup(s1) else s1;
        if !answers.writes then s2
        else
          var s3 := s2.(modes := s2.modes + [if action == Assert then Assert else Deassert]);
          if action == Assert && !s3.created && answers.timer.Some? then
            s3.(created := true, timerId := answers.timer.value, timers := s3.timers[answers.timer.value := false])
          else s3
  }

  /** upio_start_stop_timer: setting a timer that is not live has no effect. */
  function StartStopTimer(s: State, action: Level): State {
    var s1 := s.(active := s.active || action == Assert);
    if s1.timerId in s1.timers then s1.(timers := s1.timers[s1.timerId := action == Assert]) else s1
  }

  /** upio_set(UPIO_BT_WAKE, ...). */
  function SetWake(build: Build, s: State, action: Level, answers: Answers): State {
    if s.wake == action && (build.Proc? ==> s.active) then s
    else
      var s1 := s.(wake := action);
      match build
      case Plain => s1
      case Ioctl => s1.(ioctls := s1.ioctls + [if action == Assert then Assert else Deassert])
      case Proc(notify) =>
        if (action == Deassert && !notify) || !answers.opens then s1
        else
          var written := if notify && action == Deassert then Deassert else Assert;
          var s2 := if answers.writes then StartStopTimer(s1.(writes := s1.writes + [written]), action) else s1;
          s2.(active := s2.active || notify)
  }

  /** proc_btwrite_timeout: a timer that fires is no longer armed. */
  function Timeout(build: Build, s: State, id: nat, answers: Answers): State {
    SetWake(build, s.(timers := s.timers[id := false], active := false), Deassert, answers)
  }

  // ----- runs -----

  datatype Stimulus = Lpm(action: Level, answers: Answers) | Wake(action: Level, answers: Answers)
                    | Fires(id: nat, answers: Answers) | Restart

  /** Requests assert or de-assert; only an armed timer fires; init comes after cleanup. */
  predicate Enabled(s: State, x: Stimulus) {
    match x
    case Lpm(action, answers) => !action.Unknown? && Possible(s, answers)
    case Wake(action, _) => !action.Unknown?
    case Fires(id, _) => id in s.timers && s.timers[id]
    case Restart => true
  }

  function Step(build: Build, s: State, x: Stimulus): State
    requires Enabled(s, x)
  {
    match x
    case Lpm(action, answers) => SetLpm(build, s, action, answers)
    case Wake(action, answers) => SetWake(build, s, action, answers)
    case Fires(id, answers) => Timeout(build, s, id, answers)
    case Restart => Init(Cleanup(s))
  }

  predicate Run(build: Build, s: State, xs: seq<Stimulus>)
    decreases |xs|
  {
    xs == [] || (Enabled(s, xs[0]) && Run(build, Step(build, s, xs[0]), xs[1..]))
  }

  function After(build: Build, s: State, xs: seq<Stimulus>): State
    requires Run(build, s, xs)
    decreases |xs|
  {
    if xs == [] then s else After(build, Step(build, s, xs[0]), xs[1..])
  }

  // ----- the hold timer -----

  /** The flag tells whether there is a live timer, which is then the only one; an armed timer means
      that the btwrite assertion is active. */
  predicate TimerInv(s: State) {
    && s.timers.Keys == (if s.created then {s.timerId} else {})
    && (s.created && s.timers[s.timerId] ==> s.active)
  }

  /** Initialising keeps track of the timers exactly when none is live, that is after a cleanup. */
  lemma InitIff(s: State)
    ensures TimerInv(Init(s)) <==> s.timers == map[]
    ensures TimerInv(s) ==> Cleanup(s).timers == map[] && TimerInv(Init(Cleanup(s)))
  {
    assert s.timers.Keys == {} <==> s.timers == map[];
    if TimerInv(s) {
      assert Cleanup(s).timers.Keys == {};
    }
  }

  lemma WakeKeepsTimer(build: Build, s: State, action: Level, answers: Answers)
    requires TimerInv(s)
    ensures TimerInv(SetWake(build, s, action, answers))
    ensures SetWake(build, s, action, answers).timers.Keys == s.timers.Keys
  {
  }

  lemma TimerStep(build: Build, s: State, x: Stimulus)
    requires TimerInv(s) && Enabled(s, x)
    ensures TimerInv(Step(build, s, x))
    ensures s.timers == map[] && !(x.Lpm? && x.action == Assert) ==> Step(build, s, x).timers == map[]
  {
    match x
    case Lpm(action, answers) =>
    case Wake(action, answers) => WakeKeepsTimer(build, s, action, answers);
    case Fires(id, answers) =>
      WakeKeepsTimer(build, s.(timers := s.timers[id := false], active := false), Deassert, answers);
    case Restart => InitIff(s);
  }

  /** In every run the flag and the live timers agree, and from a state without a timer none fires
      until low-power mode is asserted again. */
  lemma {:induction false} TimerRun(build: Build, s: State, xs: seq<Stimulus>)
    requires TimerInv(s) && Run(build, s, xs)
    ensures TimerInv(After(build, s, xs))
    ensures s.timers == map[] && (forall x :: x in xs ==> !(x.Lpm? && x.action == Assert)) ==>
              After(build, s, xs).timers == map[] && forall x :: x in xs ==> !x.Fires?
    decreases |xs|
  {
    if xs != [] {
      TimerStep(build, s, xs[0]);
      TimerRun(build, Step(build, s, xs[0]), xs[1..]);
      assert forall x :: x in xs <==> x == xs[0] || x in xs[1..];
    }
  }

  /** De-asserting low-power mode removes the timer exactly when the request is not already cached and
      the node opens (or there was none): a node that fails to open leaves the timer running. */
  lemma LpmOffIff(build: Build, s: State, answers: Answers)
    requires TimerInv(s)
    ensures SetLpm(build, s, Deassert, answers).timers == map[] <==>
              s.timers == map[] || (build.Proc? && s.lpm != Deassert && answers.opens)
  {
    assert s.timers - {s.timerId} == map[];
  }

  /** Asserting it makes sure of a timer exactly when the request is not already cached, the node opens and
      takes the value, and the kernel has a timer to give (or there was one). */
  lemma LpmOnIff(build: Build, s: State, answers: Answers)
    requires TimerInv(s)
    ensures SetLpm(build, s, Assert, answers).timers != map[] <==>
              || s.timers != map[]
              || (build.Proc? && s.lpm != Assert && answers.opens && answers.writes && answers.timer.Some?)
  {
    assert s.timers != map[] <==> s.timers.Keys != {};
    var t := SetLpm(build, s, Assert, answers);
    assert t.created ==> t.timerId in t.timers;
  }

  /** A BT_WAKE request touches the timer exactly when it writes the btwrite node: the timer is armed by an
      assertion and disarmed by a de-assertion. */
  lemma WakeArmsIff(build: Build, s: State, action: Level, answers: Answers)
    requires TimerInv(s) && s.created && !action.Unknown?
    ensures var t := SetWake(build, s, action, answers);
            && t.timerId == s.timerId && t.timerId in t.timers
            && (t.writes != s.writes ==> (t.timers[t.timerId] <==> action == Assert))
            && (t.writes == s.writes ==> t.timers == s.timers)
  {
    assert s.timerId in s.timers.Keys;
  }

  /** A timeout takes BT_WAKE down.  With notification that is written to the btwrite node, if it can be;
      without, nothing is written, and the assertion is over. */
  lemma TimeoutDrops(notify: bool, s: State, id: nat, answers: Answers)
    requires TimerInv(s) && Enabled(s, Fires(id, answers))
    ensures var t := Timeout(Proc(notify), s, id, answers);
            && t.wake == Deassert && t.timers == map[id := false]
            && t.writes == s.writes + (if notify && answers.opens && answers.writes then [Deassert] else [])
            && (t.active <==> notify && answers.opens)
  {
    assert id in s.timers.Keys;
    assert s.timers[id := false] == map[id := false];
  }

  /** Once low-power mode is off no timeout fires until it is asserted again, provided the request was
      not already cached and the node opened. */
  lemma SilentOnceOff(build: Build, s: State, answers: Answers, xs: seq<Stimulus>)
    requires TimerInv(s) && build.Proc? && s.lpm != Deassert && answers.opens
    requires Run(build, SetLpm(build, s, Deassert, answers), xs)
    requires forall x :: x in xs ==> !(x.Lpm? && x.action == Assert)
    ensures forall x :: x in xs ==> !x.Fires?
  {
    LpmOffIff(build, s, answers);
    TimerRun(build, SetLpm(build, s, Deassert, answers), xs);
  }

  /** After a failed opening an armed timer does fire, and asking again is of no use: the request is
      cached. */
  lemma FiresAfterFailedOpen(build: Build, s: State, answers: Answers, again: Answers)
    requires TimerInv(s) && build.Proc? && s.created && s.timers[s.timerId] && !answers.opens
    ensures var t := SetLpm(build, s, Deassert, answers);
            && SetLpm(build, t, Deassert, again) == t
            && Run(build, t, [Fires(s.timerId, again)])
  {
    var t := SetLpm(build, s, Deassert, answers);
    assert Enabled(t, Fires(s.timerId, again));
  }

  /** Such a state is reached from a fresh start: low-power mode on, BT_WAKE asserted, low-power mode off
      with a node that does not open - and the timeout still fires. */
  lemma FiresFromInit(s: State, notifyDeassert: bool, id: nat)
    requires s.timers == map[]
    ensures var yes := Answers(true, true, Some(id));
            Run(Proc(notifyDeassert), Init(s),
                [Lpm(Assert, yes), Wake(Assert, yes), Lpm(Deassert, Answers(false, true, None)), Fires(id, yes)])
  {
    var yes, no := Answers(true, true, Some(id)), Answers(false, true, None);
    var build := Proc(notifyDeassert);
    var s1 := Step(build, Init(s), Lpm(Assert, yes));
    var s2 := Step(build, s1, Wake(Assert, yes));
    FiresAfterFailedOpen(build, s2, no, yes);
    var x3, x4 := Lpm(Deassert, no), Fires(id, yes);
    assert [x3, x4][1..] == [x4];
    assert Run(build, s2, [x3, x4]);
    assert [Wake(Assert, yes), x3, x4][1..] == [x3, x4];
    assert Run(build, s1, [Wake(Assert, yes), x3, x4]);
    assert [Lpm(Assert, yes), Wake(Assert, yes), x3, x4][1..] == [Wake(Assert, yes), x3, x4];
  }

  // ----- the wake cache -----

  /** The sequence without consecutive repeats. */
  function Deduped(requests: seq<Level>): seq<Level> {
    if |requests| <= 1 then requests
    else
      var n := |requests| - 1;
      Deduped(requests[..n]) + if requests[n] == requests[n - 1] then [] else [requests[n]]
  }

  function WakeAll(build: Build, s: State, requests: seq<Level>, answers: Answers): State {
    if requests == [] then s
    else SetWake(build, WakeAll(build, s, requests[..|requests| - 1], answers), requests[|requests| - 1], answers)
  }

  function LpmAll(build: Build, s: State, requests: seq<Level>, answers: Answers): State {
    if requests == [] then s
    else SetLpm(build, LpmAll(build, s, requests[..|requests| - 1], answers), requests[|requests| - 1], answers)
  }

  function Last(requests: seq<Level>): Level {
    if requests == [] then Unknown else requests[|requests| - 1]
  }

  lemma DedupedOneMore(requests: seq<Level>)
    requires requests != [] && Last(requests) != Unknown
    ensures var before := requests[..|requests| - 1];
            Deduped(requests) == Deduped(before) + if Last(before) == Last(requests) then [] else [Last(requests)]
  {
    if |requests| == 1 {
      assert requests == [requests[0]];
    }
  }

  lemma {:induction false} DedupedEnds(requests: seq<Level>)
    requires requests != []
    ensures Deduped(requests) != [] && Last(Deduped(requests)) == Last(requests)
  {
    if |requests| > 1 {
      DedupedEnds(requests[..|requests| - 1]);
    }
  }

  lemma WakeOne(s: State, action: Level, answers: Answers)
    requires !action.Unknown?
    ensures var t := SetWake(Ioctl, s, action, answers);
            t.wake == action && t.ioctls == s.ioctls + if s.wake == action then [] else [action]
  {
  }

  lemma {:induction false} WakeRun(s: State, requests: seq<Level>, answers: Answers)
    requires forall r :: r in requests ==> !r.Unknown?
    ensures var t := WakeAll(Ioctl, Init(s), requests, answers);
            t.ioctls == s.ioctls + Deduped(requests) && t.wake == Last(requests)
    decreases |requests|
  {
    if requests != [] {
      var n := |requests| - 1;
      WakeRun(s, requests[..n], answers);
      WakeOne(WakeAll(Ioctl, Init(s), requests[..n], answers), requests[n], answers);
      DedupedOneMore(requests);
    }
  }

  /** In the ioctl build the driver sees the requests with consecutive repeats removed, so it is left at
      the level asked for last, which is also what is cached. */
  lemma {:induction false} WakeRefines(s: State, requests: seq<Level>, answers: Answers)
    requires forall r :: r in requests ==> !r.Unknown?
    ensures var t := WakeAll(Ioctl, Init(s), requests, answers);
            && t.ioctls == s.ioctls + Deduped(requests) && t.wake == Last(requests)
            && (requests != [] ==> Last(t.ioctls) == Last(requests))
  {
    WakeRun(s, requests, answers);
    if requests != [] {
      DedupedEnds(requests);
    }
  }

  function Asserts(levels: seq<Level>): seq<Level> {
    if levels == [] then []
    else Asserts(levels[..|levels| - 1]) + if Last(levels) == Assert then [Assert] else []
  }

  lemma AssertsOneMore(levels: seq<Level>, level: Level)
    ensures Asserts(levels + [level]) == Asserts(levels) + if level == Assert then [Assert] else []
  {
    assert (levels + [level])[..|levels|] == levels;
  }

  /** What the btwrite node should see of the requests: all changes, or only the assertions. */
  function Seen(notify: bool, requests: seq<Level>): seq<Level> {
    if notify then Deduped(requests) else Asserts(Deduped(requests))
  }

  lemma SeenOneMore(notify: bool, requests: seq<Level>)
    requires requests != [] && Last(requests) != Unknown
    ensures var before := requests[..|requests| - 1];
            var shown := Last(before) != Last(requests) && (notify || Last(requests) == Assert);
            Seen(notify, requests) == Seen(notify, before) + if shown then [Last(requests)] else []
  {
    var before := Deduped(requests[..|requests| - 1]);
    DedupedOneMore(requests);
    AssertsOneMore(before, Last(requests));
    assert before + [] == before;
  }

  /** The btwrite assertion is active once a value has been written. */
  predicate ActiveFor(notify: bool, requests: seq<Level>) {
    if notify then requests != [] else Assert in requests
  }

  lemma ActiveOneMore(notify: bool, requests: seq<Level>)
    requires requests != [] && forall r :: r in requests ==> !r.Unknown?
    ensures var before := requests[..|requests| - 1];
            && (ActiveFor(notify, requests) <==> ActiveFor(notify, before) || notify || Last(requests) == Assert)
            && (Last(before) == Last(requests) && (notify || Last(requests) == Assert) ==> ActiveFor(notify, before))
  {
    var n := |requests| - 1;
    assert Assert in requests <==> Assert in requests[..n] || requests[n] == Assert;
    assert n > 0 && requests[n - 1] == Assert ==> requests[..n][n - 1] == Assert;
  }

  lemma BtwriteOne(notify: bool, s: State, action: Level, answers: Answers)
    requires !action.Unknown? && answers.opens && answers.writes
    requires s.wake == action && (notify || action == Assert) ==> s.active
    ensures var t := SetWake(Proc(notify), s, action, answers);
            && t.wake == action && (t.active <==> s.active || notify || action == Assert)
            && t.writes == s.writes + if s.wake != action && (notify || action == Assert) then [action] else []
  {
  }

  /** In the proc build, with nodes that open and take what is written and no timeout in between, the
      btwrite node sees the requests with consecutive repeats removed - without notification, only the
      assertions among them. */
  lemma {:induction false} BtwriteRefines(notify: bool, s: State, requests: seq<Level>, answers: Answers)
    requires forall r :: r in requests ==> !r.Unknown?
    requires answers.opens && answers.writes
    ensures var t := WakeAll(Proc(notify), Init(s), requests, answers);
            && t.writes == s.writes + Seen(notify, requests)
            && t.wake == Last(requests) && (t.active <==> ActiveFor(notify, requests))
    decreases |requests|
  {
    if requests != [] {
      var n := |requests| - 1;
      BtwriteRefines(notify, s, requests[..n], answers);
      ActiveOneMore(notify, requests);
      BtwriteOne(notify, WakeAll(Proc(notify), Init(s), requests[..n], answers), requests[n], answers);
      SeenOneMore(notify, requests);
    }
  }

  /** And so does the LPM node of the requests for low-power mode. */
  lemma {:induction false} LpmRefines(notify: bool, s: State, requests: seq<Level>, answers: Answers)
    requires forall r :: r in requests ==> !r.Unknown?
    requires answers.opens && answers.writes
    ensures var t := LpmAll(Proc(notify), Init(s), requests, answers);
            t.modes == s.modes + Deduped(requests) && t.lpm == Last(requests)
    decreases |requests|
  {
    if requests != [] {
      var n := |requests| - 1;
      LpmRefines(notify, s, requests[..n], answers);
      LpmOne(notify, LpmAll(Proc(notify), Init(s), requests[..n], answers), requests[n], answers);
      DedupedOneMore(requests);
    }
  }

  lemma LpmOne(notify: bool, s: State, action: Level, answers: Answers)
    requires !action.Unknown? && answers.opens && answers.writes
    ensures var t := SetLpm(Proc(notify), s, action, answers);
            t.lpm == action && t.modes == s.modes + if s.lpm == action then [] else [action]
  {
  }
}
