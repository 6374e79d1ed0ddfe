/** upio.c as the library runs it: the cache array and the control block changed in place. */
module UpioDriver {
  import opened Upio
  import opened Results

  const BT_WAKE := 0
  const HOST_WAKE := 1
  const LPM_MODE := 2
  const MAX_COUNT := 3

  class UpioControl {
    const build: Build
    const upioState: array<Level>
    var btwriteActive: bool
    var timerCreated: bool
    var timerId: nat
    /** The ioctls, the values written and the live timers; the rest of it is not used. */
    ghost var world: State

    ghost predicate Valid()
      reads this
    {
      upioState.Length == MAX_COUNT
    }

    ghost function Snapshot(): State
      requires Valid()
      reads this, upioState
    {
      State(upioState[LPM_MODE], upioState[BT_WAKE], btwriteActive, timerCreated, timerId,
            world.ioctls, world.writes, world.modes, world.timers)
    }

    constructor (build: Build)
      ensures Valid() && fresh(upioState) && this.build == build
      ensures Snapshot() == State(Unknown, Unknown, false, false, 0, [], [], [], map[])
    {
      this.build := build;
      upioState := new Level[MAX_COUNT](_ => Unknown);
      btwriteActive, timerCreated, timerId := false, false, 0;
      world := State(Unknown, Unknown, false, false, 0, [], [], [], map[]);
    }

    method UpioInit()
      requires Valid()
      modifies this, upioState
      ensures Snapshot() == Init(old(Snapshot()))
    {
      for i := 0 to MAX_COUNT
        modifies upioState
        invariant forall j :: 0 <= j < i ==> upioState[j] == Unknown
      {
        upioState[i] := Unknown;
      }
      btwriteActive, timerCreated, timerId := false, false, 0;
    }

    method UpioCleanup()
      requires Valid()
      modifies `timerCreated, `world
      ensures Snapshot() == Cleanup(old(Snapshot()))
    {
      if timerCreated {
        world := world.(timers := world.timers - {timerId});
      }
      timerCreated := false;
    }

    method UpioStartStopTimer(action: Level)
      requires Valid()
      modifies `btwriteActive, `world
      ensures Snapshot() == StartStopTimer(old(Snapshot()), action)
    {
      if action == Assert {
        btwriteActive := true;
      }
      if timerId in world.timers {
        world := world.(timers := world.timers[timerId := action == Assert]);
      }
    }

    /** The timer thread: the timer has fired and is no longer armed. */
    method ProcBtwriteTimeout(answers: Answers)
      requires Valid() && timerId in world.timers && world.timers[timerId]
      modifies this, upioState
      ensures Snapshot() == Timeout(build, old(Snapshot()), old(timerId), answers)
    {
      world := world.(timers := world.timers[timerId := false]);
      btwriteActive := false;
      UpioSet(BT_WAKE, Deassert, answers);
    }

    method UpioSet(pio: nat, action: Level, answers: Answers)
      requires Valid()
      modifies this, upioState
      ensures pio == LPM_MODE ==> Snapshot() == SetLpm(build, old(Snapshot()), action, answers)
      ensures pio == BT_WAKE ==> Snapshot() == SetWake(build, old(Snapshot()), action, answers)
      ensures pio != LPM_MODE && pio != BT_WAKE ==> Snapshot() == old(Snapshot())
    {
      if pio == LPM_MODE {
        if upioState[LPM_MODE] == action {
          return;
        }
        upioState[LPM_MODE] := action;
        if build.Proc? {
          if !answers.opens {
            return;
          }
          var buffer := Deassert;
          if action == Assert {
            buffer := Assert;
          } else if timerCreated {
            world := world.(timers := world.timers - {timerId});
            timerCreated := false;
          }
          if answers.writes {
            world := world.(modes := world.modes + [buffer]);
            if action == Assert && !timerCreated && answers.timer.Some? {
              timerId := answers.timer.value;
              world := world.(timers := world.timers[timerId := false]);
              timerCreated := true;
            }
          }
        }
      } else if pio == BT_WAKE {
        if upioState[BT_WAKE] == action && (!build.Proc? || btwriteActive) {
          return;
        }
        upioState[BT_WAKE] := action;
        if build.Ioctl? {
          world := world.(ioctls := world.ioctls + [if action == Assert then Assert else Deassert]);
        } else if build.Proc? {
          if action == Deassert && !build.notifyDeassert {
            return;
          }
          if !answers.opens {
            return;
          }
          var buffer := if build.notifyDeassert && action == Deassert then Deassert else Assert;
          if answers.writes {
            world := world.(writes := world.writes + [buffer]);
            UpioStartStopTimer(action);
          }
          if build.notifyDeassert {
            btwriteActive := true;
          }
        }
      }
    }
  }
}
