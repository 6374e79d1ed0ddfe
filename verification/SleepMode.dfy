/** Low-power mode requests: hw_lpm_enable and its completion callback, over the UPIO control. */
module SleepMode {
  import opened Hci
  import opened Buffers
  import opened Stream
  import Upio
  import opened UpioDriver
  import opened Results

  const ZEROS: seq<byte> := [0, 0, 0, 0, 0, 0, 0, 0, 0, 0, 0, 0]

  type Bytes12 = s: seq<byte> | |s| == 12 witness ZEROS

  /** hw_lpm_enable calls and lpm_cb calls so far, and the sleep-mode commands in flight by buffer. */
  datatype Requests = Requests(calls: nat, reports: seq<Outcome>, flights: map<nat, seq<byte>>, buffers: Ledger)

  datatype State = State(requests: Requests, upio: Upio.State)

  datatype Answers = Answers(alloc: bool, accept: bool, upio: Upio.Answers)

  function SleepPacket(params: Bytes12, on: bool): seq<byte> {
    Packet(WRITE_SLEEP_MODE, if on then params else ZEROS)
  }

  function Refused(r: Requests): Requests {
    r.(reports := r.reports + [Fail])
  }

  /** hw_lpm_enable.  The wake-up lines are switched before the command is sent, whether or not it is
      accepted. */
  function Enable(build: Upio.Build, params: Bytes12, s: State, on: bool, answers: Answers): State {
    var r := s.requests.(calls := s.requests.calls + 1);
    if !answers.alloc then s.(requests := Refused(r))
    else
      var id := r.buffers.next;
      var l := r.buffers.Acquire();
      var upio := Upio.SetLpm(build, s.upio, if on then Upio.Assert else Upio.Deassert, answers.upio);
      if answers.accept
      then State(r.(buffers := l.HandOver(id, Stack), flights := r.flights[id := SleepPacket(params, on)]), upio)
      else State(Refused(r.(buffers := l.HandOver(id, Freed))), upio)
  }

  /** hw_lpm_ctrl_cback on the event that completes the command in buffer `id`. */
  function Complete(s: State, id: nat, event: seq<byte>): State
    requires id in s.requests.flights && |event| > STATUS_AT
  {
    var r := s.requests;
    s.(requests := r.(flights := r.flights - {id}, buffers := r.buffers.Acquire().HandOver(r.buffers.next, Freed),
                      reports := r.reports + [if Status(event) == 0 then Success else Fail]))
  }

  datatype Stimulus = Request(on: bool, answers: Answers) | Completion(id: nat, event: seq<byte>)
                    | Other(upio: Upio.Stimulus)

  predicate Enabled(s: State, x: Stimulus) {
    match x
    case Request(_, answers) => Upio.Possible(s.upio, answers.upio)
    case Completion(id, event) => id in s.requests.flights && |event| > STATUS_AT && Opcode(event) == WRITE_SLEEP_MODE
    case Other(y) => Upio.Enabled(s.upio, y)
  }

  function Step(build: Upio.Build, params: Bytes12, s: State, x: Stimulus): State
    requires Enabled(s, x)
  {
    match x
    case Request(on, answers) => Enable(build, params, s, on, answers)
    case Completion(id, event) => Complete(s, id, event)
    case Other(y) => s.(upio := Upio.Step(build, s.upio, y))
  }

  predicate Run(build: Upio.Build, params: Bytes12, s: State, xs: seq<Stimulus>)
    decreases |xs|
  {
    xs == [] || (Enabled(s, xs[0]) && Run(build, params, Step(build, params, s, xs[0]), xs[1..]))
  }

  function After(build: Upio.Build, params: Bytes12, s: State, xs: seq<Stimulus>): State
    requires Run(build, params, s, xs)
    decreases |xs|
  {
    if xs == [] then s else After(build, params, Step(build, params, s, xs[0]), xs[1..])
  }

  /** The command that asks the controller to sleep with the given parameters, or with none not to. */
  predicate SleepBytes(p: seq<byte>, params: Bytes12, on: bool) {
    p == [0x27, 0xFC, 12] + if on then params else [0, 0, 0, 0, 0, 0, 0, 0, 0, 0, 0, 0]
  }

  /** Every call has been reported once or has its command in flight; no buffer is kept, and every
      command in flight is one of the two, well formed and in a buffer of the stack's. */
  ghost predicate RequestsInv(params: Bytes12, r: Requests) {
    && r.calls == |r.reports| + |r.flights| && r.buffers.Settled()
    && forall id :: id in r.flights ==>
         && id in r.buffers.owner && r.buffers.owner[id] == Stack
         && WellFormed(WRITE_SLEEP_MODE, r.flights[id])
         && (SleepBytes(r.flights[id], params, true) || SleepBytes(r.flights[id], params, false))
  }

  ghost predicate Conserved(params: Bytes12, s: State) {
    RequestsInv(params, s.requests) && Upio.TimerInv(s.upio)
  }

  lemma SleepSpelled(params: Bytes12, on: bool)
    ensures SleepBytes(SleepPacket(params, on), params, on) && WellFormed(WRITE_SLEEP_MODE, SleepPacket(params, on))
  {
  }

  /** An accepted request puts exactly one command in flight: the parameters to turn sleep mode on, zeros
      to turn it off.  As soon as there is a buffer, low-power mode is asserted exactly when it is
      turned on. */
  lemma RequestSends(build: Upio.Build, params: Bytes12, s: State, on: bool, answers: Answers)
    requires RequestsInv(params, s.requests)
    ensures var t := Enable(build, params, s, on, answers);
            var id := s.requests.buffers.next;
            && id !in s.requests.flights
            && (if answers.alloc && answers.accept
                then && id in t.requests.flights && SleepBytes(t.requests.flights[id], params, on)
                     && t.requests.flights - {id} == s.requests.flights
                else t.requests.flights == s.requests.flights)
            && (answers.alloc ==> t.upio.lpm == if on then Upio.Assert else Upio.Deassert)
            && (!answers.alloc ==> t.upio == s.upio)
  {
    SleepSpelled(params, on);
    LevelSet(build, s.upio, if on then Upio.Assert else Upio.Deassert, answers.upio);
    assert s.requests.buffers.next !in s.requests.buffers.owner;
  }

  lemma LevelSet(build: Upio.Build, s: Upio.State, action: Upio.Level, answers: Upio.Answers)
    ensures Upio.SetLpm(build, s, action, answers).lpm == action
  {
  }

  lemma RequestsKept(build: Upio.Build, params: Bytes12, s: State, on: bool, answers: Answers)
    requires RequestsInv(params, s.requests)
    ensures RequestsInv(params, Enable(build, params, s, on, answers).requests)
  {
    var l := s.requests.buffers;
    PassThrough(l, Stack);
    PassThrough(l, Freed);
    assert l.next !in l.owner;
    SleepSpelled(params, on);
  }

  lemma EnableKeeps(build: Upio.Build, params: Bytes12, s: State, on: bool, answers: Answers)
    requires Conserved(params, s) && Upio.Possible(s.upio, answers.upio)
    ensures Conserved(params, Enable(build, params, s, on, answers))
  {
    RequestsKept(build, params, s, on, answers);
    Upio.TimerStep(build, s.upio, Upio.Lpm(if on then Upio.Assert else Upio.Deassert, answers.upio));
  }

  lemma CompleteKeeps(params: Bytes12, s: State, id: nat, event: seq<byte>)
    requires Conserved(params, s) && id in s.requests.flights && |event| > STATUS_AT
    ensures Conserved(params, Complete(s, id, event))
  {
    PassThrough(s.requests.buffers, Freed);
    assert |s.requests.flights - {id}| == |s.requests.flights| - 1;
  }

  lemma ConservedStep(build: Upio.Build, params: Bytes12, s: State, x: Stimulus)
    requires Conserved(params, s) && Enabled(s, x)
    ensures Conserved(params, Step(build, params, s, x))
  {
    match x
    case Request(on, answers) => EnableKeeps(build, params, s, on, answers);
    case Completion(id, event) => CompleteKeeps(params, s, id, event);
    case Other(y) => Upio.TimerStep(build, s.upio, y);
  }

  lemma {:induction false} ConservedRun(build: Upio.Build, params: Bytes12, s: State, xs: seq<Stimulus>)
    requires Conserved(params, s) && Run(build, params, s, xs)
    ensures Conserved(params, After(build, params, s, xs))
    decreases |xs|
  {
    if xs != [] {
      ConservedStep(build, params, s, xs[0]);
      ConservedRun(build, params, Step(build, params, s, xs[0]), xs[1..]);
    }
  }

  /** Completions with status 0. */
  function Completed(xs: seq<Stimulus>): nat {
    if xs == [] then 0
    else
      var x := xs[0];
      Completed(xs[1..]) + if x.Completion? && |x.event| > STATUS_AT && Status(x.event) == 0 then 1 else 0
  }

  /** lpm_cb is told SUCCESS exactly as often as a sleep-mode command completed with status 0. */
  lemma {:induction false} SuccessesReported(build: Upio.Build, params: Bytes12, s: State, xs: seq<Stimulus>)
    requires Run(build, params, s, xs)
    ensures multiset(After(build, params, s, xs).requests.reports)[Success]
            == multiset(s.requests.reports)[Success] + Completed(xs)
    decreases |xs|
  {
    if xs != [] {
      SuccessesReported(build, params, Step(build, params, s, xs[0]), xs[1..]);
    }
  }

  /** hw_lpm_enable with the request bookkeeping around it. */
  class LpmControl {
    const params: Bytes12
    const upio: UpioControl
    ghost var requests: Requests

    ghost predicate Valid()
      reads this, upio
    {
      upio.Valid()
    }

    ghost function Snapshot(): State
      requires Valid()
      reads this, upio, upio.upioState
    {
      State(requests, upio.Snapshot())
    }

    constructor (params: Bytes12, upio: UpioControl)
      requires upio.Valid()
      ensures Valid() && this.upio == upio && this.params == params && requests == Requests(0, [], map[], EMPTY)
    {
      this.params, this.upio := params, upio;
      requests := Requests(0, [], map[], EMPTY);
    }

    /** TRUE exactly when the result is still to come through the completion callback; otherwise it has
        been reported already, as FAIL. */
    method HwLpmEnable(turnOn: bool, answers: Answers) returns (ret: bool)
      requires Valid()
      modifies this, upio, upio.upioState
      ensures Snapshot() == Enable(upio.build, params, old(Snapshot()), turnOn, answers)
      ensures ret ==>
                var id := old(requests.buffers.next);
                id in requests.flights && SleepBytes(requests.flights[id], params, turnOn)
      ensures ret <==> requests.reports == old(requests.reports)
      ensures !ret ==> requests.reports == old(requests.reports) + [Fail] && requests.flights == old(requests.flights)
    {
      ret := false;
      requests := requests.(calls := requests.calls + 1);
      if answers.alloc {
        ghost var id := requests.buffers.next;
        requests := requests.(buffers := requests.buffers.Acquire());
        var buf := new byte[PREAMBLE + 12];
        var p := Put(buf, 0, Le16(WRITE_SLEEP_MODE));
        p := Put(buf, p, [12]);
        if turnOn {
          p := Put(buf, p, params);
          upio.UpioSet(LPM_MODE, Upio.Assert, answers.upio);
        } else {
          p := Put(buf, p, ZEROS);
          upio.UpioSet(LPM_MODE, Upio.Deassert, answers.upio);
        }
        assert buf[..p] == SleepPacket(params, turnOn);
        SleepSpelled(params, turnOn);
        ret := answers.accept;
        if ret {
          requests := requests.(buffers := requests.buffers.HandOver(id, Stack),
                                flights := requests.flights[id := buf[..p]]);
        } else {
          requests := requests.(buffers := requests.buffers.HandOver(id, Freed));
        }
      }
      if !ret {
        requests := Refused(requests);
      }
    }

    method HwLpmCtrlCback(ghost id: nat, event: seq<byte>)
      requires Valid() && id in requests.flights && |event| > STATUS_AT
      modifies `requests
      ensures Snapshot() == Complete(old(Snapshot()), id, event)
    {
      var status := if Status(event) == 0 then Success else Fail;
      ghost var eventBuffer := requests.buffers.next;
      requests := requests.(flights := requests.flights - {id}, buffers := requests.buffers.Acquire());
      requests := requests.(reports := requests.reports + [status]);
      requests := requests.(buffers := requests.buffers.HandOver(eventBuffer, Freed));
    }
  }
}
