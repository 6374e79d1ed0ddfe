/** The controller bring-up protocol as a transition function: what one Command Complete event makes
    the library do, given what the outside world answers during that call.

    Each phase is one row of a table: effects on the UART and the patch file, then at most two commands
    to try in order with the phase each one leads to, then the result to report if none is accepted. */
module BringUp {
  import opened Hci
  import opened Buffers
  import opened Results
  import Uart

  type Address = a: seq<byte> | |a| == 6 witness [0, 0, 0, 0, 0, 0]

  /** UART_TARGET_BAUD_RATE, USE_CONTROLLER_BDADDR and the address handed over by the stack. */
  datatype Setup = Setup(target: u32, otpAddress: bool, address: Address)

  datatype Phase = Off | Start | SetUartClock | SetUartBaud1 | ReadLocalName | DlMinidriver | DlFwPatch
                 | SetUartBaud2 | SetBdAddr | ReadBdAddr

  /** An accepted command: the phase it was sent in and both ends' line speeds at that moment. */
  datatype Command = Command(phase: Phase, opcode: u16, packet: seq<byte>, host: nat, controller: nat)

  /** What the driver remembers between events (bt_hw_cfg_cb_t). */
  datatype Driver = Driver(phase: Phase, fd: int, baud2: bool)

  /** Everything outside the driver. */
  datatype World = World(
    file: seq<byte>, pos: nat, open: Option<int>, opens: nat, closes: nat,
    host: nat, controller: nat,
    pending: Option<Command>, commands: seq<Command>,
    reports: seq<Outcome>, buffers: Ledger, fault: bool)

  datatype Sys = Sys(registered: bool, driver: Driver, world: World)

  /** The world's answers during one call: allocation, the first and second send, the patch search and
      open, and the two reads (None is an error). */
  datatype Answers = Answers(alloc: bool, accept: bool, acceptRetry: bool, found: bool, fd: int,
                             header: Option<seq<byte>>, payload: Option<seq<byte>>)

  type PatchRecord = r: seq<byte> | |r| >= PREAMBLE witness [0, 0, 0]

  /** The commands of the bring-up sequence; a patch record carries its bytes. */
  datatype Order = Reset | UartClock | Baud(again: bool) | Name | Minidriver | WriteAddress | ReadAddress
                 | Patch(record: PatchRecord)

  datatype Reaction = Reaction(driver: Driver, world: World, first: Option<Order>, second: Option<Order>,
                               otherwise: Outcome)

  // ----- effects on the world -----

  function SetBaud(w: World, symbol: nat): World {
    w.(host := Uart.HostSpeed(symbol))
  }

  /** Opening while a file is open, or closing anything but the open file, is a fault. */
  function OpenFile(w: World, fd: int): World {
    w.(pos := 0, open := Some(fd), opens := w.opens + 1, fault := w.fault || w.open.Some?)
  }

  function CloseFile(w: World, fd: int): World {
    w.(open := None, closes := w.closes + 1, fault := w.fault || w.open != Some(fd))
  }

  function Consume(w: World, bytes: Option<seq<byte>>): World {
    w.(pos := w.pos + if bytes.Some? then |bytes.value| else 0)
  }

  /** xmit_cb: an accepted command's buffer goes to the stack and its completion becomes due.
      Sending while another completion is due is a fault. */
  function Transmit(w: World, phase: Phase, opcode: u16, packet: seq<byte>, buffer: nat, accept: bool): World {
    if !accept then w
    else
      var command := Command(phase, opcode, packet, w.host, w.controller);
      w.(pending := Some(command), commands := w.commands + [command],
      buffers := w.buffers.HandOver(buffer, Stack), fault := w.fault || w.pending.Some?)
  }

  function Free(w: World, buffer: nat): World {
    w.(buffers := w.buffers.HandOver(buffer, Freed))
  }

  function Report(w: World, outcome: Outcome): World {
    w.(reports := w.reports + [outcome])
  }

  // ----- the commands the driver builds -----

  /** The phase a command leads to once it is accepted. */
  function PhaseOf(o: Order): Phase {
    match o
    case Reset => Start
    case UartClock => SetUartClock
    case Baud(again) => if again then SetUartBaud2 else SetUartBaud1
    case Name => ReadLocalName
    case Minidriver => DlMinidriver
    case WriteAddress => SetBdAddr
    case ReadAddress => ReadBdAddr
    case Patch(_) => DlFwPatch
  }

  /** The opcode handed to xmit_cb; for a patch record it is read from the record. */
  function OpcodeOf(o: Order): u16
  {
    match o
    case Reset => RESET
    case UartClock => WRITE_UART_CLOCK_SETTING
    case Baud(_) => UPDATE_BAUDRATE
    case Name => READ_LOCAL_NAME
    case Minidriver => DOWNLOAD_MINIDRV
    case WriteAddress => WRITE_BD_ADDR
    case ReadAddress => READ_LOCAL_BDADDR
    case Patch(record) => ReadLe16(record, 0)
  }

  function PacketOf(setup: Setup, o: Order): seq<byte>
  {
    match o
    case UartClock => Packet(WRITE_UART_CLOCK_SETTING, [1])
    case Baud(_) => Packet(UPDATE_BAUDRATE, [0, 0] + Le32(setup.target))
    case WriteAddress =>
      var a := setup.address;
      Packet(WRITE_BD_ADDR, [a[5], a[4], a[3], a[2], a[1], a[0]])
    case Patch(record) => record
    case _ => Packet(OpcodeOf(o), [])
  }

  // ----- one event -----

  /** The event is long enough for the fields read in this phase. */
  predicate Readable(d: Driver, event: seq<byte>) {
    |event| > STATUS_AT && (d.phase.ReadBdAddr? && Status(event) == 0 ==> |event| >= BDADDR_AT + 6)
  }

  predicate Downloading(p: Phase) {
    p.DlMinidriver? || p.DlFwPatch?
  }

  /** A read returns an error or a run of bytes at the file position, no longer than asked for. */
  predicate ReadFits(file: seq<byte>, pos: nat, got: Option<seq<byte>>, asked: nat) {
    got.Some? ==> |got.value| <= asked && pos + |got.value| <= |file| && got.value == file[pos..pos + |got.value|]
  }

  predicate Possible(s: Sys, answers: Answers) {
    && answers.fd >= -1
    && (Downloading(s.driver.phase) ==>
          && ReadFits(s.world.file, s.world.pos, answers.header, PREAMBLE)
          && (answers.header.Some? && |answers.header.value| == PREAMBLE ==>
                ReadFits(s.world.file, s.world.pos + PREAMBLE, answers.payload, answers.header.value[2])))
  }

  predicate FullHeader(answers: Answers) {
    answers.header.Some? && |answers.header.value| == PREAMBLE
  }

  /** A patch record goes out only after a complete header, a payload read without error, and an event
      that is not the completion of LAUNCH_RAM. */
  predicate SendsRecord(d: Driver, event: seq<byte>, answers: Answers)
    requires |event| > STATUS_AT
  {
    d.fd >= 0 && FullHeader(answers) && Opcode(event) != LAUNCH_RAM && answers.payload.Some?
  }

  function Record(answers: Answers): PatchRecord
    requires FullHeader(answers) && answers.payload.Some?
  {
    answers.header.value + answers.payload.value
  }

  function ReactDownload(d: Driver, w: World, event: seq<byte>, answers: Answers): Reaction
    requires |event| > STATUS_AT
  {
    if SendsRecord(d, event, answers) then
      Reaction(d.(phase := DlFwPatch), Consume(Consume(w, answers.header), answers.payload),
               Some(Patch(Record(answers))), None, Fail)
    else
      var w1 := if d.fd >= 0 then CloseFile(Consume(w, answers.header), d.fd) else w;
      Reaction(d.(fd := if d.fd >= 0 then -1 else d.fd, baud2 := true), SetBaud(w1, Uart.BAUD_115200),
               Some(Reset), None, Fail)
  }

  function ReactName(d: Driver, w: World, answers: Answers): Reaction {
    if !answers.found then Reaction(d, w, Some(WriteAddress), None, Fail)
    else if answers.fd == -1 then Reaction(d.(fd := -1), w, Some(WriteAddress), None, Fail)
    else Reaction(d.(fd := answers.fd), OpenFile(w, answers.fd), Some(Minidriver), Some(WriteAddress), Fail)
  }

  function React(setup: Setup, d: Driver, w: World, event: seq<byte>, answers: Answers): Reaction
    requires Readable(d, event) && Status(event) == 0
  {
    var targetBaud := Uart.LineSpeedToUserialBaud(setup.target);
    match d.phase
    case Off => Reaction(d, w, None, None, Fail)
    case Start => Reaction(d, w, Some(if setup.target > 3000000 then UartClock else Baud(d.baud2)), None, Fail)
    case SetUartClock => Reaction(d, w, Some(Baud(d.baud2)), None, Fail)
    case SetUartBaud1 => Reaction(d, SetBaud(w, targetBaud), Some(Name), None, Fail)
    case ReadLocalName => ReactName(d, w, answers)
    case DlMinidriver => ReactDownload(d, w, event, answers)
    case DlFwPatch => ReactDownload(d, w, event, answers)
    case SetUartBaud2 =>
      Reaction(d, SetBaud(w, targetBaud), Some(if setup.otpAddress then ReadAddress else WriteAddress), None, Success)
    case SetBdAddr => Reaction(d, w, None, None, Success)
    case ReadBdAddr =>
      var blank := event[BDADDR_AT..BDADDR_AT + 6] == [0, 0, 0, 0, 0, 0];
      Reaction(d, w, if blank then Some(WriteAddress) else None, None, Success)
  }

  /** The run is over: report if anybody listens, and close the patch file if it is open. */
  function Finish(s: Sys, outcome: Outcome): Sys {
    var w1 := if s.registered then Report(s.world, outcome) else s.world;
    s.(driver := s.driver.(phase := Off, fd := -1), world := if s.driver.fd != -1
                                                          then CloseFile(w1, s.driver.fd) else w1)
  }

  function Sent(setup: Setup, s: Sys, o: Order, buffer: nat): Sys
  {
    s.(driver := s.driver.(phase := PhaseOf(o)),
    world := Transmit(s.world, PhaseOf(o), OpcodeOf(o), PacketOf(setup, o), buffer, true))
  }

  function Chosen(r: Reaction, answers: Answers): Option<Order> {
    if r.first.Some? && answers.accept then r.first
    else if r.second.Some? && answers.acceptRetry then r.second
    else None
  }

  /** The first order that is accepted carries the run on; if there is none, the buffer is freed and
      the run is over. */
  function Conclude(setup: Setup, registered: bool, r: Reaction, buffer: nat, answers: Answers): Sys {
    var s := Sys(registered, r.driver, r.world);
    match Chosen(r, answers)
    case Some(o) => Sent(setup, s, o, buffer)
    case None => Finish(s.(world := Free(s.world, buffer)), r.otherwise)
  }

  /** hw_config_cback on a delivered event held in buffer `eventBuffer`.  A failed command, a missing
      callback table and a failed allocation all end the run. */
  function Handle(setup: Setup, s: Sys, event: seq<byte>, eventBuffer: nat, answers: Answers): Sys
    requires Readable(s.driver, event)
  {
    var s1 := if s.registered then s.(world := Free(s.world, eventBuffer)) else s;
    if Status(event) == 0 && s.registered && answers.alloc then
      var buffer := s1.world.buffers.next;
      var r := React(setup, s1.driver, s1.world.(buffers := s1.world.buffers.Acquire()), event, answers);
      Conclude(setup, s.registered, r, buffer, answers)
    else
      Finish(s1, Fail)
  }

  /** hw_config_start.  The result of the first send is not looked at. */
  function Begin(s: Sys, alloc: bool, accept: bool): Sys {
    var s1 := s.(driver := Driver(Off, -1, false));
    if !s.registered then s1
    else if !alloc then s1.(world := Report(s.world, Fail))
    else
      var w := s.world.(buffers := s.world.buffers.Acquire());
      s1.(driver := Driver(Start, -1, false),
          world := Transmit(w, Start, RESET, Packet(RESET, []), s.world.buffers.next, accept))
  }

  // ----- the controller and whole runs -----

  /** The controller's line speed once a command has completed successfully. */
  function SpeedAfter(speed: nat, opcode: u16, packet: seq<byte>): nat {
    if opcode == LAUNCH_RAM then Uart.DEFAULT_SPEED
    else if opcode == UPDATE_BAUDRATE && |packet| >= 9 then ReadLe32(packet, 5)
    else speed
  }

  /** The stack delivers the completion of the pending command in a buffer of its own. */
  function Deliver(w: World, event: seq<byte>): World
    requires w.pending.Some? && |event| > STATUS_AT
  {
    var c := w.pending.value;
    w.(pending := None, buffers := w.buffers.Acquire(),
    controller := if Status(event) == 0 then SpeedAfter(w.controller, c.opcode, c.packet) else w.controller)
  }

  datatype Stimulus = Complete(event: seq<byte>, answers: Answers) | Cleanup

  /** Every accepted command is completed by one event carrying its opcode; cleanup may come at any time. */
  predicate Enabled(s: Sys, x: Stimulus) {
    match x
    case Cleanup => s.registered
    case Complete(event, answers) =>
      s.world.pending.Some? && Readable(s.driver, event) && Opcode(event) == s.world.pending.value.opcode
        && Possible(s, answers)
  }

  function Step(setup: Setup, s: Sys, x: Stimulus): Sys
    requires Enabled(s, x)
  {
    match x
    case Cleanup => s.(registered := false)
    case Complete(event, answers) =>
      Handle(setup, s.(world := Deliver(s.world, event)), event, s.world.buffers.next, answers)
  }

  predicate Run(setup: Setup, s: Sys, xs: seq<Stimulus>)
    decreases |xs|
  {
    xs == [] || (Enabled(s, xs[0]) && Run(setup, Step(setup, s, xs[0]), xs[1..]))
  }

  function After(setup: Setup, s: Sys, xs: seq<Stimulus>): Sys
    requires Run(setup, s, xs)
    decreases |xs|
  {
    if xs == [] then s else After(setup, Step(setup, s, xs[0]), xs[1..])
  }

  /** A library with callbacks registered and a freshly opened serial port at 115200. */
  function Fresh(file: seq<byte>): Sys {
    Sys(true, Driver(Off, -1, false),
        World(file, 0, None, 0, 0, Uart.DEFAULT_SPEED, Uart.DEFAULT_SPEED, None, [], [], EMPTY, false))
  }

  /** A run begun by hw_config_start whose first send is accepted. */
  function Launched(file: seq<byte>): Sys {
    Begin(Fresh(file), true, true)
  }
}
