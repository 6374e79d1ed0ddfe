/** When SUCCESS goes with an address: the controller has been given the stack's, or reported its own. */
module BringUpAddress {
  import opened Hci
  import opened BringUp
  import opened BringUpRuns
  import opened Results

  /** The controller reports that it has no address. */
  predicate Blank(event: seq<byte>) {
    |event| >= BDADDR_AT + 6 && event[BDADDR_AT..BDADDR_AT + 6] == [0, 0, 0, 0, 0, 0]
  }

  /** The command that completes has written the stack's address, or read one the controller has. */
  predicate GivesAddress(s: Sys, x: Stimulus)
    requires Enabled(s, x)
  {
    x.Complete? && Status(x.event) == 0 &&
    var sentIn := s.world.pending.value.phase;
    sentIn.SetBdAddr? || (sentIn.ReadBdAddr? && !Blank(x.event))
  }

  /** An address command is called for, after the second baud update or a blank address, and refused. */
  predicate RefusesAddress(s: Sys, x: Stimulus)
    requires Enabled(s, x)
  {
    x.Complete? && Proceeds(s, x) && !x.answers.accept
    && (s.driver.phase.SetUartBaud2? || (s.driver.phase.ReadBdAddr? && Blank(x.event)))
  }

  predicate Addressed(setup: Setup, s: Sys, xs: seq<Stimulus>)
    requires Run(setup, s, xs)
    decreases |xs|
  {
    xs != [] && (GivesAddress(s, xs[0]) || Addressed(setup, Step(setup, s, xs[0]), xs[1..]))
  }

  predicate Refused(setup: Setup, s: Sys, xs: seq<Stimulus>)
    requires Run(setup, s, xs)
    decreases |xs|
  {
    xs != [] && (RefusesAddress(s, xs[0]) || Refused(setup, Step(setup, s, xs[0]), xs[1..]))
  }

  /** A completion that gives an address or has it refused ends the run; SUCCESS comes from one of the
      two, and always from the refusal. */
  lemma AddressStep(setup: Setup, s: Sys, x: Stimulus)
    requires Inv(s) && Enabled(s, x) && x.Complete?
    ensures var t := Step(setup, s, x);
            && (GivesAddress(s, x) || RefusesAddress(s, x) ==> t.driver.phase.Off?)
            && ((Success in t.world.reports ==> GivesAddress(s, x)) <==> !RefusesAddress(s, x))
  {
    SuccessIff(setup, s, x);
    StepSends(setup, s, x);
  }

  lemma {:induction false} OffStays(setup: Setup, s: Sys, xs: seq<Stimulus>)
    requires Inv(s) && s.driver.phase.Off? && Run(setup, s, xs)
    ensures After(setup, s, xs).world.reports == s.world.reports && !Addressed(setup, s, xs) && !Refused(setup, s, xs)
    decreases |xs|
  {
    if xs != [] {
      InvStep(setup, s, xs[0]);
      OffStays(setup, Step(setup, s, xs[0]), xs[1..]);
    }
  }

  lemma {:induction false} AddressRun(setup: Setup, s: Sys, xs: seq<Stimulus>)
    requires Inv(s) && !s.driver.phase.Off? && Run(setup, s, xs)
    ensures (Success in After(setup, s, xs).world.reports ==> Addressed(setup, s, xs)) <==> !Refused(setup, s, xs)
    decreases |xs|
  {
    if xs != [] {
      var t := Step(setup, s, xs[0]);
      InvStep(setup, s, xs[0]);
      if xs[0].Complete? {
        AddressStep(setup, s, xs[0]);
      }
      if t.driver.phase.Off? {
        OffStays(setup, t, xs[1..]);
      } else {
        AddressRun(setup, t, xs[1..]);
      }
    }
  }

  /** In every run SUCCESS means that the controller was given the stack's address or has reported one of
      its own, unless the address command was refused - after the second baud update, or after a blank
      address had been read. */
  lemma SuccessAddressedIff(setup: Setup, file: seq<byte>, xs: seq<Stimulus>)
    requires Run(setup, Launched(file), xs)
    ensures (Success in After(setup, Launched(file), xs).world.reports ==> Addressed(setup, Launched(file), xs))
            <==> !Refused(setup, Launched(file), xs)
  {
    InvLaunched(file);
    AddressRun(setup, Launched(file), xs);
  }
}
