/** The two baud tables a line speed goes through on its way to the host's UART. */
module Uart {
  const BAUD_600 := 1
  const BAUD_1200 := 2
  const BAUD_9600 := 4
  const BAUD_19200 := 5
  const BAUD_57600 := 6
  const BAUD_115200 := 7
  const BAUD_230400 := 8
  const BAUD_460800 := 9
  const BAUD_921600 := 10
  const BAUD_1M := 11
  const BAUD_2M := 13
  const BAUD_3M := 14
  const BAUD_4M := 15

  const DEFAULT_SPEED := 115200

  function LineSpeedToUserialBaud(lineSpeed: nat): nat {
    if lineSpeed == 4000000 then BAUD_4M
    else if lineSpeed == 3000000 then BAUD_3M
    else if lineSpeed == 2000000 then BAUD_2M
    else if lineSpeed == 1000000 then BAUD_1M
    else if lineSpeed == 921600 then BAUD_921600
    else if lineSpeed == 460800 then BAUD_460800
    else if lineSpeed == 230400 then BAUD_230400
    else if lineSpeed == 115200 then BAUD_115200
    else if lineSpeed == 57600 then BAUD_57600
    else if lineSpeed == 19200 then BAUD_19200
    else if lineSpeed == 9600 then BAUD_9600
    else if lineSpeed == 1200 then BAUD_1200
    else if lineSpeed == 600 then BAUD_600
    else BAUD_115200
  }

  /** The termios speed for a USERIAL symbol, as bits per second, and whether the symbol is supported. */
  function UserialToTcioBaud(baud: nat): (bool, nat) {
    if baud == BAUD_115200 then (true, 115200)
    else if baud == BAUD_4M then (true, 4000000)
    else if baud == BAUD_3M then (true, 3000000)
    else if baud == BAUD_2M then (true, 2000000)
    else if baud == BAUD_1M then (true, 1000000)
    else if baud == BAUD_921600 then (true, 921600)
    else if baud == BAUD_460800 then (true, 460800)
    else if baud == BAUD_230400 then (true, 230400)
    else if baud == BAUD_57600 then (true, 57600)
    else if baud == BAUD_19200 then (true, 19200)
    else if baud == BAUD_9600 then (true, 9600)
    else if baud == BAUD_1200 then (true, 1200)
    else if baud == BAUD_600 then (true, 600)
    else (false, 115200)
  }

  /** The speed the host's UART runs at after being set to a USERIAL symbol. */
  function HostSpeed(baud: nat): nat {
    UserialToTcioBaud(baud).1
  }

  const SUPPORTED := {600, 1200, 9600, 19200, 57600, 115200, 230400, 460800, 921600, 1000000, 2000000, 3000000, 4000000}

  predicate Supported(lineSpeed: nat) {
    lineSpeed in SUPPORTED
  }

  /** Composing the tables gives back the line speed exactly when it is supported, never an
      unsupported symbol, and 115200 for everything else. */
  lemma TablesCompose(lineSpeed: nat)
    ensures UserialToTcioBaud(LineSpeedToUserialBaud(lineSpeed)).0
    ensures HostSpeed(LineSpeedToUserialBaud(lineSpeed)) == lineSpeed <==> Supported(lineSpeed)
    ensures !Supported(lineSpeed) ==> HostSpeed(LineSpeedToUserialBaud(lineSpeed)) == DEFAULT_SPEED
  {
  }
}
