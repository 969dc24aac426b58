/** The devices of a lane: what it reads from the camera and the proximity sensor, and what
    it writes to the Arduino serial port. Each `Command` is one `write` call; its bytes on the
    wire are given by `Wire`. */
module Hardware {
  import opened Text
  import opened Ledger

  datatype Command =
    | GateOpen              // b'1'
    | GateClose             // b'0'; also silences the buzzer
    | Buzz                  // b'2'
    | NewBalance(n: nat)    // the card balance after a settled payment, one line
    | InvalidReply          // "I\n": a payment request was rejected
  {
    /** The bytes written for the command: `str(n)` and a newline for a balance, "I" and a
        newline for a rejection, and one character for each gate and buzzer command. */
    function Wire(): (w: string)
      ensures w != [] && ((this.NewBalance? || this.InvalidReply?) <==> w[|w| - 1] == '\n')
      ensures this.NewBalance? ==>
                |w| >= 2 && AllDigits(w[..|w| - 1]) && DigitsValue(w[..|w| - 1]) == this.n
      ensures this.InvalidReply? ==> w[..|w| - 1] == "I"
      ensures !(this.NewBalance? || this.InvalidReply?) ==> |w| == 1
    {
      match this
      case GateOpen => "1"
      case GateClose => "0"
      case Buzz => "2"
      case NewBalance(n) =>
        var d := NatToDecimal(n);
        DecimalRoundTrip(n);
        assert (d + "\n")[..|d|] == d;
        d + "\n"
      case InvalidReply => "I\n"
    }
  }

  /** Different commands are written as different bytes, so the Arduino can tell every command
      and every balance apart. */
  lemma WireInjective(a: Command, b: Command)
    requires a.Wire() == b.Wire()
    ensures a == b
  {
  }

  /** Concatenation of command sequences is associative. */
  lemma Reassociate(a: seq<Command>, b: seq<Command>, c: seq<Command>)
    ensures (a + b) + c == a + (b + c)
  {
  }

  /** Open, (dwell), close: written after an admitted entry or a camera-path exit. */
  const GateCycle: seq<Command> := [GateOpen, GateClose]

  /** Three buzz/stop pulses: written on a duplicate entry or an unauthorized exit. */
  const BuzzThrice: seq<Command> := [Buzz, GateClose, Buzz, GateClose, Buzz, GateClose]

  /** Every write is guarded by `if arduino:` / `if ser:`: without a port nothing is written. */
  function Emit(connected: bool, cmds: seq<Command>): seq<Command>
  {
    if connected then cmds else []
  }

  /** One text read, by camera OCR or from the serial port, with the clock reading (whole
      seconds) at which it is handled and the outcome of the database calls it triggers. */
  datatype Observation = Observation(text: string, now: int, faults: Faults)

  /** A grabbed frame: whether the proximity sensor reported a car within 50 cm, and the
      OCR text of each detected plate box, in detection order. */
  datatype Frame = Frame(near: bool, boxes: seq<Observation>)
}
