/** The payment terminal (process_payment.py): the request line the Arduino sends when a card
    is presented, the parking fee, the settlement of the plate's latest unpaid session and
    the reply written back, and the polling loop. The settlement is a function over `Tables`
    that also returns the replies it writes; the class `PaymentTerminal` keeps the ledger and
    the written replies and its methods are proved to follow those functions. */
module Payment {
  import opened Text
  import opened Ledger
  import opened Hardware

  /** RATE_PER_HOUR, in RWF. */
  const RatePerHour: int := 500

  /** Header line the Arduino prints in RFID payment mode; it is never a request. */
  const PaymentHeader := "PAYMENT MODE RFID"

  /** A parsed request: the plate and the card balance. */
  datatype Request = Request(plate: string, balance: nat)

  // ---------------------------------------------------------------- the request line

  /** `parse_arduino_data(line)` (process_payment.py:27-57), given the line `main` has
      already stripped: no header, exactly two comma-separated parts, and at least one digit
      in the second. The balance is the value of the digits of the second part in order, any
      other character (a sign included) being dropped; the plate is not validated. */
  function ParsePaymentLine(line: string): Option<Request> {
    if Contains(line, PaymentHeader) then None
    else
      var parts := Split(Strip(line), ',');
      if |parts| != 2 then None
      else
        var digits := FilterDigits(parts[1]);
        if digits == [] then None else Some(Request(Strip(parts[0]), DigitsValue(digits)))
  }

  /** A request is parsed exactly from a line without the header that has a single comma and
      a digit after it; every other line is rejected. */
  lemma ParsePaymentLineMeans(line: string)
    ensures ParsePaymentLine(line).Some? ==>
              !Contains(line, PaymentHeader) && multiset(Strip(line))[','] == 1
              && exists a: string, b: string ::
                   Strip(line) == a + [','] + b && ',' !in a && ',' !in b && FilterDigits(b) != []
                   && ParsePaymentLine(line).value == Request(Strip(a), DigitsValue(FilterDigits(b)))
    ensures ParsePaymentLine(line).None? ==>
              Contains(line, PaymentHeader) || multiset(Strip(line))[','] != 1
              || exists a: string, b: string :: Strip(line) == a + [','] + b && ',' !in b && FilterDigits(b) == []
  {
    if !Contains(line, PaymentHeader) {
      var s := Strip(line);
      var parts := Split(s, ',');
      SplitCount(s, ',');
      SplitParts(s, ',');
      if |parts| == 2 {
        SplitTwo(s, ',');
        var a, b := parts[0], parts[1];
        assert s == a + [','] + b && ',' !in a && ',' !in b;
        assert ParsePaymentLine(line)
            == if FilterDigits(b) == [] then None else Some(Request(Strip(a), DigitsValue(FilterDigits(b))));
      }
    }
  }

  /** A character that can appear in a plate as the Arduino prints it. */
  predicate PlateChar(c: char) {
    !IsSpace(c) && c != ','
  }

  /** A non-empty field of plate characters: no whitespace, no comma. */
  predicate PlainField(s: string) {
    s != [] && forall c | c in s :: PlateChar(c)
  }

  /** A line of two plain fields around a comma is already stripped and is not the header. */
  lemma PlainLine(plate: string, field: string)
    requires PlainField(plate) && PlainField(field)
    ensures var line := plate + [','] + field;
            Strip(line) == line && Strip(plate) == plate && !Contains(line, PaymentHeader)
  {
    var line := plate + [','] + field;
    assert line[0] == plate[0] && plate[0] in plate;
    assert line[|line| - 1] == field[|field| - 1] && field[|field| - 1] in field;
    assert plate[|plate| - 1] in plate;
    StripUnpadded(line);
    StripUnpadded(plate);
    assert PaymentHeader[7] == ' ';
    NotContainsMissingChar(line, PaymentHeader, 7);
  }

  /** A line made of a plate, a comma and a balance field, both plain, is read as that plate
      and the value of the field's digits. */
  lemma ParseRequestLine(plate: string, field: string)
    requires PlainField(plate) && PlainField(field) && FilterDigits(field) != []
    ensures ParsePaymentLine(plate + [','] + field) == Some(Request(plate, DigitsValue(FilterDigits(field))))
  {
    var line := plate + [','] + field;
    PlainLine(plate, field);
    assert ',' !in plate && ',' !in field;
    SplitAtComma(plate, field);
    ParseOfTwoParts(line, plate, field);
  }

  /** Proof step: a comma between two comma-free fields splits the line into those fields. */
  lemma SplitAtComma(a: string, b: string)
    requires ',' !in a && ',' !in b
    ensures Split(a + [','] + b, ',') == [a, b]
  {
    SplitAfterPart(a, ',', b);
    SplitNoSeparator(b, ',');
  }

  /** Proof step: a line without the header that splits into two parts is read from them. */
  lemma ParseOfTwoParts(line: string, a: string, b: string)
    requires !Contains(line, PaymentHeader) && Split(Strip(line), ',') == [a, b]
    ensures ParsePaymentLine(line) == if FilterDigits(b) == [] then None else Some(Request(Strip(a), DigitsValue(FilterDigits(b))))
  {
  }

  /** The line `plate + "," + str(balance)` is parsed back to that plate and balance. */
  lemma ParsePaymentLineRoundTrip(plate: string, balance: nat)
    requires PlainField(plate)
    ensures ParsePaymentLine(plate + [','] + NatToDecimal(balance)) == Some(Request(plate, balance))
  {
    var d := NatToDecimal(balance);
    assert forall i :: 0 <= i < |d| ==> IsDigit(d[i]);
    assert PlainField(d);
    DecimalRoundTrip(balance);
    assert FilterDigits(d) == d;
    ParseRequestLine(plate, d);
  }

  /** A minus sign before the balance is dropped with the other non-digits: the request is
      read as the positive balance. */
  lemma NegativeBalanceReadAsPositive(plate: string, balance: nat)
    requires PlainField(plate)
    ensures ParsePaymentLine(plate + [','] + ['-'] + NatToDecimal(balance)) == Some(Request(plate, balance))
  {
    var d := NatToDecimal(balance);
    var field := ['-'] + d;
    assert plate + [','] + ['-'] + d == plate + [','] + field;
    assert forall i :: 0 <= i < |d| ==> IsDigit(d[i]);
    assert PlainField(field);
    FilterDigitsAppend(['-'], d);
    assert FilterDigits(['-']) == [];
    assert FilterDigits(d) == d;
    assert FilterDigits(field) == [] + d == d;
    DecimalRoundTrip(balance);
    ParseRequestLine(plate, field);
    assert ParsePaymentLine(plate + [','] + field) == Some(Request(plate, balance));
  }

  // ---------------------------------------------------------------- the fee

  /** `calculate_parking_fee(minutes)` (process_payment.py:59-68): `minutes * 500 / 60`
      rounded to the nearest integer, exactly. Python's `round` sends halves to the even
      neighbour, but at this rate no amount is a half (`FeeIsNearest`), so rounding halves up
      is the same. */
  function Fee(minutes: int): int {
    (2 * RatePerHour * minutes + 60) / 120
  }

  /** The fee is the integer nearest to 25/3 per minute: within a third of it, strictly
      nearer than any other integer, so there is never a tie to break. It also has the closed
      form `(25m + 1) / 3`. */
  lemma FeeIsNearest(m: int, g: int)
    ensures -1 <= 3 * Fee(m) - 25 * m <= 1
    ensures Fee(m) == (25 * m + 1) / 3
    ensures g != Fee(m) ==> 3 * Fee(m) - 25 * m < 3 * g - 25 * m || 3 * g - 25 * m < 3 * Fee(m) - 25 * m
    ensures g != Fee(m) ==> 2 <= 3 * g - 25 * m || 3 * g - 25 * m <= -2
  {
    var f := Fee(m);
    assert 120 * f <= 1000 * m + 60 < 120 * f + 120;
    var q := (25 * m + 1) / 3;
    assert 3 * q <= 25 * m + 1 < 3 * q + 3;
  }

  /** A longer stay never costs less. */
  lemma FeeMonotone(m1: int, m2: int)
    requires m1 <= m2
    ensures Fee(m1) <= Fee(m2)
  {
    var f1, f2 := Fee(m1), Fee(m2);
    assert 120 * f1 <= 1000 * m1 + 60 < 120 * f1 + 120;
    assert 120 * f2 <= 1000 * m2 + 60 < 120 * f2 + 120;
  }

  /** Whole hours cost exactly the hourly rate, and a minute costs 8 (8.33 rounded). */
  lemma FeeExamples(hours: int)
    ensures Fee(60 * hours) == RatePerHour * hours
    ensures Fee(0) == 0 && Fee(1) == 8 && Fee(60) == 500 && Fee(90) == 750
  {
    assert 2 * RatePerHour * (60 * hours) + 60 == 120 * (RatePerHour * hours) + 60;
  }

  // ---------------------------------------------------------------- settlement

  /** The ledger after `process_payment`, whether it returned True, and what it wrote. */
  datatype Settlement = Settlement(db: Tables, ok: bool, out: seq<Command>)

  /** `process_payment(plate, balance, ser)` (process_payment.py:70-119) at clock reading
      `now`. The lookup of the latest unpaid session can fail (`f.readFails`, None) and so can
      the update (`f.writeFails`, False). */
  function ProcessPayment(db: Tables, req: Request, now: int, f: Faults, connected: bool): Settlement {
    var entry := if f.readFails then None else GetLastUnpaidEntry(db.sessions, req.plate);
    match entry
    case None => Settlement(db, false, Emit(connected, [InvalidReply]))
    case Some(e) =>
      var due := Fee(GetParkingDuration(e.entry, now));
      if req.balance >= due then
        var (db1, ok) := PaymentUpdated(db, req.plate, e.entry, Some(due), now, f.writeFails);
        if ok then Settlement(db1, true, Emit(connected, [NewBalance(req.balance - due)]))
        else Settlement(db1, false, Emit(connected, [InvalidReply]))
      else Settlement(db, false, Emit(connected, [InvalidReply]))
  }

  /** The fee charged for a session entered at `entry` and settled at `now`. */
  function Due(entry: int, now: int): int {
    Fee(GetParkingDuration(entry, now))
  }

  /** The outcomes of `process_payment`. Exactly one reply is written per call (when a port is
      attached). The call succeeds exactly when the plate has an unpaid session, the balance
      covers the fee for the whole minutes since its entry, and neither database call fails;
      then the plate's latest unpaid session `k` is paid with the fee as amount, and
      the new, non-negative balance is written. Otherwise "I" is written and the ledger is
      unchanged. */
  lemma ProcessPaymentCases(db: Tables, req: Request, now: int, f: Faults, connected: bool)
    requires ValidTables(db)
    ensures var r := ProcessPayment(db, req, now, f, connected);
            && |r.out| == (if connected then 1 else 0)
            && (r.ok <==> !f.readFails && !f.writeFails && HasSelected(db.sessions, req.plate, true)
                          && req.balance >= Due(GetLastUnpaidEntry(db.sessions, req.plate).value.entry, now))
            && (!r.ok ==> r.db == db && r.out == Emit(connected, [InvalidReply]))
            && (r.ok ==>
                  var k := LatestIndex(db.sessions, req.plate, true).value;
                  && IsLatestAt(db.sessions, req.plate, true, k)
                  && var due := Due(db.sessions[k].entry, now);
                  && 0 <= req.balance - due
                  && r.out == Emit(connected, [NewBalance(req.balance - due)])
                  && r.db == db.(sessions := PayUpdate(db.sessions, req.plate, db.sessions[k].entry, Some(due), now))
                  && r.db.sessions[k] == db.sessions[k].(paid := true, payTime := Some(now), amount := Some(due)))
  {
    var r := ProcessPayment(db, req, now, f, connected);
    LastUnpaidMeans(db.sessions, req.plate);
    if !f.readFails && HasSelected(db.sessions, req.plate, true) {
      var k := LatestIndex(db.sessions, req.plate, true).value;
      assert IsLatestAt(db.sessions, req.plate, true, k);
      assert GetLastUnpaidEntry(db.sessions, req.plate) == Some(db.sessions[k]);
      var due := Due(db.sessions[k].entry, now);
      if req.balance >= due {
        SettledByUpdate(db, req, now, f, connected);
        if !f.writeFails {
          assert Payable(db.sessions[k], req.plate, db.sessions[k].entry);
          var u := PayUpdate(db.sessions, req.plate, db.sessions[k].entry, Some(due), now);
          assert u[k] == db.sessions[k].(paid := true, payTime := Some(now), amount := Some(due));
          assert HasPayable(db.sessions, req.plate, db.sessions[k].entry);
        }
      } else {
        assert r == Settlement(db, false, Emit(connected, [InvalidReply]));
      }
    } else {
      assert r == Settlement(db, false, Emit(connected, [InvalidReply]));
    }
  }

  /** Every settlement writes one reply when a port is attached: the new balance or "I". */
  lemma ProcessPaymentReplies(db: Tables, req: Request, now: int, f: Faults, connected: bool)
    ensures var out := ProcessPayment(db, req, now, f, connected).out;
            && |out| == (if connected then 1 else 0)
            && forall i :: 0 <= i < |out| ==> out[i].NewBalance? || out[i].InvalidReply?
  {
    var entry := if f.readFails then None else GetLastUnpaidEntry(db.sessions, req.plate);
    var out := ProcessPayment(db, req, now, f, connected).out;
    if entry.Some? && req.balance >= Due(entry.value.entry, now) {
      var ok := PaymentUpdated(db, req.plate, entry.value.entry, Some(Due(entry.value.entry, now)), now, f.writeFails).1;
      assert out == Emit(connected, [if ok then NewBalance(req.balance - Due(entry.value.entry, now)) else InvalidReply]);
    } else {
      assert out == Emit(connected, [InvalidReply]);
    }
  }

  /** Settling keeps the ledger well formed and only lets it evolve; it never records an exit
      nor opens a session. */
  lemma ProcessPaymentKeeps(db: Tables, req: Request, now: int, f: Faults, connected: bool)
    requires ValidTables(db)
    ensures var u := ProcessPayment(db, req, now, f, connected).db;
            && ValidTables(u) && Evolves(db, u) && NoExitRecorded(db.sessions, u.sessions)
            && (ExitsPaid(db.sessions) ==> ExitsPaid(u.sessions))
            && (AtMostOneOpen(db.sessions) ==> AtMostOneOpen(u.sessions))
  {
    SettledLedger(db, req, now, f, connected);
    var e := if f.readFails then None else GetLastUnpaidEntry(db.sessions, req.plate);
    if e.Some? && req.balance >= Due(e.value.entry, now) {
      PaymentUpdatedKeeps(db, req.plate, e.value.entry, Some(Due(e.value.entry, now)), now, f.writeFails);
    } else {
      EvolvesReflexive(db);
    }
  }

  /** Proof step: the ledger a settlement leaves is the update's when a session was found and
      the balance covers the fee, and the old one otherwise. */
  lemma SettledLedger(db: Tables, req: Request, now: int, f: Faults, connected: bool)
    ensures var e := if f.readFails then None else GetLastUnpaidEntry(db.sessions, req.plate);
            ProcessPayment(db, req, now, f, connected).db
              == if e.Some? && req.balance >= Due(e.value.entry, now)
                 then PaymentUpdated(db, req.plate, e.value.entry, Some(Due(e.value.entry, now)), now, f.writeFails).0
                 else db
  {
  }

  /** Proof step: when a session is found and the balance covers its fee, the settlement is the
      update's ledger and outcome, with the reply that outcome calls for. */
  lemma SettledByUpdate(db: Tables, req: Request, now: int, f: Faults, connected: bool)
    requires !f.readFails && GetLastUnpaidEntry(db.sessions, req.plate).Some?
    requires req.balance >= Due(GetLastUnpaidEntry(db.sessions, req.plate).value.entry, now)
    ensures var e := GetLastUnpaidEntry(db.sessions, req.plate).value.entry;
            var u := PaymentUpdated(db, req.plate, e, Some(Due(e, now)), now, f.writeFails);
            ProcessPayment(db, req, now, f, connected)
              == Settlement(u.0, u.1, Emit(connected, [if u.1 then NewBalance(req.balance - Due(e, now)) else InvalidReply]))
  { }

  // ---------------------------------------------------------------- the loop

  /** The request `main` settles for one line read from the port: the stripped line must
      parse and name a non-empty plate (process_payment.py:134-139). */
  function ReadRequest(line: Observation): Option<Request> {
    var r := ParsePaymentLine(Strip(line.text));
    if r.Some? && r.value.plate != [] then r else None
  }

  /** What `main` does with one line: a request is settled, anything else is ignored. */
  function HandleLine(db: Tables, line: Observation, connected: bool): Settlement {
    match ReadRequest(line)
    case None => Settlement(db, false, [])
    case Some(req) => ProcessPayment(db, req, line.now, line.faults, connected)
  }

  /** One line gets exactly one reply, a new balance or "I", when it is a request and a port is
      attached, and none otherwise. */
  lemma HandleLineReplies(db: Tables, line: Observation, connected: bool)
    ensures var r := HandleLine(db, line, connected);
            && |r.out| == (if connected && ReadRequest(line).Some? then 1 else 0)
            && forall i :: 0 <= i < |r.out| ==> r.out[i].NewBalance? || r.out[i].InvalidReply?
  {
    var req := ReadRequest(line);
    if req.Some? {
      ProcessPaymentReplies(db, req.value, line.now, line.faults, connected);
      assert HandleLine(db, line, connected) == ProcessPayment(db, req.value, line.now, line.faults, connected);
    }
  }

  /** Handling a line keeps the ledger's invariants. */
  lemma HandleLineKeeps(db: Tables, line: Observation, connected: bool)
    requires ValidTables(db)
    ensures var u := HandleLine(db, line, connected).db;
            && ValidTables(u) && Evolves(db, u) && NoExitRecorded(db.sessions, u.sessions)
            && (ExitsPaid(db.sessions) ==> ExitsPaid(u.sessions))
            && (AtMostOneOpen(db.sessions) ==> AtMostOneOpen(u.sessions))
  {
    var req := ReadRequest(line);
    if req.Some? {
      ProcessPaymentKeeps(db, req.value, line.now, line.faults, connected);
      assert HandleLine(db, line, connected) == ProcessPayment(db, req.value, line.now, line.faults, connected);
    } else {
      assert HandleLine(db, line, connected).db == db;
    }
  }

  /** `main` over the lines the port delivers. Without a port the first `arduino.in_waiting`
      raises, the exception is caught and the loop ends before reading anything. */
  function Serve(db: Tables, lines: seq<Observation>, connected: bool): (Tables, seq<Command>)
    decreases |lines|
  {
    if !connected || lines == [] then (db, [])
    else
      var r := HandleLine(db, lines[0], connected);
      var rest := Serve(r.db, lines[1..], connected);
      (rest.0, r.out + rest.1)
  }

  lemma ServeStep(db: Tables, lines: seq<Observation>, connected: bool)
    requires connected && lines != []
    ensures var r := HandleLine(db, lines[0], connected);
            var rest := Serve(r.db, lines[1..], connected);
            Serve(db, lines, connected) == (rest.0, r.out + rest.1)
  {
  }

  /** How many of the lines are requests. */
  function CountRequests(lines: seq<Observation>): nat {
    if lines == [] then 0 else (if ReadRequest(lines[0]).Some? then 1 else 0) + CountRequests(lines[1..])
  }

  /** The terminal answers every request with exactly one reply, a new balance or "I", and
      writes nothing for other lines. */
  lemma {:induction false} ServeRepliesOncePerRequest(db: Tables, lines: seq<Observation>)
    decreases |lines|
    ensures var out := Serve(db, lines, true).1;
            && |out| == CountRequests(lines)
            && forall i :: 0 <= i < |out| ==> out[i].NewBalance? || out[i].InvalidReply?
  {
    if lines != [] {
      var r := HandleLine(db, lines[0], true);
      HandleLineReplies(db, lines[0], true);
      ServeRepliesOncePerRequest(r.db, lines[1..]);
      var rest := Serve(r.db, lines[1..], true).1;
      ServeStep(db, lines, true);
      assert forall i :: 0 <= i < |rest| ==> (r.out + rest)[|r.out| + i] == rest[i];
    }
  }

  /** Serving keeps the ledger well formed, never records an exit and never opens a session. */
  lemma {:induction false} ServeKeeps(db: Tables, lines: seq<Observation>, connected: bool)
    requires ValidTables(db)
    decreases |lines|
    ensures var u := Serve(db, lines, connected).0;
            && ValidTables(u) && Evolves(db, u) && NoExitRecorded(db.sessions, u.sessions)
            && (ExitsPaid(db.sessions) ==> ExitsPaid(u.sessions))
            && (AtMostOneOpen(db.sessions) ==> AtMostOneOpen(u.sessions))
  {
    if connected && lines != [] {
      var r := HandleLine(db, lines[0], connected);
      HandleLineKeeps(db, lines[0], connected);
      ServeKeeps(r.db, lines[1..], connected);
      ServeStep(db, lines, connected);
      EvolvesTransitive(db, r.db, Serve(r.db, lines[1..], connected).0);
    }
  }

  // ---------------------------------------------------------------- the process

  /** The payment process: the ledger, whether an Arduino is attached, and what was written. */
  class PaymentTerminal {
    const db: Database
    const connected: bool
    var written: seq<Command>

    constructor (db: Database, connected: bool)
      requires db.Valid()
      ensures this.db == db && this.connected == connected && written == []
    {
      this.db := db;
      this.connected := connected;
      written := [];
    }

    method Settle(req: Request, now: int, f: Faults) returns (ok: bool)
      requires db.Valid()
      modifies this, db
      ensures db.Valid()
      ensures var r := ProcessPayment(old(db.State()), req, now, f, connected);
              db.State() == r.db && ok == r.ok && written == old(written) + r.out
    {
      ghost var start := db.State();
      var entry := if f.readFails then None else GetLastUnpaidEntry(db.sessions, req.plate);
      var reply := InvalidReply;
      ok := false;
      if entry.Some? {
        var due := Fee(GetParkingDuration(entry.value.entry, now));
        if req.balance >= due {
          SettledByUpdate(start, req, now, f, connected);
          ok := db.UpdatePaymentStatus(req.plate, entry.value.entry, Some(due), now, f.writeFails);
          if ok {
            reply := NewBalance(req.balance - due);
          }
        } else {
          assert ProcessPayment(start, req, now, f, connected) == Settlement(start, false, Emit(connected, [InvalidReply]));
        }
      } else {
        assert ProcessPayment(start, req, now, f, connected) == Settlement(start, false, Emit(connected, [InvalidReply]));
      }
      written := written + Emit(connected, [reply]);
    }

    /** `main`: reads and answers lines until the input runs out. */
    method Operate(lines: seq<Observation>)
      requires db.Valid()
      modifies this, db
      ensures db.Valid()
      ensures var r := Serve(old(db.State()), lines, connected);
              db.State() == r.0 && written == old(written) + r.1
    {
      if !connected {
        return;
      }
      var k := 0;
      ghost var out: seq<Command> := [];
      assert lines[k..] == lines;
      assert out + Serve(db.State(), lines[k..], connected).1 == Serve(db.State(), lines[k..], connected).1;
      while k < |lines|
        invariant 0 <= k <= |lines| && db.Valid()
        invariant written == old(written) + out
        invariant Serve(old(db.State()), lines, connected)
                    == (Serve(db.State(), lines[k..], connected).0, out + Serve(db.State(), lines[k..], connected).1)
      {
        ghost var before := db.State();
        ghost var r := HandleLine(before, lines[k], connected);
        ghost var rest := Serve(r.db, lines[k + 1..], connected);
        assert lines[k..][1..] == lines[k + 1..];
        assert Serve(before, lines[k..], connected) == (rest.0, r.out + rest.1);
        var req := ReadRequest(lines[k]);
        if req.Some? {
          assert r == ProcessPayment(before, req.value, lines[k].now, lines[k].faults, connected);
          var _ := Settle(req.value, lines[k].now, lines[k].faults);
        } else {
          assert r == Settlement(before, false, []);
        }
        Reassociate(out, r.out, rest.1);
        Reassociate(old(written), out, r.out);
        out := out + r.out;
        k := k + 1;
      }
      assert lines[k..] == [];
    }
  }
}
