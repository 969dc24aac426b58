/** The exit lane (car_exit.py): `process_exit`, the serial-line parser, and the main loop with
    its plate buffer, its 30-iteration cooldown after a refused exit and its gate and buzzer
    commands. The decisions are functions over a `Lane` value that also return the commands
    they write; the class `ExitGate` keeps the same state in fields and its methods are proved
    to follow those functions. */
module ExitLane {
  import opened Text
  import opened Plates
  import opened Ledger
  import opened Hardware

  /** Iterations skipped after a refused exit. */
  const Cooldown: nat := 30

  /** Header line the Arduino prints in RFID exit mode; it is never a plate. */
  const ExitHeader := "EXIT MODE RFID"

  const UnauthorizedExit := "UNAUTHORIZED_EXIT"

  function UnauthorizedMessage(plate: string): string {
    "Vehicle " + plate + " attempted to exit without payment"
  }

  /** What `process_exit` returns: False for a malformed plate or an unpaid session, True
      when the exit was recorded, and None (also falsy) when the plate was paid but recording
      the exit failed. */
  datatype Verdict = Malformed | Exited | Unauthorized | NotRecorded {
    predicate Truthy() { this.Exited? }
  }

  /** The ledger after `process_exit`, its verdict and the commands it wrote. */
  datatype Decision = Decision(db: Tables, verdict: Verdict, out: seq<Command>)

  /** The loop variables of the exit process, with the ledger. */
  datatype Lane = Lane(db: Tables, buffer: seq<string>, cooldown: nat)

  /** A lane after some processing, and the commands written meanwhile. */
  datatype Step = Step(lane: Lane, out: seq<Command>)

  /** The inputs of one loop iteration: a waiting serial line, the grabbed frame (None when
      the grab fails) and whether 'q' was pressed. */
  datatype Tick = Tick(serial: Option<Observation>, frame: Option<Frame>, quit: bool)

  /** Between iterations the buffer holds fewer than three valid "RA…" plates. */
  predicate LaneInv(s: Lane) {
    ValidTables(s.db) && |s.buffer| < Quorum && forall i :: 0 <= i < |s.buffer| ==> Buffered(s.buffer[i])
  }

  /** What every part of the loop preserves: the lane invariant, the way the ledger may
      change, no exit without payment, and at most one open session per plate. */
  predicate Keeps(s: Lane, r: Lane) {
    LaneInv(r) && Evolves(s.db, r.db)
    && (ExitsPaid(s.db.sessions) ==> ExitsPaid(r.db.sessions))
    && (AtMostOneOpen(s.db.sessions) ==> AtMostOneOpen(r.db.sessions))
  }

  lemma KeepsReflexive(s: Lane)
    requires LaneInv(s)
    ensures Keeps(s, s)
  {
  }

  lemma KeepsTransitive(s: Lane, r: Lane, q: Lane)
    requires Keeps(s, r) && Keeps(r, q)
    ensures Keeps(s, q)
  {
    EvolvesTransitive(s.db, r.db, q.db);
  }

  // ---------------------------------------------------------------- process_exit

  /** `process_exit(plate)` (car_exit.py:81-109). */
  function ExitDecision(db: Tables, plate: string, now: int, f: Faults, connected: bool): Decision {
    if !IsValidPlate(plate) then Decision(db, Malformed, [])
    else if !f.readFails && IsPaymentComplete(db.sessions, plate) then
      var (db1, ok) := ExitUpdated(db, plate, now, f.writeFails);
      if ok then Decision(db1, Exited, []) else Decision(db, NotRecorded, [])
    else
      var (db1, _) := AlertAdded(db, UnauthorizedExit, plate, UnauthorizedMessage(plate), now, f.writeFails);
      Decision(db1, Unauthorized, Emit(connected, BuzzThrice))
  }

  /** The four outcomes of `process_exit`: a malformed plate changes nothing; a paid plate is
      let out (its latest session gets the exit time, no alert, nothing written) unless the
      update fails, which changes nothing; an unpaid or unknown plate, or a failed payment
      lookup, adds one UNAUTHORIZED_EXIT alert, buzzes three times and keeps every session. */
  lemma ExitDecisionCases(db: Tables, plate: string, now: int, f: Faults, connected: bool)
    ensures var d := ExitDecision(db, plate, now, f, connected);
            && (!IsValidPlate(plate) <==> d.verdict == Malformed)
            && (d.verdict == Malformed ==> d == Decision(db, Malformed, []))
            && (d.verdict == NotRecorded ==> IsPaymentComplete(db.sessions, plate) && f.writeFails && d == Decision(db, NotRecorded, []))
            && (d.verdict == Exited ==>
                  IsPaymentComplete(db.sessions, plate) && d.out == []
                  && d.db == db.(sessions := ExitUpdate(db.sessions, plate, now)))
            && (d.verdict == Unauthorized ==>
                  (f.readFails || !IsPaymentComplete(db.sessions, plate))
                  && d.db == AlertAdded(db, UnauthorizedExit, plate, UnauthorizedMessage(plate), now, f.writeFails).0
                  && d.db.sessions == db.sessions && d.out == Emit(connected, BuzzThrice))
            && (IsValidPlate(plate) && !f.readFails ==>
                  (d.verdict == Unauthorized <==> !IsPaymentComplete(db.sessions, plate)))
            && (IsValidPlate(plate) && !f.readFails && !f.writeFails ==>
                  (d.verdict == Exited <==> IsPaymentComplete(db.sessions, plate)))
  {
    if IsValidPlate(plate) && !f.readFails && IsPaymentComplete(db.sessions, plate) {
      // a paid latest session exists, so the update finds a row
      assert HasSelected(db.sessions, plate, false);
    }
  }

  /** A plate let out gets no command from `process_exit` itself. */
  lemma ExitedWritesNothing(db: Tables, plate: string, now: int, f: Faults, connected: bool)
    ensures var d := ExitDecision(db, plate, now, f, connected);
            d.verdict.Truthy() ==> d.out == []
  {
  }

  /** `process_exit` keeps the ledger well formed, only lets out paid cars, and never opens
      a session. */
  lemma DecisionKeeps(db: Tables, plate: string, now: int, f: Faults, connected: bool)
    requires ValidTables(db)
    ensures var u := ExitDecision(db, plate, now, f, connected).db;
            && ValidTables(u) && Evolves(db, u) && |u.sessions| == |db.sessions|
            && (ExitsPaid(db.sessions) ==> ExitsPaid(u.sessions))
            && (AtMostOneOpen(db.sessions) ==> AtMostOneOpen(u.sessions))
  {
    var u := ExitDecision(db, plate, now, f, connected).db;
    if !IsValidPlate(plate) {
      assert u == db;
    } else if !f.readFails && IsPaymentComplete(db.sessions, plate) {
      ExitUpdatedKeeps(db, plate, now, f.writeFails);
      assert u == ExitUpdated(db, plate, now, f.writeFails).0 || u == db;
    } else {
      AlertAddedSpec(db, UnauthorizedExit, plate, UnauthorizedMessage(plate), now, f.writeFails);
      assert u == AlertAdded(db, UnauthorizedExit, plate, UnauthorizedMessage(plate), now, f.writeFails).0;
    }
  }

  // ---------------------------------------------------------------- the serial path

  /** `parse_arduino_data(line)` (car_exit.py:65-79). */
  function ParseExitLine(line: string): (r: Option<string>)
    ensures r.Some? ==> !Contains(line, ExitHeader) && r.value == Strip(line) && IsValidPlate(r.value)
    ensures r.None? ==> Contains(line, ExitHeader) || !IsValidPlate(Strip(line))
  {
    if Contains(line, ExitHeader) then None
    else
      var plate := Strip(line);
      if plate != [] && IsValidPlate(plate) then Some(plate) else None
  }

  lemma ValidPlateHasNoSpace(p: string)
    requires IsValidPlate(p)
    ensures forall i :: 0 <= i < |p| ==> !IsSpace(p[i])
  {
    forall i | 0 <= i < |p| ensures !IsSpace(p[i]) {
      assert FitsClass(p[i], PlatePattern[i]);
    }
  }

  /** A plate the Arduino prints as a line, padded with whitespace, is parsed back to that
      plate. */
  lemma ParseExitLineRoundTrip(pre: string, p: string, post: string)
    requires IsValidPlate(p) && AllSpace(pre) && AllSpace(post)
    ensures ParseExitLine(pre + p + post) == Some(p)
  {
    var line := pre + p + post;
    ValidPlateHasNoSpace(p);
    StripPadded(pre, p, post);
    // The header starts and ends with a letter, so it would have to lie within the plate.
    forall i ensures !OccursAt(line, ExitHeader, i) {
      if 0 <= i && i + |ExitHeader| <= |line| {
        var last := |ExitHeader| - 1;
        if i < |pre| {
          assert line[i] == pre[i];
          assert line[i..i + |ExitHeader|][0] != ExitHeader[0];
        } else if i + last >= |pre| + |p| {
          assert line[i + last] == post[i + last - |pre| - |p|];
          assert line[i..i + |ExitHeader|][last] != ExitHeader[last];
        }
      }
    }
  }

  /** The serial branch of the loop (car_exit.py:134-145) for a waiting line; the line is
      stripped when read. The second component is True when the iteration ends there
      (`continue`). */
  function SerialStep(s: Lane, o: Observation, connected: bool): (Step, bool) {
    match ParseExitLine(Strip(o.text))
    case None => (Step(s, []), false)
    case Some(plate) =>
      var d := ExitDecision(s.db, plate, o.now, o.faults, connected);
      if d.verdict.Truthy() then (Step(s.(db := d.db), []), false)
      else (Step(s.(db := d.db, cooldown := Cooldown), d.out + Emit(connected, [Buzz])), true)
  }

  /** A serial line never opens the gate and never touches the buffer; a line that is not a
      plate changes nothing; a refused exit ends the iteration, starts the cooldown and ends
      with a buzz. */
  lemma SerialStepCases(s: Lane, o: Observation, connected: bool)
    ensures var r := SerialStep(s, o, connected);
            && r.0.lane.buffer == s.buffer && GateOpen !in r.0.out
            && (r.1 ==> r.0.lane.cooldown == Cooldown && (connected ==> |r.0.out| > 0 && r.0.out[|r.0.out| - 1] == Buzz))
            && (!r.1 ==> r.0.lane.cooldown == s.cooldown && r.0.out == [])
            && (ParseExitLine(Strip(o.text)).None? ==> r == (Step(s, []), false))
  {
    match ParseExitLine(Strip(o.text))
    case None =>
    case Some(plate) =>
      var d := ExitDecision(s.db, plate, o.now, o.faults, connected);
      ExitDecisionCases(s.db, plate, o.now, o.faults, connected);
      if !d.verdict.Truthy() {
        assert GateOpen !in d.out + Emit(connected, [Buzz]);
      }
  }

  lemma SerialKeeps(s: Lane, o: Observation, connected: bool)
    requires LaneInv(s)
    ensures Keeps(s, SerialStep(s, o, connected).0.lane)
  {
    var res := SerialStep(s, o, connected).0.lane;
    match ParseExitLine(Strip(o.text))
    case None =>
      assert res == s;
      KeepsReflexive(s);
    case Some(plate) =>
      var d := ExitDecision(s.db, plate, o.now, o.faults, connected);
      DecisionKeeps(s.db, plate, o.now, o.faults, connected);
      assert res == s.(db := d.db) || res == s.(db := d.db, cooldown := Cooldown);
  }

  // ---------------------------------------------------------------- the camera path

  /** The camera path after a vote (car_exit.py:184-199): the buffer is cleared and the exit is
      decided for `winner`; success cycles the gate, anything else buzzes once more after what
      `process_exit` wrote and starts the cooldown. */
  function AfterVote(s: Lane, winner: string, o: Observation, connected: bool): Step {
    var d := ExitDecision(s.db, winner, o.now, o.faults, connected);
    if d.verdict.Truthy() then Step(Lane(d.db, [], s.cooldown), Emit(connected, GateCycle))
    else Step(Lane(d.db, [], Cooldown), d.out + Emit(connected, [Buzz]))
  }

  /** The gate opens after a vote only for a plate whose latest session is paid, and then
      exactly that session gets its exit time; the sessions change only when the gate opens. */
  lemma AfterVoteCases(s: Lane, winner: string, o: Observation, connected: bool)
    ensures var r := AfterVote(s, winner, o, connected);
            && r.lane.buffer == []
            && (r.lane.cooldown == s.cooldown || r.lane.cooldown == Cooldown)
            && (GateOpen in r.out ==>
                  r.out == GateCycle && IsPaymentComplete(s.db.sessions, winner)
                  && r.lane.db.sessions == ExitUpdate(s.db.sessions, winner, o.now))
            && (r.lane.db.sessions != s.db.sessions ==>
                  (IsPaymentComplete(s.db.sessions, winner)
                   && r.lane.db.sessions == ExitUpdate(s.db.sessions, winner, o.now)
                   && r.out == Emit(connected, GateCycle)))
  {
    var d := ExitDecision(s.db, winner, o.now, o.faults, connected);
    ExitDecisionCases(s.db, winner, o.now, o.faults, connected);
    if !d.verdict.Truthy() {
      assert GateOpen !in d.out + Emit(connected, [Buzz]);
    }
  }

  /** One detected plate box (car_exit.py:173-199): extract, validate, buffer, and on the
      third buffered read vote. */
  function CandidateStep(s: Lane, o: Observation, connected: bool): Step {
    match ExtractCandidate(CleanOcr(o.text))
    case None => Step(s, [])
    case Some(c) => if !IsValidPlate(c) then Step(s, []) else BufferRead(s, c, o, connected)
  }

  /** A valid candidate is appended to the buffer; the third one triggers the vote. */
  function BufferRead(s: Lane, c: string, o: Observation, connected: bool): Step {
    var buf := s.buffer + [c];
    if |buf| < Quorum then Step(s.(buffer := buf), [])
    else AfterVote(s, MostCommon(buf), o, connected)
  }

  /** A plate box opens the gate only for a plate whose latest session is paid. */
  lemma CandidateCases(s: Lane, o: Observation, connected: bool)
    ensures var r := CandidateStep(s, o, connected);
            && (r.lane.cooldown == s.cooldown || r.lane.cooldown == Cooldown)
            && (GateOpen in r.out ==>
                  r.out == GateCycle
                  && exists p :: IsPaymentComplete(s.db.sessions, p) && r.lane.db.sessions == ExitUpdate(s.db.sessions, p, o.now))
  {
    match ExtractCandidate(CleanOcr(o.text))
    case None =>
    case Some(c) =>
      var buf := s.buffer + [c];
      if IsValidPlate(c) && |buf| >= Quorum {
        AfterVoteCases(s, MostCommon(buf), o, connected);
      }
  }

  lemma AfterVoteKeeps(s: Lane, winner: string, o: Observation, connected: bool)
    requires ValidTables(s.db)
    ensures Keeps(s, AfterVote(s, winner, o, connected).lane)
  {
    DecisionKeeps(s.db, winner, o.now, o.faults, connected);
  }

  lemma BufferReadKeeps(s: Lane, c: string, o: Observation, connected: bool)
    requires LaneInv(s) && Buffered(c)
    ensures Keeps(s, BufferRead(s, c, o, connected).lane)
  {
    var buf := s.buffer + [c];
    if |buf| < Quorum {
      assert forall i :: 0 <= i < |buf| ==> Buffered(buf[i]);
      assert BufferRead(s, c, o, connected).lane == s.(buffer := buf);
      assert Keeps(s, s.(buffer := buf));
    } else {
      AfterVoteKeeps(s, MostCommon(buf), o, connected);
      assert BufferRead(s, c, o, connected) == AfterVote(s, MostCommon(buf), o, connected);
    }
  }

  lemma CandidateKeeps(s: Lane, o: Observation, connected: bool)
    requires LaneInv(s)
    ensures Keeps(s, CandidateStep(s, o, connected).lane)
  {
    var res := CandidateStep(s, o, connected).lane;
    match ExtractCandidate(CleanOcr(o.text))
    case None =>
      assert res == s;
      KeepsReflexive(s);
    case Some(c) =>
      if !IsValidPlate(c) {
        assert res == s;
        KeepsReflexive(s);
      } else {
        assert Buffered(c);
        BufferReadKeeps(s, c, o, connected);
        assert res == BufferRead(s, c, o, connected).lane;
      }
  }

  /** The boxes of one frame, handled in order (the `continue` after a refusal only moves on
      to the next box). */
  function FrameSteps(s: Lane, boxes: seq<Observation>, connected: bool): Step {
    if boxes == [] then Step(s, [])
    else
      var r1 := FrameSteps(s, boxes[..|boxes| - 1], connected);
      var r2 := CandidateStep(r1.lane, boxes[|boxes| - 1], connected);
      Step(r2.lane, r1.out + r2.out)
  }

  /** The frame's first `k + 1` boxes are its first `k` followed by box `k`. */
  lemma FrameStepsSnoc(s: Lane, boxes: seq<Observation>, k: nat, connected: bool)
    requires k < |boxes|
    ensures var prev := FrameSteps(s, boxes[..k], connected);
            var next := CandidateStep(prev.lane, boxes[k], connected);
            FrameSteps(s, boxes[..k + 1], connected) == Step(next.lane, prev.out + next.out)
  {
    assert boxes[..k + 1][..k] == boxes[..k];
  }

  lemma {:induction false} FrameKeeps(s: Lane, boxes: seq<Observation>, connected: bool)
    requires LaneInv(s)
    ensures Keeps(s, FrameSteps(s, boxes, connected).lane)
  {
    if boxes == [] {
      KeepsReflexive(s);
    } else {
      var init := boxes[..|boxes| - 1];
      FrameKeeps(s, init, connected);
      var r1 := FrameSteps(s, init, connected);
      CandidateKeeps(r1.lane, boxes[|boxes| - 1], connected);
      KeepsTransitive(s, r1.lane, CandidateStep(r1.lane, boxes[|boxes| - 1], connected).lane);
    }
  }

  // ---------------------------------------------------------------- the loop

  /** One pass of `while True` (car_exit.py:124-208). The second component is True when the
      loop ends (failed frame grab or 'q'). */
  function Iteration(s: Lane, t: Tick, connected: bool): (Step, bool) {
    if s.cooldown > 0 then (Step(s.(cooldown := s.cooldown - 1), []), false)
    else
      var (r1, skip) := if connected && t.serial.Some? then SerialStep(s, t.serial.value, connected) else (Step(s, []), false);
      if skip then (r1, false)
      else if t.frame.None? then (r1, true)
      else if !t.frame.value.near then (r1, t.quit)
      else
        var r2 := FrameSteps(r1.lane, t.frame.value.boxes, connected);
        (Step(r2.lane, r1.out + r2.out), t.quit)
  }

  lemma IterationKeeps(s: Lane, t: Tick, connected: bool)
    requires LaneInv(s)
    ensures Keeps(s, Iteration(s, t, connected).0.lane)
  {
    var res := Iteration(s, t, connected).0.lane;
    if s.cooldown > 0 {
      assert res == s.(cooldown := s.cooldown - 1);
      assert Keeps(s, res);
    } else {
      var (r1, skip) := if connected && t.serial.Some? then SerialStep(s, t.serial.value, connected) else (Step(s, []), false);
      if connected && t.serial.Some? {
        SerialKeeps(s, t.serial.value, connected);
      } else {
        KeepsReflexive(s);
      }
      if !skip && t.frame.Some? && t.frame.value.near {
        var r2 := FrameSteps(r1.lane, t.frame.value.boxes, connected);
        FrameKeeps(r1.lane, t.frame.value.boxes, connected);
        KeepsTransitive(s, r1.lane, r2.lane);
        assert res == r2.lane;
      } else {
        assert res == r1.lane;
      }
    }
  }

  /** The loop over a sequence of iterations, up to the one that ends it. */
  function Run(s: Lane, ticks: seq<Tick>, connected: bool): Step
    decreases |ticks|
  {
    if ticks == [] then Step(s, [])
    else
      var (r1, stop) := Iteration(s, ticks[0], connected);
      if stop then r1
      else
        var r2 := Run(r1.lane, ticks[1..], connected);
        Step(r2.lane, r1.out + r2.out)
  }

  /** Over any run of the loop the ledger stays well formed and only evolves, no session
      gets an exit without being paid, and no plate gets a second open session. */
  lemma {:induction false} RunKeeps(s: Lane, ticks: seq<Tick>, connected: bool)
    requires LaneInv(s)
    ensures Keeps(s, Run(s, ticks, connected).lane)
    decreases |ticks|
  {
    if ticks == [] {
      KeepsReflexive(s);
    } else {
      IterationKeeps(s, ticks[0], connected);
      var (r1, stop) := Iteration(s, ticks[0], connected);
      if !stop {
        RunKeeps(r1.lane, ticks[1..], connected);
        KeepsTransitive(s, r1.lane, Run(r1.lane, ticks[1..], connected).lane);
      }
    }
  }

  // ---------------------------------------------------------------- properties

  /** While the cooldown runs, iterations do nothing but count it down, whatever arrives on
      the port or the camera: after `n` such iterations the lane is as before with a cooldown
      `n` smaller and nothing was written, so detection resumes after `Cooldown` iterations. */
  lemma {:induction false} CooldownSilences(s: Lane, ticks: seq<Tick>, connected: bool)
    requires |ticks| <= s.cooldown
    ensures Run(s, ticks, connected) == Step(s.(cooldown := s.cooldown - |ticks|), [])
    decreases |ticks|
  {
    if ticks != [] {
      var s1 := s.(cooldown := s.cooldown - 1);
      assert Iteration(s, ticks[0], connected) == (Step(s1, []), false);
      CooldownSilences(s1, ticks[1..], connected);
    }
  }

  /** Without an Arduino the loop writes nothing, whatever it sees. */
  lemma {:induction false} RunWithoutPortIsSilent(s: Lane, ticks: seq<Tick>)
    ensures Run(s, ticks, false).out == []
    decreases |ticks|
  {
    if ticks != [] {
      var t := ticks[0];
      if s.cooldown == 0 && t.frame.Some? && t.frame.value.near {
        FrameWithoutPortIsSilent(s, t.frame.value.boxes);
      }
      var (r1, stop) := Iteration(s, t, false);
      if !stop {
        RunWithoutPortIsSilent(r1.lane, ticks[1..]);
      }
    }
  }

  lemma {:induction false} FrameWithoutPortIsSilent(s: Lane, boxes: seq<Observation>)
    ensures FrameSteps(s, boxes, false).out == []
  {
    if boxes != [] {
      FrameWithoutPortIsSilent(s, boxes[..|boxes| - 1]);
      var r1 := FrameSteps(s, boxes[..|boxes| - 1], false);
      var o := boxes[|boxes| - 1];
      match ExtractCandidate(CleanOcr(o.text))
      case None =>
      case Some(c) =>
        var buf := r1.lane.buffer + [c];
        if IsValidPlate(c) && |buf| >= Quorum {
          ExitDecisionCases(r1.lane.db, MostCommon(buf), o.now, o.faults, false);
        }
    }
  }

  /** A serial exit of a paid plate records the exit and writes nothing: no gate command. */
  lemma SerialExitOpensNoGate(s: Lane, o: Observation, connected: bool)
    requires ParseExitLine(Strip(o.text)).Some?
    requires IsPaymentComplete(s.db.sessions, Strip(o.text))
    requires !o.faults.readFails && !o.faults.writeFails
    ensures SerialStep(s, o, connected).0.out == []
    ensures SerialStep(s, o, connected).0.lane.db.sessions == ExitUpdate(s.db.sessions, Strip(o.text), o.now)
  {
    StripIdempotent(o.text);
    ExitDecisionCases(s.db, Strip(o.text), o.now, o.faults, connected);
  }

  /** A refused serial exit buzzes three times, then once more, and starts the cooldown. */
  lemma SerialRefusal(s: Lane, o: Observation)
    requires ParseExitLine(Strip(o.text)).Some?
    requires !IsPaymentComplete(s.db.sessions, Strip(o.text))
    ensures SerialStep(s, o, true).0.out == BuzzThrice + [Buzz]
    ensures SerialStep(s, o, true).0.lane.cooldown == Cooldown && SerialStep(s, o, true).1
  {
    StripIdempotent(o.text);
  }

  /** The third valid read resolves the vote and clears the buffer; the exit is then decided
      for the most common of the three reads, and the gate cycles exactly when it is let out. */
  lemma ThirdReadDecides(s: Lane, o: Observation)
    requires |s.buffer| == Quorum - 1
    requires ExtractCandidate(CleanOcr(o.text)).Some? && IsValidPlate(ExtractCandidate(CleanOcr(o.text)).value)
    ensures var d := ExitDecision(s.db, MostCommon(s.buffer + [ExtractCandidate(CleanOcr(o.text)).value]), o.now, o.faults, true);
            var r := CandidateStep(s, o, true);
            r.lane.buffer == [] && r.lane.db == d.db
            && (d.verdict.Truthy() ==> r.out == GateCycle && r.lane.cooldown == s.cooldown)
            && (!d.verdict.Truthy() ==> r.out == d.out + [Buzz] && r.lane.cooldown == Cooldown)
  {
  }

  /** Before the third read, a valid candidate is only buffered. */
  lemma EarlyReadBuffers(s: Lane, o: Observation, connected: bool)
    requires |s.buffer| < Quorum - 1
    requires ExtractCandidate(CleanOcr(o.text)).Some? && IsValidPlate(ExtractCandidate(CleanOcr(o.text)).value)
    ensures CandidateStep(s, o, connected) == Step(s.(buffer := s.buffer + [ExtractCandidate(CleanOcr(o.text)).value]), [])
  {
  }

  // ---------------------------------------------------------------- the process

  /** The exit process: the ledger it shares, whether an Arduino is attached, the loop
      variables `plate_buffer` and `unauthorized_cooldown`, and the commands written so far. */
  class ExitGate {
    const db: Database
    const connected: bool
    var buffer: seq<string>
    var cooldown: nat
    var written: seq<Command>

    function View(): Lane
      reads this, db
    {
      Lane(db.State(), buffer, cooldown)
    }

    ghost predicate Valid()
      reads this, db
    {
      db.Valid() && LaneInv(View())
    }

    constructor (db: Database, connected: bool)
      requires db.Valid()
      ensures this.db == db && this.connected == connected
      ensures Valid() && View() == Lane(db.State(), [], 0) && written == []
    {
      this.db := db;
      this.connected := connected;
      buffer, cooldown, written := [], 0, [];
    }

    method ProcessExit(plate: string, now: int, f: Faults) returns (v: Verdict)
      requires db.Valid()
      modifies this, db
      ensures buffer == old(buffer) && cooldown == old(cooldown)
      ensures var d := ExitDecision(old(db.State()), plate, now, f, connected);
              db.State() == d.db && v == d.verdict && written == old(written) + d.out
    {
      ghost var d := ExitDecision(db.State(), plate, now, f, connected);
      if !IsValidPlate(plate) {
        return Malformed;
      }
      var paid := !f.readFails && IsPaymentComplete(db.sessions, plate);
      if paid {
        var ok := db.UpdateExitTimestamp(plate, now, f.writeFails);
        assert d == if ok then Decision(db.State(), Exited, []) else Decision(db.State(), NotRecorded, []);
        v := if ok then Exited else NotRecorded;
      } else {
        var _ := db.AddAlert(UnauthorizedExit, plate, UnauthorizedMessage(plate), now, f.writeFails);
        assert d == Decision(db.State(), Unauthorized, Emit(connected, BuzzThrice));
        written := written + Emit(connected, BuzzThrice);
        v := Unauthorized;
      }
    }

    /** Handles a waiting serial line; returns True when the iteration ends there. */
    method HandleSerialLine(o: Observation) returns (skip: bool)
      requires db.Valid()
      modifies this, db
      ensures buffer == old(buffer)
      ensures var r := SerialStep(old(View()), o, connected);
              View() == r.0.lane && written == old(written) + r.0.out && skip == r.1
    {
      ghost var s := View();
      var plate := ParseExitLine(Strip(o.text));
      skip := false;
      if plate.Some? {
        ghost var d := ExitDecision(s.db, plate.value, o.now, o.faults, connected);
        var v := ProcessExit(plate.value, o.now, o.faults);
        if !v.Truthy() {
          assert SerialStep(s, o, connected) == (Step(s.(db := d.db, cooldown := Cooldown), d.out + Emit(connected, [Buzz])), true);
          cooldown := Cooldown;
          written := written + Emit(connected, [Buzz]);
          Reassociate(old(written), d.out, Emit(connected, [Buzz]));
          skip := true;
        } else {
          ExitedWritesNothing(s.db, plate.value, o.now, o.faults, connected);
          assert SerialStep(s, o, connected) == (Step(s.(db := d.db), []), false);
        }
      } else {
        assert SerialStep(s, o, connected) == (Step(s, []), false);
      }
    }

    /** After a vote: clears the buffer and decides the exit for the winner. */
    method Resolve(winner: string, o: Observation)
      requires db.Valid()
      modifies this, db
      ensures var r := AfterVote(old(View()), winner, o, connected);
              View() == r.lane && written == old(written) + r.out
    {
      ghost var s := View();
      ghost var d := ExitDecision(s.db, winner, o.now, o.faults, connected);
      buffer := [];
      var v := ProcessExit(winner, o.now, o.faults);
      if v.Truthy() {
        ExitedWritesNothing(s.db, winner, o.now, o.faults, connected);
        assert AfterVote(s, winner, o, connected) == Step(Lane(d.db, [], s.cooldown), Emit(connected, GateCycle));
        assert written == old(written);
        written := written + Emit(connected, GateCycle);
      } else {
        assert AfterVote(s, winner, o, connected) == Step(Lane(d.db, [], Cooldown), d.out + Emit(connected, [Buzz]));
        cooldown := Cooldown;
        written := written + Emit(connected, [Buzz]);
        Reassociate(old(written), d.out, Emit(connected, [Buzz]));
      }
    }

    method HandleCandidate(o: Observation)
      requires Valid()
      modifies this, db
      ensures Valid()
      ensures var r := CandidateStep(old(View()), o, connected);
              View() == r.lane && written == old(written) + r.out
    {
      var candidate := ExtractCandidate(CleanOcr(o.text));
      if candidate.Some? && IsValidPlate(candidate.value) {
        Offer(candidate.value, o);
      }
    }

    /** Buffers a valid candidate and votes on the third. */
    method Offer(c: string, o: Observation)
      requires Valid() && Buffered(c)
      modifies this, db
      ensures Valid()
      ensures var r := BufferRead(old(View()), c, o, connected);
              View() == r.lane && written == old(written) + r.out
    {
      ghost var s := View();
      ghost var r := BufferRead(s, c, o, connected);
      BufferReadKeeps(s, c, o, connected);
      var buf := buffer + [c];
      if |buf| < Quorum {
        assert r == Step(s.(buffer := buf), []);
        buffer := buf;
      } else {
        assert r == AfterVote(s, MostCommon(buf), o, connected);
        Resolve(MostCommon(buf), o);
      }
    }

    method ProcessFrame(boxes: seq<Observation>)
      requires Valid()
      modifies this, db
      ensures Valid()
      ensures var r := FrameSteps(old(View()), boxes, connected);
              View() == r.lane && written == old(written) + r.out
    {
      ghost var start, w0 := View(), written;
      for k := 0 to |boxes|
        invariant Valid()
        invariant View() == FrameSteps(start, boxes[..k], connected).lane
        invariant written == w0 + FrameSteps(start, boxes[..k], connected).out
      {
        ghost var prev := FrameSteps(start, boxes[..k], connected);
        ghost var next := CandidateStep(prev.lane, boxes[k], connected);
        FrameStepsSnoc(start, boxes, k, connected);
        HandleCandidate(boxes[k]);
        Reassociate(w0, prev.out, next.out);
      }
      assert boxes[..|boxes|] == boxes;
    }

    /** One pass of the loop; returns True when the loop ends. */
    method Iterate(t: Tick) returns (stop: bool)
      requires Valid()
      modifies this, db
      ensures Valid()
      ensures var r := Iteration(old(View()), t, connected);
              View() == r.0.lane && written == old(written) + r.0.out && stop == r.1
    {
      if cooldown > 0 {
        cooldown := cooldown - 1;
        return false;
      }
      ghost var start := View();
      if connected && t.serial.Some? {
        SerialKeeps(start, t.serial.value, connected);
        var skip := HandleSerialLine(t.serial.value);
        if skip {
          return false;
        }
      }
      ghost var r1 := if connected && t.serial.Some? then SerialStep(start, t.serial.value, connected).0 else Step(start, []);
      assert View() == r1.lane && written == old(written) + r1.out;
      if t.frame.None? {
        return true;
      }
      if t.frame.value.near {
        ProcessFrame(t.frame.value.boxes);
        Reassociate(old(written), r1.out, FrameSteps(r1.lane, t.frame.value.boxes, connected).out);
      }
      stop := t.quit;
    }

    /** `main`: iterates until an iteration ends the loop or the inputs run out. */
    method Operate(ticks: seq<Tick>)
      requires Valid()
      modifies this, db
      ensures Valid()
      ensures var r := Run(old(View()), ticks, connected);
              View() == r.lane && written == old(written) + r.out
    {
      var k := 0;
      var stop := false;
      ghost var out: seq<Command> := [];
      while k < |ticks| && !stop
        invariant 0 <= k <= |ticks| && Valid()
        invariant written == old(written) + out
        invariant !stop ==> Run(old(View()), ticks, connected)
                              == Step(Run(View(), ticks[k..], connected).lane, out + Run(View(), ticks[k..], connected).out)
        invariant stop ==> Run(old(View()), ticks, connected) == Step(View(), out)
        decreases |ticks| - k, !stop
      {
        ghost var before := View();
        ghost var r1 := Iteration(before, ticks[k], connected).0;
        ghost var rest := Run(r1.lane, ticks[k + 1..], connected);
        assert ticks[k..][1..] == ticks[k + 1..];
        assert !Iteration(before, ticks[k], connected).1 ==>
                 Run(before, ticks[k..], connected) == Step(rest.lane, r1.out + rest.out);
        stop := Iterate(ticks[k]);
        Reassociate(out, r1.out, rest.out);
        Reassociate(old(written), out, r1.out);
        out := out + r1.out;
        k := k + 1;
      }
      if !stop {
        assert ticks[k..] == [];
      }
    }
  }
}
