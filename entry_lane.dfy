/** The entry lane (car_entry.py): the camera loop with its plate buffer, the refusal of a
    plate that is already inside, the five-minute same-plate window, the insertion of a new
    session and the gate cycle. The decisions are functions over a `Lane` value that also
    return the commands they write; the class `EntryGate` keeps the same state in fields and
    its methods are proved to follow those functions. */
module EntryLane {
  import opened Text
  import opened Plates
  import opened Ledger
  import opened Hardware

  /** `entry_cooldown`: seconds within which the last admitted plate is not admitted again. */
  const EntryCooldown: int := 300

  const DuplicateEntry := "DUPLICATE_ENTRY"

  function DuplicateMessage(plate: string): string {
    "Vehicle " + plate + " attempted to enter while already inside"
  }

  /** The loop variables `plate_buffer`, `last_saved_plate` and `last_entry_time`, with the
      ledger. */
  datatype Lane = Lane(db: Tables, buffer: seq<string>, lastSaved: Option<string>, lastEntryTime: int)

  /** A lane after some processing, and the commands written meanwhile. */
  datatype Step = Step(lane: Lane, out: seq<Command>)

  /** The inputs of one loop iteration: the grabbed frame (None when the grab fails) and
      whether 'q' was pressed. */
  datatype Tick = Tick(frame: Option<Frame>, quit: bool)

  /** The state before the first iteration (car_entry.py:41-44). */
  function Initial(db: Tables): Lane {
    Lane(db, [], None, 0)
  }

  /** Between iterations the buffer holds fewer than three valid "RA…" plates. */
  predicate LaneInv(s: Lane) {
    ValidTables(s.db) && |s.buffer| < Quorum && forall i :: 0 <= i < |s.buffer| ==> Buffered(s.buffer[i])
  }

  /** What every part of the loop preserves: the lane invariant, the way the ledger may
      change, no exit without payment, and at most one open session per plate. */
  predicate Keeps(s: Lane, r: Lane) {
    LaneInv(r) && Evolves(s.db, r.db)
    && (ExitsPaid(s.db.sessions) ==> ExitsPaid(r.db.sessions))
    && (AtMostOneOpen(s.db.sessions) ==> AtMostOneOpen(r.db.sessions))
  }

  lemma KeepsReflexive(s: Lane)
    requires LaneInv(s)
    ensures Keeps(s, s)
  {
  }

  lemma KeepsTransitive(s: Lane, r: Lane, q: Lane)
    requires Keeps(s, r) && Keeps(r, q)
    ensures Keeps(s, q)
  {
    EvolvesTransitive(s.db, r.db, q.db);
  }

  // ---------------------------------------------------------------- the decision

  /** Whether the same-plate window lets `plate` in at `now` (car_entry.py:114-115). */
  predicate OutsideWindow(s: Lane, plate: string, now: int) {
    Some(plate) != s.lastSaved || now - s.lastEntryTime > EntryCooldown
  }

  /** The decision for the voted plate (car_entry.py:91-133); the buffer is cleared on every
      path. A plate inside is refused with an alert and three buzzes; otherwise, outside the
      window, a session is inserted and on success the gate cycles and the plate and time are
      remembered. */
  function Admit(s: Lane, plate: string, o: Observation, connected: bool): Step {
    if IsVehicleInside(s.db.sessions, plate) then
      var (db1, _) := AlertAdded(s.db, DuplicateEntry, plate, DuplicateMessage(plate), o.now, o.faults.writeFails);
      Step(s.(db := db1, buffer := []), Emit(connected, BuzzThrice))
    else if OutsideWindow(s, plate, o.now) then
      var (db1, id) := EntryAdded(s.db, plate, o.now, o.faults.writeFails);
      // `if entry_id:` also treats an id of 0 as a failure
      if id.Some? && id.value != 0 then Step(Lane(db1, [], Some(plate), o.now), Emit(connected, GateCycle))
      else Step(s.(buffer := []), [])
    else Step(s.(buffer := []), [])
  }

  /** The outcomes of the decision. A plate already inside gets one unread DUPLICATE_ENTRY
      alert (unless the insert fails), three buzzes, no session and no change to the
      remembered plate; a session is inserted exactly when the plate is not inside, the
      window lets it in and the insert succeeds, and then the gate cycles and the plate and
      time are remembered; in every other case nothing is written and nothing but the buffer
      changes. */
  lemma AdmitCases(s: Lane, plate: string, o: Observation, connected: bool)
    requires ValidTables(s.db)
    ensures var r := Admit(s, plate, o, connected);
            && r.lane.buffer == []
            && (IsVehicleInside(s.db.sessions, plate) ==>
                  && r.lane.db.sessions == s.db.sessions
                  && r.lane.lastSaved == s.lastSaved && r.lane.lastEntryTime == s.lastEntryTime
                  && r.out == Emit(connected, BuzzThrice)
                  && (!o.faults.writeFails ==>
                        exists id :: r.lane.db.alerts == s.db.alerts + [Alert(id, DuplicateEntry, plate, DuplicateMessage(plate), o.now, false)])
                  && (o.faults.writeFails ==> r.lane.db == s.db))
            && (!IsVehicleInside(s.db.sessions, plate) ==> r.lane.db.alerts == s.db.alerts)
            && (r.lane.db.sessions != s.db.sessions <==>
                  !IsVehicleInside(s.db.sessions, plate) && OutsideWindow(s, plate, o.now) && !o.faults.writeFails)
            && (r.lane.db.sessions != s.db.sessions ==>
                  && (exists id :: r.lane.db.sessions == s.db.sessions + [Session(id, plate, o.now, None, false, None, None)])
                  && r.out == Emit(connected, GateCycle)
                  && r.lane.lastSaved == Some(plate) && r.lane.lastEntryTime == o.now)
            && (!IsVehicleInside(s.db.sessions, plate) && r.lane.db.sessions == s.db.sessions ==>
                  r == Step(s.(buffer := []), []))
  {
    if IsVehicleInside(s.db.sessions, plate) {
      AlertAddedSpec(s.db, DuplicateEntry, plate, DuplicateMessage(plate), o.now, o.faults.writeFails);
    } else if OutsideWindow(s, plate, o.now) {
      EntryAddedSpec(s.db, plate, o.now, o.faults.writeFails);
    }
  }

  lemma AdmitKeeps(s: Lane, plate: string, o: Observation, connected: bool)
    requires ValidTables(s.db)
    ensures Keeps(s, Admit(s, plate, o, connected).lane)
  {
    var res := Admit(s, plate, o, connected).lane;
    if IsVehicleInside(s.db.sessions, plate) {
      var u := AlertAdded(s.db, DuplicateEntry, plate, DuplicateMessage(plate), o.now, o.faults.writeFails).0;
      AlertAddedSpec(s.db, DuplicateEntry, plate, DuplicateMessage(plate), o.now, o.faults.writeFails);
      assert res == s.(db := u, buffer := []);
    } else if OutsideWindow(s, plate, o.now) {
      var u := EntryAdded(s.db, plate, o.now, o.faults.writeFails).0;
      EntryAddedSpec(s.db, plate, o.now, o.faults.writeFails);
      var id := s.db.nextSessionId;
      if AtMostOneOpen(s.db.sessions) {
        AdmitKeepsOneOpen(s.db.sessions, id, plate, o.now);
      }
      if ExitsPaid(s.db.sessions) {
        UpdatesKeepExitsPaid(s.db.sessions, plate, o.now, None, o.now, id);
      }
      assert res == Lane(u, [], Some(plate), o.now) || res == s.(buffer := []);
    } else {
      assert res == s.(buffer := []);
    }
  }

  /** Once a plate has been let in, the next vote for it, at any time, finds it inside and
      goes down the duplicate path: no second session, three buzzes. */
  lemma ReentryIsRefused(s: Lane, plate: string, o1: Observation, o2: Observation, connected: bool)
    requires ValidTables(s.db)
    requires Admit(s, plate, o1, connected).lane.db.sessions != s.db.sessions
    ensures var r1 := Admit(s, plate, o1, connected).lane;
            var r2 := Admit(r1, plate, o2, connected);
            r2.lane.db.sessions == r1.db.sessions && r2.out == Emit(connected, BuzzThrice)
  {
    AdmitCases(s, plate, o1, connected);
    var r1 := Admit(s, plate, o1, connected).lane;
    var rows := s.db.sessions;
    var n := |rows|;
    assert r1.db.sessions[n].plate == plate && r1.db.sessions[n].exit.None?;
    assert IsVehicleInside(r1.db.sessions, plate);
  }

  /** A repeat of the last admitted plate within five minutes, when it is not inside (it has
      left meanwhile), creates no session, raises no alert and writes nothing. */
  lemma RepeatWithinWindowIsSkipped(s: Lane, plate: string, o: Observation, connected: bool)
    requires s.lastSaved == Some(plate) && o.now - s.lastEntryTime <= EntryCooldown
    requires !IsVehicleInside(s.db.sessions, plate)
    ensures Admit(s, plate, o, connected) == Step(s.(buffer := []), [])
  {
  }

  // ---------------------------------------------------------------- the camera path

  /** One detected plate box (car_entry.py:73-133): extract, check the format, buffer, and
      on the third buffered read vote and decide. */
  function CandidateStep(s: Lane, o: Observation, connected: bool): Step {
    match ExtractCandidate(CleanOcr(o.text))
    case None => Step(s, [])
    case Some(c) => if !EntryFormatCheck(c) then Step(s, []) else BufferRead(s, c, o, connected)
  }

  /** A valid candidate is appended to the buffer; the third one triggers the decision. */
  function BufferRead(s: Lane, c: string, o: Observation, connected: bool): Step {
    var buf := s.buffer + [c];
    if |buf| < Quorum then Step(s.(buffer := buf), [])
    else Admit(s, MostCommon(buf), o, connected)
  }

  /** The third valid read decides for the most common of the three reads; earlier valid
      reads are only buffered; anything else is ignored. */
  lemma CandidateCases(s: Lane, o: Observation, connected: bool)
    ensures var r := CandidateStep(s, o, connected);
            var c := ExtractCandidate(CleanOcr(o.text));
            && (c.None? || !IsValidPlate(c.value) ==> r == Step(s, []))
            && (c.Some? && IsValidPlate(c.value) && |s.buffer| + 1 < Quorum ==>
                  r == Step(s.(buffer := s.buffer + [c.value]), []))
            && (c.Some? && IsValidPlate(c.value) && |s.buffer| + 1 >= Quorum ==>
                  r == Admit(s, MostCommon(s.buffer + [c.value]), o, connected))
  {
    match ExtractCandidate(CleanOcr(o.text))
    case None =>
    case Some(c) => EntryCheckAgrees(c);
  }

  lemma BufferReadKeeps(s: Lane, c: string, o: Observation, connected: bool)
    requires LaneInv(s) && Buffered(c)
    ensures Keeps(s, BufferRead(s, c, o, connected).lane)
  {
    var buf := s.buffer + [c];
    if |buf| < Quorum {
      assert forall i :: 0 <= i < |buf| ==> Buffered(buf[i]);
      assert BufferRead(s, c, o, connected).lane == s.(buffer := buf);
      assert Keeps(s, s.(buffer := buf));
    } else {
      AdmitKeeps(s, MostCommon(buf), o, connected);
      assert BufferRead(s, c, o, connected) == Admit(s, MostCommon(buf), o, connected);
    }
  }

  lemma CandidateKeeps(s: Lane, o: Observation, connected: bool)
    requires LaneInv(s)
    ensures Keeps(s, CandidateStep(s, o, connected).lane)
  {
    var res := CandidateStep(s, o, connected).lane;
    match ExtractCandidate(CleanOcr(o.text))
    case None =>
      assert res == s;
      KeepsReflexive(s);
    case Some(c) =>
      EntryCheckAgrees(c);
      if !EntryFormatCheck(c) {
        assert res == s;
        KeepsReflexive(s);
      } else {
        assert Buffered(c);
        BufferReadKeeps(s, c, o, connected);
        assert res == BufferRead(s, c, o, connected).lane;
      }
  }

  /** The boxes of one frame, handled in order (the `continue` after a refusal only moves on
      to the next box). */
  function FrameSteps(s: Lane, boxes: seq<Observation>, connected: bool): Step {
    if boxes == [] then Step(s, [])
    else
      var r1 := FrameSteps(s, boxes[..|boxes| - 1], connected);
      var r2 := CandidateStep(r1.lane, boxes[|boxes| - 1], connected);
      Step(r2.lane, r1.out + r2.out)
  }

  /** The frame's first `k + 1` boxes are its first `k` followed by box `k`. */
  lemma FrameStepsSnoc(s: Lane, boxes: seq<Observation>, k: nat, connected: bool)
    requires k < |boxes|
    ensures var prev := FrameSteps(s, boxes[..k], connected);
            var next := CandidateStep(prev.lane, boxes[k], connected);
            FrameSteps(s, boxes[..k + 1], connected) == Step(next.lane, prev.out + next.out)
  {
    assert boxes[..k + 1][..k] == boxes[..k];
  }

  lemma {:induction false} FrameKeeps(s: Lane, boxes: seq<Observation>, connected: bool)
    requires LaneInv(s)
    ensures Keeps(s, FrameSteps(s, boxes, connected).lane)
  {
    if boxes == [] {
      KeepsReflexive(s);
    } else {
      var init := boxes[..|boxes| - 1];
      FrameKeeps(s, init, connected);
      var r1 := FrameSteps(s, init, connected);
      CandidateKeeps(r1.lane, boxes[|boxes| - 1], connected);
      KeepsTransitive(s, r1.lane, CandidateStep(r1.lane, boxes[|boxes| - 1], connected).lane);
    }
  }

  // ---------------------------------------------------------------- the loop

  /** One pass of `while True` (car_entry.py:48-143). The second component is True when the
      loop ends (failed frame grab or 'q'). */
  function Iteration(s: Lane, t: Tick, connected: bool): (Step, bool) {
    match t.frame
    case None => (Step(s, []), true)
    case Some(f) =>
      if f.near then (FrameSteps(s, f.boxes, connected), t.quit) else (Step(s, []), t.quit)
  }

  /** The loop over a sequence of iterations, up to the one that ends it. */
  function Run(s: Lane, ticks: seq<Tick>, connected: bool): Step
    decreases |ticks|
  {
    if ticks == [] then Step(s, [])
    else
      var (r1, stop) := Iteration(s, ticks[0], connected);
      if stop then r1
      else
        var r2 := Run(r1.lane, ticks[1..], connected);
        Step(r2.lane, r1.out + r2.out)
  }

  /** Over any run of the loop the ledger stays well formed and only evolves, no session
      gets an exit without being paid, and no plate gets a second open session. */
  lemma {:induction false} RunKeeps(s: Lane, ticks: seq<Tick>, connected: bool)
    requires LaneInv(s)
    ensures Keeps(s, Run(s, ticks, connected).lane)
    decreases |ticks|
  {
    if ticks == [] {
      KeepsReflexive(s);
    } else {
      var (r1, stop) := Iteration(s, ticks[0], connected);
      if ticks[0].frame.Some? && ticks[0].frame.value.near {
        FrameKeeps(s, ticks[0].frame.value.boxes, connected);
      } else {
        KeepsReflexive(s);
      }
      if !stop {
        RunKeeps(r1.lane, ticks[1..], connected);
        KeepsTransitive(s, r1.lane, Run(r1.lane, ticks[1..], connected).lane);
      }
    }
  }

  /** A voted plate that is neither inside nor the last one let in gets a new session and the
      gate cycles, provided the insert succeeds. */
  lemma FreshPlateAdmitted(s: Lane, p: string, o: Observation, connected: bool)
    requires 0 < s.db.nextSessionId
    requires !IsVehicleInside(s.db.sessions, p) && s.lastSaved != Some(p) && !o.faults.writeFails
    ensures var r := Admit(s, p, o, connected);
            && r.out == Emit(connected, GateCycle) && r.lane.buffer == []
            && r.lane.db.sessions == s.db.sessions + [NewSession(s.db.nextSessionId, p, o.now)]
            && r.lane.lastSaved == Some(p) && r.lane.lastEntryTime == o.now
  {
  }

  /** A third read of a plate already read twice wins the vote, so the decision is taken for
      that plate (`CandidateCases` says when a plate box comes down to this). */
  lemma ThreeReadsAdmit(s: Lane, p: string, o: Observation, connected: bool)
    requires s.buffer == [p, p]
    ensures BufferRead(s, p, o, connected) == Admit(s, p, o, connected)
  {
    assert s.buffer + [p] == [p, p, p];
    MajorityOfThree(p, p, p);
  }

  // ---------------------------------------------------------------- the process

  /** The entry process: the ledger it shares, whether an Arduino is attached, the loop
      variables and the commands written so far. */
  class EntryGate {
    const db: Database
    const connected: bool
    var buffer: seq<string>
    var lastSaved: Option<string>
    var lastEntryTime: int
    var written: seq<Command>

    function View(): Lane
      reads this, db
    {
      Lane(db.State(), buffer, lastSaved, lastEntryTime)
    }

    ghost predicate Valid()
      reads this, db
    {
      db.Valid() && LaneInv(View())
    }

    constructor (db: Database, connected: bool)
      requires db.Valid()
      ensures this.db == db && this.connected == connected
      ensures Valid() && View() == Initial(db.State()) && written == []
    {
      this.db := db;
      this.connected := connected;
      buffer, lastSaved, lastEntryTime, written := [], None, 0, [];
    }

    /** The decision for a voted plate; clears the buffer. */
    method Decide(plate: string, o: Observation)
      requires db.Valid()
      modifies this, db
      ensures var r := Admit(old(View()), plate, o, connected);
              View() == r.lane && written == old(written) + r.out
    {
      if IsVehicleInside(db.sessions, plate) {
        RefuseDuplicate(plate, o);
      } else {
        Enter(plate, o);
      }
    }

    /** A voted plate that is inside: alert, three buzzes, clear the buffer. */
    method RefuseDuplicate(plate: string, o: Observation)
      requires db.Valid() && IsVehicleInside(db.sessions, plate)
      modifies this, db
      ensures var r := Admit(old(View()), plate, o, connected);
              View() == r.lane && written == old(written) + r.out
    {
      ghost var s := View();
      var _ := db.AddAlert(DuplicateEntry, plate, DuplicateMessage(plate), o.now, o.faults.writeFails);
      written := written + Emit(connected, BuzzThrice);
      buffer := [];
      assert Admit(s, plate, o, connected) == Step(s.(db := db.State(), buffer := []), Emit(connected, BuzzThrice));
    }

    /** A voted plate that is not inside: the window check and the insert; clears the buffer. */
    method Enter(plate: string, o: Observation)
      requires db.Valid() && !IsVehicleInside(db.sessions, plate)
      modifies this, db
      ensures var r := Admit(old(View()), plate, o, connected);
              View() == r.lane && written == old(written) + r.out
    {
      ghost var s := View();
      ghost var r := Admit(s, plate, o, connected);
      if Some(plate) != lastSaved || o.now - lastEntryTime > EntryCooldown {
        var id := db.AddParkingEntry(plate, o.now, o.faults.writeFails);
        if id.Some? && id.value != 0 {
          assert r == Step(Lane(db.State(), [], Some(plate), o.now), Emit(connected, GateCycle));
          written := written + Emit(connected, GateCycle);
          lastSaved := Some(plate);
          lastEntryTime := o.now;
        } else {
          assert db.State() == s.db;
          assert r == Step(s.(buffer := []), []);
        }
      } else {
        assert r == Step(s.(buffer := []), []);
      }
      buffer := [];
    }

    method HandleCandidate(o: Observation)
      requires Valid()
      modifies this, db
      ensures Valid()
      ensures var r := CandidateStep(old(View()), o, connected);
              View() == r.lane && written == old(written) + r.out
    {
      var candidate := ExtractCandidate(CleanOcr(o.text));
      if candidate.Some? && EntryFormatCheck(candidate.value) {
        EntryCheckAgrees(candidate.value);
        Offer(candidate.value, o);
      }
    }

    /** Buffers a valid candidate and decides on the third. */
    method Offer(c: string, o: Observation)
      requires Valid() && Buffered(c)
      modifies this, db
      ensures Valid()
      ensures var r := BufferRead(old(View()), c, o, connected);
              View() == r.lane && written == old(written) + r.out
    {
      ghost var s := View();
      ghost var r := BufferRead(s, c, o, connected);
      BufferReadKeeps(s, c, o, connected);
      var buf := buffer + [c];
      if |buf| < Quorum {
        assert r == Step(s.(buffer := buf), []);
        buffer := buf;
      } else {
        assert r == Admit(s, MostCommon(buf), o, connected);
        Decide(MostCommon(buf), o);
      }
    }

    method ProcessFrame(boxes: seq<Observation>)
      requires Valid()
      modifies this, db
      ensures Valid()
      ensures var r := FrameSteps(old(View()), boxes, connected);
              View() == r.lane && written == old(written) + r.out
    {
      ghost var start, w0 := View(), written;
      for k := 0 to |boxes|
        invariant Valid()
        invariant View() == FrameSteps(start, boxes[..k], connected).lane
        invariant written == w0 + FrameSteps(start, boxes[..k], connected).out
      {
        ghost var prev := FrameSteps(start, boxes[..k], connected);
        ghost var next := CandidateStep(prev.lane, boxes[k], connected);
        FrameStepsSnoc(start, boxes, k, connected);
        HandleCandidate(boxes[k]);
        Reassociate(w0, prev.out, next.out);
      }
      assert boxes[..|boxes|] == boxes;
    }

    /** `while True`: iterates until a frame grab fails, 'q' is pressed or the inputs run out. */
    method Operate(ticks: seq<Tick>)
      requires Valid()
      modifies this, db
      ensures Valid()
      ensures var r := Run(old(View()), ticks, connected);
              View() == r.lane && written == old(written) + r.out
    {
      var k := 0;
      var stop := false;
      ghost var out: seq<Command> := [];
      while k < |ticks| && !stop
        invariant 0 <= k <= |ticks| && Valid()
        invariant written == old(written) + out
        invariant !stop ==> Run(old(View()), ticks, connected)
                              == Step(Run(View(), ticks[k..], connected).lane, out + Run(View(), ticks[k..], connected).out)
        invariant stop ==> Run(old(View()), ticks, connected) == Step(View(), out)
        decreases |ticks| - k, !stop
      {
        ghost var before := View();
        ghost var r1 := Iteration(before, ticks[k], connected).0;
        ghost var rest := Run(r1.lane, ticks[k + 1..], connected);
        assert ticks[k..][1..] == ticks[k + 1..];
        assert !Iteration(before, ticks[k], connected).1 ==>
                 Run(before, ticks[k..], connected) == Step(rest.lane, r1.out + rest.out);
        var t := ticks[k];
        if t.frame.None? {
          stop := true;
        } else {
          if t.frame.value.near {
            ProcessFrame(t.frame.value.boxes);
          }
          stop := t.quit;
        }
        Reassociate(out, r1.out, rest.out);
        Reassociate(old(written), out, r1.out);
        out := out + r1.out;
        k := k + 1;
      }
      if !stop {
        assert ticks[k..] == [];
      }
    }
  }
}
