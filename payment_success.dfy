/** The manual settlement of payment_success.py: `mark_payment_success(plate)` looks up the
    plate's latest unpaid session and marks it paid without an amount. `MarkPaid` is the call as
    a function over `Tables`; the method `MarkPaymentSuccess` performs it on a `Database`. */
module PaymentSuccess {
  import opened Text
  import opened Ledger

  /** The three messages the call prints. */
  datatype Outcome = Updated | UpdateFailed | NoUnpaidRecord

  /** `mark_payment_success(plate)` (payment_success.py:3-17) at clock reading `now`: the lookup
      can fail (`f.readFails`, seen as "no unpaid record") and so can the update
      (`f.writeFails`). The update is keyed by the plate and the entry time of the row found,
      with no amount. */
  function MarkPaid(db: Tables, plate: string, now: int, f: Faults): (Tables, Outcome) {
    var e := if f.readFails then None else GetLastUnpaidEntry(db.sessions, plate);
    if e.None? then (db, NoUnpaidRecord)
    else
      var res := PaymentUpdated(db, plate, e.value.entry, None, now, f.writeFails);
      (res.0, if res.1 then Updated else UpdateFailed)
  }

  /** Whether the update would also select session `i`: an unpaid session of the plate with
      the same entry time as session `k`. */
  predicate SharesEntry(rows: seq<Session>, plate: string, k: nat, i: nat)
    requires k < |rows| && i < |rows|
  {
    Payable(rows[i], plate, rows[k].entry)
  }

  /** The outcomes of the call. Without an unpaid session (or when the lookup fails) it changes
      nothing; when the update fails it changes nothing; otherwise the plate's latest unpaid
      session `k`, and every other unpaid session of the plate entered at the same time,
      becomes paid at `now` with no amount, and every session the update's WHERE clause does
      not select, the plate's older unpaid sessions included, is unchanged. */
  lemma MarkPaidCases(db: Tables, plate: string, now: int, f: Faults)
    requires ValidTables(db)
    ensures var r := MarkPaid(db, plate, now, f);
            && (r.1 == NoUnpaidRecord <==> f.readFails || !HasSelected(db.sessions, plate, true))
            && (r.1 == UpdateFailed <==> !f.readFails && HasSelected(db.sessions, plate, true) && f.writeFails)
            && (r.1 != Updated ==> r.0 == db)
            && (r.1 == Updated ==>
                  var k := LatestIndex(db.sessions, plate, true).value;
                  && IsLatestAt(db.sessions, plate, true, k)
                  && r.0.alerts == db.alerts && |r.0.sessions| == |db.sessions|
                  && r.0.nextSessionId == db.nextSessionId
                  && r.0.sessions[k] == db.sessions[k].(paid := true, payTime := Some(now), amount := None)
                  && (forall i :: 0 <= i < |db.sessions| && SharesEntry(db.sessions, plate, k, i) ==>
                        r.0.sessions[i] == db.sessions[i].(paid := true, payTime := Some(now), amount := None))
                  && forall i :: 0 <= i < |db.sessions| && !SharesEntry(db.sessions, plate, k, i) ==>
                       r.0.sessions[i] == db.sessions[i])
  {
    var r := MarkPaid(db, plate, now, f);
    LastUnpaidMeans(db.sessions, plate);
    if !f.readFails && HasSelected(db.sessions, plate, true) {
      var k := LatestIndex(db.sessions, plate, true).value;
      assert IsLatestAt(db.sessions, plate, true, k);
      var entry := db.sessions[k].entry;
      assert GetLastUnpaidEntry(db.sessions, plate) == Some(db.sessions[k]);
      assert Payable(db.sessions[k], plate, entry);
      PaymentUpdatedSpec(db, plate, entry, None, now, f.writeFails);
      if !f.writeFails {
        assert r == (db.(sessions := PayUpdate(db.sessions, plate, entry, None, now)), Updated);
      } else {
        assert r == (db, UpdateFailed);
      }
    } else {
      assert r == (db, NoUnpaidRecord);
    }
  }

  /** When the plate's unpaid sessions all have different entry times (as sessions inserted at
      different instants do), exactly the latest unpaid session changes. */
  lemma MarkPaidChangesOneRow(db: Tables, plate: string, now: int, f: Faults)
    requires ValidTables(db)
    requires forall i, j ::
               (0 <= i < j < |db.sessions| && Selected(db.sessions[i], plate, true) && Selected(db.sessions[j], plate, true))
               ==> db.sessions[i].entry != db.sessions[j].entry
    ensures var r := MarkPaid(db, plate, now, f);
            r.1 == Updated ==>
              var k := LatestIndex(db.sessions, plate, true).value;
              forall i :: 0 <= i < |db.sessions| && i != k ==> r.0.sessions[i] == db.sessions[i]
  {
    MarkPaidCases(db, plate, now, f);
    var r := MarkPaid(db, plate, now, f);
    if r.1 == Updated {
      var k := LatestIndex(db.sessions, plate, true).value;
      forall i | 0 <= i < |db.sessions| && i != k
        ensures r.0.sessions[i] == db.sessions[i]
      {
        if Selected(db.sessions[i], plate, true) {
          if i < k {
            assert db.sessions[i].entry != db.sessions[k].entry;
          } else {
            assert db.sessions[k].entry != db.sessions[i].entry;
          }
        }
      }
    }
  }

  /** The call keeps the ledger well formed and only lets it evolve; it records no exit and
      opens no session. */
  lemma MarkPaidKeeps(db: Tables, plate: string, now: int, f: Faults)
    requires ValidTables(db)
    ensures var u := MarkPaid(db, plate, now, f).0;
            && ValidTables(u) && Evolves(db, u) && NoExitRecorded(db.sessions, u.sessions)
            && (ExitsPaid(db.sessions) ==> ExitsPaid(u.sessions))
            && (AtMostOneOpen(db.sessions) ==> AtMostOneOpen(u.sessions))
  {
    var u := MarkPaid(db, plate, now, f).0;
    var e := if f.readFails then None else GetLastUnpaidEntry(db.sessions, plate);
    if e.Some? {
      PaymentUpdatedKeeps(db, plate, e.value.entry, None, now, f.writeFails);
      assert u == PaymentUpdated(db, plate, e.value.entry, None, now, f.writeFails).0;
    } else {
      assert u == db;
    }
  }

  // ---------------------------------------------------------------- repeated calls

  /** How many sessions of the plate are unpaid. */
  function UnpaidCount(rows: seq<Session>, plate: string): nat {
    if rows == [] then 0
    else (if Selected(rows[0], plate, true) then 1 else 0) + UnpaidCount(rows[1..], plate)
  }

  /** The count is zero exactly when the plate has no unpaid session. */
  lemma {:induction false} UnpaidCountZero(rows: seq<Session>, plate: string)
    ensures UnpaidCount(rows, plate) == 0 <==> !HasSelected(rows, plate, true)
  {
    if rows != [] {
      UnpaidCountZero(rows[1..], plate);
      if HasSelected(rows[1..], plate, true) {
        var i :| 0 <= i < |rows[1..]| && Selected(rows[1..][i], plate, true);
        assert Selected(rows[i + 1], plate, true);
      }
      if HasSelected(rows, plate, true) && !Selected(rows[0], plate, true) {
        var i :| 0 <= i < |rows| && Selected(rows[i], plate, true);
        assert rows[1..][i - 1] == rows[i];
      }
    }
  }

  /** Paying some of a plate's unpaid sessions, and unpaying none, lowers the count; strictly
      when at least one session is paid. */
  lemma {:induction false} UnpaidCountDrops(rows: seq<Session>, after: seq<Session>, plate: string, k: int)
    requires |after| == |rows|
    requires forall i :: 0 <= i < |rows| && Selected(after[i], plate, true) ==> Selected(rows[i], plate, true)
    ensures UnpaidCount(after, plate) <= UnpaidCount(rows, plate)
    ensures 0 <= k < |rows| && Selected(rows[k], plate, true) && !Selected(after[k], plate, true) ==>
              UnpaidCount(after, plate) < UnpaidCount(rows, plate)
  {
    if rows != [] {
      assert forall i :: 0 <= i < |rows| - 1 ==> rows[1..][i] == rows[i + 1] && after[1..][i] == after[i + 1];
      UnpaidCountDrops(rows[1..], after[1..], plate, k - 1);
    }
  }

  /** Each successful call lowers the plate's unpaid count, and the plate's next latest unpaid
      session, if any, entered strictly earlier than the one just paid. */
  lemma MarkPaidProgress(db: Tables, plate: string, now: int, f: Faults)
    requires ValidTables(db)
    ensures var r := MarkPaid(db, plate, now, f);
            r.1 == Updated ==>
              && UnpaidCount(r.0.sessions, plate) < UnpaidCount(db.sessions, plate)
              && (GetLastUnpaidEntry(r.0.sessions, plate).Some? ==>
                    GetLastUnpaidEntry(r.0.sessions, plate).value.entry
                      < GetLastUnpaidEntry(db.sessions, plate).value.entry)
  {
    MarkPaidCases(db, plate, now, f);
    var r := MarkPaid(db, plate, now, f);
    if r.1 == Updated {
      var rows, after := db.sessions, r.0.sessions;
      var k := LatestIndex(rows, plate, true).value;
      assert GetLastUnpaidEntry(rows, plate) == Some(rows[k]);
      assert after == PayUpdate(rows, plate, rows[k].entry, None, now);
      assert forall i :: 0 <= i < |rows| && Selected(after[i], plate, true) ==>
               !Payable(rows[i], plate, rows[k].entry) && after[i] == rows[i];
      UnpaidCountDrops(rows, after, plate, k);
      LastUnpaidMeans(after, plate);
      if GetLastUnpaidEntry(after, plate).Some? {
        var j := LatestIndex(after, plate, true).value;
        assert IsLatestAt(after, plate, true, j);
        assert after[j] == rows[j] && Selected(rows[j], plate, true);
      }
    }
  }

  /** Once the plate has no unpaid session, the call changes nothing and reports so. */
  lemma MarkPaidWhenNoneLeft(db: Tables, plate: string, now: int, f: Faults)
    requires UnpaidCount(db.sessions, plate) == 0
    ensures MarkPaid(db, plate, now, f) == (db, NoUnpaidRecord)
  {
    UnpaidCountZero(db.sessions, plate);
    LastUnpaidMeans(db.sessions, plate);
  }

  /** `n` calls for the same plate that all succeed in reaching the database. */
  function MarkPaidTimes(db: Tables, plate: string, now: int, n: nat): Tables
    decreases n
  {
    if n == 0 then db else MarkPaidTimes(MarkPaid(db, plate, now, Faults(false, false)).0, plate, now, n - 1)
  }

  /** As many calls as the plate has unpaid sessions leave it with none; any further call is
      then a no-op (`MarkPaidWhenNoneLeft`). */
  lemma {:induction false} RepeatedCallsPayAll(db: Tables, plate: string, now: int, n: nat)
    requires ValidTables(db) && UnpaidCount(db.sessions, plate) <= n
    ensures UnpaidCount(MarkPaidTimes(db, plate, now, n).sessions, plate) == 0
    decreases n
  {
    if n > 0 {
      var f := Faults(false, false);
      var u := MarkPaid(db, plate, now, f).0;
      MarkPaidKeeps(db, plate, now, f);
      MarkPaidCases(db, plate, now, f);
      if UnpaidCount(db.sessions, plate) == 0 {
        MarkPaidWhenNoneLeft(db, plate, now, f);
      } else {
        UnpaidCountZero(db.sessions, plate);
        MarkPaidProgress(db, plate, now, f);
      }
      RepeatedCallsPayAll(u, plate, now, n - 1);
    }
  }

  // ---------------------------------------------------------------- the procedure

  /** `mark_payment_success` on the database; the printed message is the outcome. */
  method MarkPaymentSuccess(db: Database, plate: string, now: int, f: Faults) returns (o: Outcome)
    requires db.Valid()
    modifies db
    ensures db.Valid()
    ensures (db.State(), o) == MarkPaid(old(db.State()), plate, now, f)
  {
    var entry := if f.readFails then None else GetLastUnpaidEntry(db.sessions, plate);
    if entry.None? {
      return NoUnpaidRecord;
    }
    var success := db.UpdatePaymentStatus(plate, entry.value.entry, None, now, f.writeFails);
    o := if success then Updated else UpdateFailed;
  }
}
