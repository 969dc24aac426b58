/** The parking ledger (db_operations.py over the schema of db_config.py) as two in-memory
    tables. The SQL of each helper is given by a pure function over `Tables`; the class
    `Database` holds the tables as fields and its methods are proved to perform exactly those
    functions. A failing database call is an input (`fault`): the helper's `except` branch rolls
    the transaction back, so the tables are unchanged and the helper returns None / False. */
module Ledger {
  import opened Text

  /** A row of `parking_entries`. `amount` is None for a NULL `amount_paid`. */
  datatype Session = Session(
    id: nat, plate: string, entry: int, exit: Option<int>,
    paid: bool, payTime: Option<int>, amount: Option<int>)

  /** A row of `alerts`. */
  datatype Alert = Alert(id: nat, kind: string, plate: string, msg: string, time: int, isRead: bool)

  /** Both tables and the next values of their SERIAL id sequences. */
  datatype Tables = Tables(sessions: seq<Session>, alerts: seq<Alert>, nextSessionId: nat, nextAlertId: nat)

  /** Whether the reading query and the writing statement of one decision fail. */
  datatype Faults = Faults(readFails: bool, writeFails: bool)

  const EmptyTables := Tables([], [], 1, 1)

  /** A freshly inserted session: `payment_status` defaults to FALSE and the other columns
      to NULL (db_config.py:45-49). */
  function NewSession(id: nat, plate: string, now: int): Session {
    Session(id, plate, now, None, false, None, None)
  }

  /** A freshly inserted alert: `timestamp` defaults to now and `is_read` to FALSE
      (db_config.py:65-66). */
  function NewAlert(id: nat, kind: string, plate: string, msg: string, now: int): Alert {
    Alert(id, kind, plate, msg, now, false)
  }

  /** SERIAL ids start at 1, are increasing in insertion order and below the next value. */
  predicate ValidTables(t: Tables) {
    0 < t.nextSessionId && 0 < t.nextAlertId
    && (forall i :: 0 <= i < |t.sessions| ==> 0 < t.sessions[i].id < t.nextSessionId)
    && (forall i :: 0 < i < |t.sessions| ==> t.sessions[i - 1].id < t.sessions[i].id)
    && (forall i :: 0 <= i < |t.alerts| ==> 0 < t.alerts[i].id < t.nextAlertId)
    && (forall i :: 0 < i < |t.alerts| ==> t.alerts[i - 1].id < t.alerts[i].id)
  }

  // ---------------------------------------------------------------- history of the tables

  /** What any helper may do to an existing session row: never delete it, never change its
      id, plate or entry time, and never undo a payment. */
  predicate RowEvolves(a: Session, b: Session) {
    b.id == a.id && b.plate == a.plate && b.entry == a.entry
    && (a.paid ==> b.paid && b.payTime == a.payTime && b.amount == a.amount)
  }

  /** An existing alert only ever has its read flag set. */
  predicate AlertEvolves(a: Alert, b: Alert) {
    b == a.(isRead := b.isRead) && (a.isRead ==> b.isRead)
  }

  predicate Evolves(t: Tables, u: Tables) {
    |t.sessions| <= |u.sessions| && |t.alerts| <= |u.alerts|
    && t.nextSessionId <= u.nextSessionId && t.nextAlertId <= u.nextAlertId
    && (forall i :: 0 <= i < |t.sessions| ==> RowEvolves(t.sessions[i], u.sessions[i]))
    && (forall i :: 0 <= i < |t.alerts| ==> AlertEvolves(t.alerts[i], u.alerts[i]))
  }

  lemma EvolvesReflexive(t: Tables)
    ensures Evolves(t, t)
  {
  }

  lemma EvolvesTransitive(t: Tables, u: Tables, v: Tables)
    requires Evolves(t, u) && Evolves(u, v)
    ensures Evolves(t, v)
  {
  }

  // ---------------------------------------------------------------- queries

  /** A row the query `WHERE plate_number = plate [AND payment_status = FALSE]` selects. */
  predicate Selected(s: Session, plate: string, unpaidOnly: bool) {
    s.plate == plate && (unpaidOnly ==> !s.paid)
  }

  predicate HasSelected(rows: seq<Session>, plate: string, unpaidOnly: bool) {
    exists i | 0 <= i < |rows| :: Selected(rows[i], plate, unpaidOnly)
  }

  /** Row k is a first row of `... ORDER BY entry_timestamp DESC`. */
  predicate IsLatestAt(rows: seq<Session>, plate: string, unpaidOnly: bool, k: int) {
    0 <= k < |rows| && Selected(rows[k], plate, unpaidOnly)
    && forall j :: 0 <= j < |rows| && Selected(rows[j], plate, unpaidOnly) ==> rows[j].entry <= rows[k].entry
  }

  function LatestAmong(rows: seq<Session>, plate: string, unpaidOnly: bool, n: nat): (r: Option<nat>)
    requires n <= |rows|
    ensures r.None? <==> forall i :: 0 <= i < n ==> !Selected(rows[i], plate, unpaidOnly)
    ensures r.Some? ==> r.value < n && Selected(rows[r.value], plate, unpaidOnly)
    ensures r.Some? ==> forall i :: 0 <= i < n && Selected(rows[i], plate, unpaidOnly) ==> rows[i].entry <= rows[r.value].entry
  {
    if n == 0 then None
    else
      var r := LatestAmong(rows, plate, unpaidOnly, n - 1);
      if !Selected(rows[n - 1], plate, unpaidOnly) then r
      else if r.None? || rows[r.value].entry <= rows[n - 1].entry then Some(n - 1)
      else r
  }

  /** `ORDER BY entry_timestamp DESC LIMIT 1`. SQL leaves the order of equal timestamps open;
      this model takes the later-inserted row, and every contract below holds for any choice. */
  function LatestIndex(rows: seq<Session>, plate: string, unpaidOnly: bool): (r: Option<nat>)
    ensures r.None? <==> !HasSelected(rows, plate, unpaidOnly)
    ensures r.Some? ==> IsLatestAt(rows, plate, unpaidOnly, r.value)
  {
    LatestAmong(rows, plate, unpaidOnly, |rows|)
  }

  /** is_payment_complete (db_operations.py:142-160): `payment_status` of the plate's latest
      session, False without one. A failing query also gives False; callers model that. */
  function IsPaymentComplete(rows: seq<Session>, plate: string): bool {
    match LatestIndex(rows, plate, false)
    case None => false
    case Some(k) => rows[k].paid
  }

  lemma PaymentCompleteMeans(rows: seq<Session>, plate: string)
    ensures IsPaymentComplete(rows, plate) ==> exists k :: IsLatestAt(rows, plate, false, k) && rows[k].paid
    ensures !IsPaymentComplete(rows, plate) ==>
              !HasSelected(rows, plate, false) || exists k :: IsLatestAt(rows, plate, false, k) && !rows[k].paid
  {
    var m := LatestIndex(rows, plate, false);
    if m.Some? {
      assert IsLatestAt(rows, plate, false, m.value);
    }
  }

  /** get_last_unpaid_entry (db_operations.py:162-187): the plate's latest session with
      `payment_status = FALSE`. A failing query gives None; callers model that. */
  function GetLastUnpaidEntry(rows: seq<Session>, plate: string): Option<Session> {
    match LatestIndex(rows, plate, true)
    case None => None
    case Some(k) => Some(rows[k])
  }

  lemma LastUnpaidMeans(rows: seq<Session>, plate: string)
    ensures GetLastUnpaidEntry(rows, plate).None? <==> !HasSelected(rows, plate, true)
    ensures GetLastUnpaidEntry(rows, plate).Some? ==>
              exists k :: IsLatestAt(rows, plate, true, k) && rows[k] == GetLastUnpaidEntry(rows, plate).value
  {
    var m := LatestIndex(rows, plate, true);
    if m.Some? {
      assert IsLatestAt(rows, plate, true, m.value);
    }
  }

  /** `is_vehicle_inside` is imported by car_entry.py but db_operations.py does not define it.
      This model ASSUMES the meaning its callers rely on: some session of the plate has no
      exit time. */
  predicate IsVehicleInside(rows: seq<Session>, plate: string) {
    exists i | 0 <= i < |rows| :: rows[i].plate == plate && rows[i].exit.None?
  }

  /** At most one session per plate is open: the "vehicle is inside" invariant. */
  predicate AtMostOneOpen(rows: seq<Session>) {
    forall i, j :: 0 <= i < j < |rows| && rows[i].plate == rows[j].plate ==> rows[i].exit.Some? || rows[j].exit.Some?
  }

  /** get_parking_duration (db_operations.py:189-193): `int((now - entry).total_seconds() / 60)`
      on whole seconds; `int` truncates toward zero, also for an entry time in the future. */
  function GetParkingDuration(entry: int, now: int): (m: int)
    ensures entry <= now ==> 0 <= 60 * m <= now - entry < 60 * m + 60
    ensures now < entry ==> now - entry <= 60 * m <= 0 && 60 * m - 60 < now - entry
  {
    var d := now - entry;
    if d >= 0 then d / 60 else -((-d) / 60)
  }

  // ---------------------------------------------------------------- ordered, limited queries

  /** `s` is ordered by `key`, largest first. */
  predicate SortedDesc<T>(s: seq<T>, key: T -> int) {
    forall i, j :: 0 <= i < j < |s| ==> key(s[i]) >= key(s[j])
  }

  /** Places `x` into `s` after every element whose key is at least x's. */
  function InsertDesc<T>(x: T, s: seq<T>, key: T -> int): (r: seq<T>)
    ensures |r| == |s| + 1
  {
    if s == [] || key(s[0]) < key(x) then [x] + s else [s[0]] + InsertDesc(x, s[1..], key)
  }

  lemma {:induction false} InsertDescPermutes<T>(x: T, s: seq<T>, key: T -> int)
    ensures multiset(InsertDesc(x, s, key)) == multiset(s) + multiset{x}
  {
    if s != [] && key(s[0]) >= key(x) {
      InsertDescPermutes(x, s[1..], key);
      assert s == [s[0]] + s[1..];
    }
  }

  /** Inserting into an ordered sequence keeps it ordered; the first element is then `x` or
      the first of `s`. */
  lemma {:induction false} InsertDescSorted<T>(x: T, s: seq<T>, key: T -> int)
    requires SortedDesc(s, key)
    ensures var r := InsertDesc(x, s, key);
            SortedDesc(r, key) && (r[0] == x || (s != [] && r[0] == s[0]))
  {
    if s != [] && key(s[0]) >= key(x) {
      var t := InsertDesc(x, s[1..], key);
      InsertDescSorted(x, s[1..], key);
      assert InsertDesc(x, s, key) == [s[0]] + t;
      assert forall j :: 0 <= j < |t| ==> key(t[0]) >= key(t[j]);
      assert key(s[0]) >= key(t[0]);
    }
  }

  /** `ORDER BY key DESC`: a reordering of `s`, largest key first. Equal keys come out
      later-inserted first, the choice `LatestIndex` makes too. */
  function SortDesc<T>(s: seq<T>, key: T -> int): (r: seq<T>)
    ensures |r| == |s|
  {
    if s == [] then [] else InsertDesc(s[0], SortDesc(s[1..], key), key)
  }

  /** The sort reorders `s` and orders it. */
  lemma {:induction false} SortDescMeans<T>(s: seq<T>, key: T -> int)
    ensures multiset(SortDesc(s, key)) == multiset(s) && SortedDesc(SortDesc(s, key), key)
  {
    if s != [] {
      SortDescMeans(s[1..], key);
      InsertDescPermutes(s[0], SortDesc(s[1..], key), key);
      InsertDescSorted(s[0], SortDesc(s[1..], key), key);
      assert s == [s[0]] + s[1..];
    }
  }

  /** `ORDER BY key DESC LIMIT limit`; a negative LIMIT is an SQL error. */
  function TopByKey<T>(s: seq<T>, key: T -> int, limit: nat): seq<T> {
    var all := SortDesc(s, key);
    all[..if limit < |all| then limit else |all|]
  }

  /** Proof step: in an ordered sequence, every element after position `m` has a key no
      larger than any element before it. */
  lemma SortedSuffixBelow<T>(all: seq<T>, key: T -> int, m: nat)
    requires SortedDesc(all, key) && m <= |all|
    ensures SortedDesc(all[..m], key)
    ensures multiset(all[..m]) <= multiset(all) && multiset(all) - multiset(all[..m]) == multiset(all[m..])
    ensures forall x, i :: x in multiset(all[m..]) && 0 <= i < m ==> key(x) <= key(all[i])
  {
    assert all == all[..m] + all[m..];
    forall x, i | x in multiset(all[m..]) && 0 <= i < m
      ensures key(x) <= key(all[i])
    {
      var j :| 0 <= j < |all[m..]| && all[m..][j] == x;
      assert all[m + j] == x;
    }
  }

  /** The first `limit` rows by descending key are ordered, are rows of `s`, are as many as
      `s` allows, and leave out no row with a larger key than any of them. */
  lemma TopByKeyMeans<T>(s: seq<T>, key: T -> int, limit: nat)
    ensures var r := TopByKey(s, key, limit);
            && |r| == (if limit < |s| then limit else |s|)
            && SortedDesc(r, key) && multiset(r) <= multiset(s)
            && forall x, i :: x in multiset(s) - multiset(r) && 0 <= i < |r| ==> key(x) <= key(r[i])
  {
    var all := SortDesc(s, key);
    SortDescMeans(s, key);
    SortedSuffixBelow(all, key, if limit < |all| then limit else |all|);
  }

  function EntryKey(s: Session): int { s.entry }

  function AlertTime(a: Alert): int { a.time }

  /** The rows `WHERE plate_number = plate`, in table order. */
  function PlateRows(rows: seq<Session>, plate: string): (r: seq<Session>)
    ensures forall x :: multiset(r)[x] == if x.plate == plate then multiset(rows)[x] else 0
  {
    if rows == [] then []
    else
      assert rows == [rows[0]] + rows[1..];
      (if rows[0].plate == plate then [rows[0]] else []) + PlateRows(rows[1..], plate)
  }

  /** get_parking_history (db_operations.py:195-222): the plate's sessions, latest entry first,
      at most `limit` of them; [] when the query fails, a negative LIMIT included. */
  function GetParkingHistory(rows: seq<Session>, plate: string, limit: int, fault: bool): seq<Session> {
    if fault || limit < 0 then [] else TopByKey(PlateRows(rows, plate), EntryKey, limit)
  }

  /** get_recent_alerts (db_operations.py:95-119): the alerts, newest first, at most `limit`
      of them; [] when the query fails, a negative LIMIT included. */
  function GetRecentAlerts(alerts: seq<Alert>, limit: int, fault: bool): seq<Alert> {
    if fault || limit < 0 then [] else TopByKey(alerts, AlertTime, limit)
  }

  /** get_parking_history returns only the plate's sessions, newest entry first, as many as
      the plate has up to `limit`, and leaves out none newer than one it returns. */
  lemma ParkingHistoryMeans(rows: seq<Session>, plate: string, limit: nat)
    ensures var r := GetParkingHistory(rows, plate, limit, false);
            && |r| == (if limit < |PlateRows(rows, plate)| then limit else |PlateRows(rows, plate)|)
            && multiset(r) <= multiset(rows)
            && (forall i :: 0 <= i < |r| ==> r[i].plate == plate)
            && (forall i, j :: 0 <= i < j < |r| ==> r[i].entry >= r[j].entry)
            && (forall x, i :: x in multiset(rows) - multiset(r) && x.plate == plate && 0 <= i < |r| ==>
                  x.entry <= r[i].entry)
  {
    var p := PlateRows(rows, plate);
    var r := TopByKey(p, EntryKey, limit);
    assert r == GetParkingHistory(rows, plate, limit, false);
    TopByKeyMeans(p, EntryKey, limit);
    PlateRowsMeans(rows, plate, r);
    forall x, i | x in multiset(rows) - multiset(r) && x.plate == plate && 0 <= i < |r|
      ensures x.entry <= r[i].entry
    {
      assert x in multiset(p) - multiset(r);
      assert EntryKey(x) <= EntryKey(r[i]);
    }
  }

  /** Proof step: part of the plate's rows is part of the table, and holds only the plate's rows. */
  lemma PlateRowsMeans(rows: seq<Session>, plate: string, r: seq<Session>)
    requires multiset(r) <= multiset(PlateRows(rows, plate))
    ensures multiset(r) <= multiset(rows) && forall i :: 0 <= i < |r| ==> r[i].plate == plate
  {
    forall i | 0 <= i < |r|
      ensures r[i].plate == plate
    {
      assert r[i] in multiset(r);
    }
  }

  /** The first row of a plate's history is a latest session of the plate, the row `ORDER BY
      entry_timestamp DESC LIMIT 1` selects in is_payment_complete and update_exit_timestamp;
      the history is empty exactly when the plate has no session. */
  lemma ParkingHistoryHead(rows: seq<Session>, plate: string, limit: nat)
    requires 0 < limit
    ensures var r := GetParkingHistory(rows, plate, limit, false);
            && (r != [] <==> HasSelected(rows, plate, false))
            && (r != [] ==> exists k :: IsLatestAt(rows, plate, false, k) && rows[k] == r[0])
  {
    var r := GetParkingHistory(rows, plate, limit, false);
    ParkingHistoryMeans(rows, plate, limit);
    if HasSelected(rows, plate, false) {
      var j :| 0 <= j < |rows| && Selected(rows[j], plate, false);
      assert rows[j] in multiset(PlateRows(rows, plate));
    }
    if r != [] {
      assert r[0] in multiset(rows);
      var k :| 0 <= k < |rows| && rows[k] == r[0];
      HeadIsNewest(rows, plate, r);
      assert IsLatestAt(rows, plate, false, k);
    }
  }

  /** Proof step: an ordered part of the plate's rows that leaves out none newer than its own
      rows starts with a row no older than any row of the plate. */
  lemma HeadIsNewest(rows: seq<Session>, plate: string, r: seq<Session>)
    requires r != []
    requires forall i, j :: 0 <= i < j < |r| ==> r[i].entry >= r[j].entry
    requires forall x, i :: x in multiset(rows) - multiset(r) && x.plate == plate && 0 <= i < |r| ==>
               x.entry <= r[i].entry
    ensures forall j :: 0 <= j < |rows| && rows[j].plate == plate ==> rows[j].entry <= r[0].entry
  {
    forall j | 0 <= j < |rows| && rows[j].plate == plate
      ensures rows[j].entry <= r[0].entry
    {
      if rows[j] in multiset(r) {
        var m :| 0 <= m < |r| && r[m] == rows[j];
      } else {
        assert rows[j] in multiset(rows) - multiset(r);
      }
    }
  }

  /** get_recent_alerts returns alerts of the table, newest first, as many as there are up to
      `limit`, and leaves out none newer than one it returns. */
  lemma RecentAlertsMeans(alerts: seq<Alert>, limit: nat)
    ensures var r := GetRecentAlerts(alerts, limit, false);
            && |r| == (if limit < |alerts| then limit else |alerts|)
            && multiset(r) <= multiset(alerts)
            && (forall i, j :: 0 <= i < j < |r| ==> r[i].time >= r[j].time)
            && (forall x, i :: x in multiset(alerts) - multiset(r) && 0 <= i < |r| ==> x.time <= r[i].time)
  {
    var r := TopByKey(alerts, AlertTime, limit);
    assert r == GetRecentAlerts(alerts, limit, false);
    TopByKeyMeans(alerts, AlertTime, limit);
    assert forall i, j :: 0 <= i < j < |r| ==> AlertTime(r[i]) >= AlertTime(r[j]);
    forall x, i | x in multiset(alerts) - multiset(r) && 0 <= i < |r|
      ensures x.time <= r[i].time
    {
      assert AlertTime(x) <= AlertTime(r[i]);
    }
  }

  // ---------------------------------------------------------------- updates

  function MapRows<T>(s: seq<T>, f: T -> T): (r: seq<T>)
    ensures |r| == |s| && forall i :: 0 <= i < |s| ==> r[i] == f(s[i])
  {
    if s == [] then [] else [f(s[0])] + MapRows(s[1..], f)
  }

  /** The WHERE clause of update_payment_status. */
  predicate Payable(s: Session, plate: string, entry: int) {
    s.plate == plate && s.entry == entry && !s.paid
  }

  predicate HasPayable(rows: seq<Session>, plate: string, entry: int) {
    exists i | 0 <= i < |rows| :: Payable(rows[i], plate, entry)
  }

  /** The UPDATE of update_payment_status: every row the guard selects becomes paid at `now`
      with `amount`; no other row changes; afterwards the guard selects nothing. */
  function PayUpdate(rows: seq<Session>, plate: string, entry: int, amount: Option<int>, now: int): (r: seq<Session>)
    ensures |r| == |rows|
    ensures forall i :: 0 <= i < |rows| && !Payable(rows[i], plate, entry) ==> r[i] == rows[i]
    ensures forall i :: 0 <= i < |rows| && Payable(rows[i], plate, entry) ==>
              r[i] == rows[i].(paid := true, payTime := Some(now), amount := amount)
    ensures !HasPayable(r, plate, entry)
  {
    MapRows(rows, (s: Session) => if Payable(s, plate, entry) then s.(paid := true, payTime := Some(now), amount := amount) else s)
  }

  /** The UPDATE of update_exit_timestamp: the exit time of the plate's latest row (by entry
      time) becomes `now`, whether or not it already had one; no other row changes. */
  function ExitUpdate(rows: seq<Session>, plate: string, now: int): seq<Session> {
    match LatestIndex(rows, plate, false)
    case None => rows
    case Some(k) => rows[k := rows[k].(exit := Some(now))]
  }

  lemma ExitUpdateMeans(rows: seq<Session>, plate: string, now: int)
    ensures !HasSelected(rows, plate, false) ==> ExitUpdate(rows, plate, now) == rows
    ensures HasSelected(rows, plate, false) ==>
              exists k :: IsLatestAt(rows, plate, false, k)
                          && ExitUpdate(rows, plate, now) == rows[k := rows[k].(exit := Some(now))]
  {
    var m := LatestIndex(rows, plate, false);
    if m.Some? {
      assert IsLatestAt(rows, plate, false, m.value);
    }
  }

  /** The UPDATE of mark_alert_as_read. */
  function MarkRead(alerts: seq<Alert>, id: nat): (r: seq<Alert>)
    ensures |r| == |alerts|
    ensures forall i :: 0 <= i < |alerts| ==> r[i] == (if alerts[i].id == id then alerts[i].(isRead := true) else alerts[i])
  {
    MapRows(alerts, (a: Alert) => if a.id == id then a.(isRead := true) else a)
  }

  predicate HasAlert(alerts: seq<Alert>, id: nat) {
    exists i | 0 <= i < |alerts| :: alerts[i].id == id
  }

  // ---------------------------------------------------------------- the helpers, with rollback

  /** add_parking_entry (db_operations.py:4-22). The result is the new tables and the id
      RETURNING gives, or None when the call fails and is rolled back. */
  function EntryAdded(t: Tables, plate: string, now: int, fault: bool): (Tables, Option<nat>) {
    if fault then (t, None)
    else
      var id := t.nextSessionId;
      (t.(sessions := t.sessions + [NewSession(id, plate, now)], nextSessionId := id + 1), Some(id))
  }

  /** update_payment_status (db_operations.py:24-47): True iff the UPDATE matched a row. */
  function PaymentUpdated(t: Tables, plate: string, entry: int, amount: Option<int>, now: int, fault: bool): (Tables, bool) {
    if fault then (t, false)
    else (t.(sessions := PayUpdate(t.sessions, plate, entry, amount, now)), HasPayable(t.sessions, plate, entry))
  }

  /** update_exit_timestamp (db_operations.py:49-73): True iff the UPDATE matched a row. */
  function ExitUpdated(t: Tables, plate: string, now: int, fault: bool): (Tables, bool) {
    if fault then (t, false)
    else (t.(sessions := ExitUpdate(t.sessions, plate, now)), HasSelected(t.sessions, plate, false))
  }

  /** add_alert (db_operations.py:75-93). */
  function AlertAdded(t: Tables, kind: string, plate: string, msg: string, now: int, fault: bool): (Tables, Option<nat>) {
    if fault then (t, None)
    else
      var id := t.nextAlertId;
      (t.(alerts := t.alerts + [NewAlert(id, kind, plate, msg, now)], nextAlertId := id + 1), Some(id))
  }

  /** mark_alert_as_read (db_operations.py:121-140). */
  function AlertMarkedRead(t: Tables, id: nat, fault: bool): (Tables, bool) {
    if fault then (t, false)
    else (t.(alerts := MarkRead(t.alerts, id)), HasAlert(t.alerts, id))
  }

  /** Replacing the sessions by rows that each evolve from the old ones keeps the tables well
      formed, as an evolution. */
  lemma RowsEvolveKeepValid(t: Tables, rows: seq<Session>)
    requires ValidTables(t) && |rows| == |t.sessions|
    requires forall i :: 0 <= i < |rows| ==> RowEvolves(t.sessions[i], rows[i])
    ensures ValidTables(t.(sessions := rows)) && Evolves(t, t.(sessions := rows))
  {
  }

  /** Likewise for alerts. */
  lemma AlertsEvolveKeepValid(t: Tables, alerts: seq<Alert>)
    requires ValidTables(t) && |alerts| == |t.alerts|
    requires forall i :: 0 <= i < |alerts| ==> AlertEvolves(t.alerts[i], alerts[i])
    ensures ValidTables(t.(alerts := alerts)) && Evolves(t, t.(alerts := alerts))
  {
  }

  /** add_parking_entry appends exactly one open, unpaid session for the plate, entered now,
      under an id no existing session has, and returns that id; on failure nothing changes. */
  lemma EntryAddedSpec(t: Tables, plate: string, now: int, fault: bool)
    requires ValidTables(t)
    ensures var res := EntryAdded(t, plate, now, fault);
            ValidTables(res.0) && Evolves(t, res.0) && res.0.alerts == t.alerts
            && (fault ==> res == (t, None))
            && (!fault ==> res.1.Some? && 0 < res.1.value
                           && (forall i :: 0 <= i < |t.sessions| ==> t.sessions[i].id != res.1.value)
                           && res.0.sessions == t.sessions + [Session(res.1.value, plate, now, None, false, None, None)])
  {
  }

  /** update_payment_status marks paid, at `now` and with `amount`, exactly the sessions of the
      plate with that entry time that were unpaid, and reports whether there were any; on
      failure nothing changes. */
  lemma PaymentUpdatedSpec(t: Tables, plate: string, entry: int, amount: Option<int>, now: int, fault: bool)
    requires ValidTables(t)
    ensures var res := PaymentUpdated(t, plate, entry, amount, now, fault);
            ValidTables(res.0) && Evolves(t, res.0)
            && res.0.alerts == t.alerts && |res.0.sessions| == |t.sessions|
            && (fault ==> res == (t, false))
            && (!fault ==> (res.1 <==> exists i | 0 <= i < |t.sessions| :: Payable(t.sessions[i], plate, entry)))
            && (!fault ==> forall i :: 0 <= i < |t.sessions| ==>
                  res.0.sessions[i] == if Payable(t.sessions[i], plate, entry)
                                       then t.sessions[i].(paid := true, payTime := Some(now), amount := amount)
                                       else t.sessions[i])
  {
    if !fault {
      var p := PayUpdate(t.sessions, plate, entry, amount, now);
      assert forall i :: 0 <= i < |t.sessions| ==> RowEvolves(t.sessions[i], p[i]);
      RowsEvolveKeepValid(t, p);
    }
  }

  /** update_payment_status keeps the tables well formed and only lets them evolve; it
      records no exit and opens no session. */
  lemma PaymentUpdatedKeeps(t: Tables, plate: string, entry: int, amount: Option<int>, now: int, fault: bool)
    requires ValidTables(t)
    ensures var u := PaymentUpdated(t, plate, entry, amount, now, fault).0;
            && ValidTables(u) && Evolves(t, u) && NoExitRecorded(t.sessions, u.sessions)
            && (ExitsPaid(t.sessions) ==> ExitsPaid(u.sessions))
            && (AtMostOneOpen(t.sessions) ==> AtMostOneOpen(u.sessions))
  {
    PaymentUpdatedSpec(t, plate, entry, amount, now, fault);
    if AtMostOneOpen(t.sessions) {
      UpdatesKeepOneOpen(t.sessions, plate, entry, amount, now);
    }
    if ExitsPaid(t.sessions) {
      UpdatesKeepExitsPaid(t.sessions, plate, entry, amount, now, 0);
    }
  }

  /** update_exit_timestamp sets the exit time of the plate's latest session, whether or not it
      had one, and of no other; it returns False when the plate has no session or on failure,
      and then nothing changes. */
  lemma ExitUpdatedSpec(t: Tables, plate: string, now: int, fault: bool)
    requires ValidTables(t)
    ensures var res := ExitUpdated(t, plate, now, fault);
            ValidTables(res.0) && Evolves(t, res.0) && res.0.alerts == t.alerts
            && (!res.1 ==> res.0 == t)
            && (!fault ==> (res.1 <==> exists i | 0 <= i < |t.sessions| :: t.sessions[i].plate == plate))
            && (res.1 ==> exists k :: IsLatestAt(t.sessions, plate, false, k)
                                      && res.0.sessions == t.sessions[k := t.sessions[k].(exit := Some(now))])
  {
    var res := ExitUpdated(t, plate, now, fault);
    var m := LatestIndex(t.sessions, plate, false);
    if !fault && m.Some? {
      var k := m.value;
      var u := t.sessions[k := t.sessions[k].(exit := Some(now))];
      assert ExitUpdate(t.sessions, plate, now) == u;
      assert IsLatestAt(t.sessions, plate, false, k);
      assert forall i :: 0 <= i < |t.sessions| ==> RowEvolves(t.sessions[i], u[i]);
      RowsEvolveKeepValid(t, u);
      assert res == (t.(sessions := u), true);
    } else if !fault {
      assert ExitUpdate(t.sessions, plate, now) == t.sessions;
      assert res == (t, false);
    }
  }

  /** update_exit_timestamp keeps the tables well formed and only lets them evolve; it opens
      no session, and when the plate's latest session is paid it lets out only paid sessions. */
  lemma ExitUpdatedKeeps(t: Tables, plate: string, now: int, fault: bool)
    requires ValidTables(t)
    ensures var u := ExitUpdated(t, plate, now, fault).0;
            && ValidTables(u) && Evolves(t, u) && |u.sessions| == |t.sessions|
            && (ExitsPaid(t.sessions) && IsPaymentComplete(t.sessions, plate) ==> ExitsPaid(u.sessions))
            && (AtMostOneOpen(t.sessions) ==> AtMostOneOpen(u.sessions))
  {
    ExitUpdatedSpec(t, plate, now, fault);
    if AtMostOneOpen(t.sessions) {
      UpdatesKeepOneOpen(t.sessions, plate, 0, None, now);
    }
    if ExitsPaid(t.sessions) {
      UpdatesKeepExitsPaid(t.sessions, plate, 0, None, now, 0);
    }
  }

  /** add_alert appends exactly one unread alert, stamped now, under a fresh id; on failure
      nothing changes. */
  lemma AlertAddedSpec(t: Tables, kind: string, plate: string, msg: string, now: int, fault: bool)
    requires ValidTables(t)
    ensures var res := AlertAdded(t, kind, plate, msg, now, fault);
            ValidTables(res.0) && Evolves(t, res.0) && res.0.sessions == t.sessions
            && (fault ==> res == (t, None))
            && (!fault ==> res.1.Some? && 0 < res.1.value
                           && (forall i :: 0 <= i < |t.alerts| ==> t.alerts[i].id != res.1.value)
                           && res.0.alerts == t.alerts + [Alert(res.1.value, kind, plate, msg, now, false)])
  {
  }

  /** mark_alert_as_read sets the read flag of the alert with that id and of no other, and
      returns False when there is none or on failure. */
  lemma AlertMarkedReadSpec(t: Tables, id: nat, fault: bool)
    requires ValidTables(t)
    ensures var res := AlertMarkedRead(t, id, fault);
            ValidTables(res.0) && Evolves(t, res.0) && res.0.sessions == t.sessions
            && |res.0.alerts| == |t.alerts|
            && (fault ==> res == (t, false))
            && (!fault ==> (res.1 <==> exists i | 0 <= i < |t.alerts| :: t.alerts[i].id == id))
            && (!fault ==> forall i :: 0 <= i < |t.alerts| ==>
                  res.0.alerts[i] == if t.alerts[i].id == id then t.alerts[i].(isRead := true) else t.alerts[i])
  {
    if !fault {
      var m := MarkRead(t.alerts, id);
      assert forall i :: 0 <= i < |t.alerts| ==> AlertEvolves(t.alerts[i], m[i]);
      AlertsEvolveKeepValid(t, m);
    }
  }

  // ---------------------------------------------------------------- properties

  /** A second update_payment_status for the same plate and entry time, after one that
      succeeded, finds nothing to update: it returns False and leaves the tables (so the
      amount and payment time) as they were. */
  lemma PaymentIdempotent(t: Tables, plate: string, entry: int, a1: Option<int>, t1: int, a2: Option<int>, t2: int, fault: bool)
    requires ValidTables(t)
    ensures var first := PaymentUpdated(t, plate, entry, a1, t1, false).0;
            PaymentUpdated(first, plate, entry, a2, t2, fault) == (first, false)
  {
    var first := PaymentUpdated(t, plate, entry, a1, t1, false).0;
    var again := PayUpdate(first.sessions, plate, entry, a2, t2);
    assert again == first.sessions;
    assert first.(sessions := again) == first;
  }

  /** Setting an exit time or a payment never opens a second session of a plate. */
  lemma UpdatesKeepOneOpen(rows: seq<Session>, plate: string, entry: int, amount: Option<int>, now: int)
    requires AtMostOneOpen(rows)
    ensures AtMostOneOpen(PayUpdate(rows, plate, entry, amount, now))
    ensures AtMostOneOpen(ExitUpdate(rows, plate, now))
  {
    var p := PayUpdate(rows, plate, entry, amount, now);
    assert forall i :: 0 <= i < |rows| ==> p[i].plate == rows[i].plate && p[i].exit == rows[i].exit;
  }

  /** No session has an exit time unless it is paid: the exit lane lets out paid cars only. */
  predicate ExitsPaid(rows: seq<Session>) {
    forall i :: 0 <= i < |rows| && rows[i].exit.Some? ==> rows[i].paid
  }

  /** `u` has the same sessions as `t`, in number and in exit times: no session was opened and
      no exit recorded. */
  predicate NoExitRecorded(t: seq<Session>, u: seq<Session>) {
    |u| == |t| && forall i :: 0 <= i < |t| ==> u[i].exit == t[i].exit
  }

  /** Payments and new sessions never break `ExitsPaid`, and neither does recording the exit
      of a plate whose latest session is paid. */
  lemma UpdatesKeepExitsPaid(rows: seq<Session>, plate: string, entry: int, amount: Option<int>, now: int, id: nat)
    requires ExitsPaid(rows)
    ensures ExitsPaid(PayUpdate(rows, plate, entry, amount, now))
    ensures ExitsPaid(rows + [NewSession(id, plate, now)])
    ensures IsPaymentComplete(rows, plate) ==> ExitsPaid(ExitUpdate(rows, plate, now))
  {
    var r := rows + [NewSession(id, plate, now)];
    assert forall i :: 0 <= i < |rows| ==> r[i] == rows[i];
  }

  /** Inserting a session for a plate that is not inside keeps at most one open session per plate. */
  lemma AdmitKeepsOneOpen(rows: seq<Session>, id: nat, plate: string, now: int)
    requires AtMostOneOpen(rows) && !IsVehicleInside(rows, plate)
    ensures AtMostOneOpen(rows + [NewSession(id, plate, now)])
    ensures IsVehicleInside(rows + [NewSession(id, plate, now)], plate)
  {
    var r := rows + [NewSession(id, plate, now)];
    assert r[|rows|].plate == plate && r[|rows|].exit.None?;
    forall i, j | 0 <= i < j < |r| && r[i].plate == r[j].plate
      ensures r[i].exit.Some? || r[j].exit.Some?
    {
      if j == |rows| {
        assert r[i] == rows[i];
      } else {
        assert r[i] == rows[i] && r[j] == rows[j];
      }
    }
  }

  // ---------------------------------------------------------------- the store

  class Database {
    var sessions: seq<Session>
    var alerts: seq<Alert>
    var nextSessionId: nat
    var nextAlertId: nat

    function State(): Tables
      reads this
    {
      Tables(sessions, alerts, nextSessionId, nextAlertId)
    }

    ghost predicate Valid()
      reads this
    {
      ValidTables(State())
    }

    constructor ()
      ensures Valid() && State() == EmptyTables
    {
      sessions, alerts := [], [];
      nextSessionId, nextAlertId := 1, 1;
    }

    method AddParkingEntry(plate: string, now: int, fault: bool) returns (id: Option<nat>)
      requires Valid()
      modifies this
      ensures Valid()
      ensures (State(), id) == EntryAdded(old(State()), plate, now, fault)
    {
      EntryAddedSpec(State(), plate, now, fault);
      if fault {
        id := None;
      } else {
        id := Some(nextSessionId);
        sessions := sessions + [NewSession(nextSessionId, plate, now)];
        nextSessionId := nextSessionId + 1;
      }
    }

    method UpdatePaymentStatus(plate: string, entry: int, amount: Option<int>, now: int, fault: bool) returns (ok: bool)
      requires Valid()
      modifies this
      ensures Valid()
      ensures (State(), ok) == PaymentUpdated(old(State()), plate, entry, amount, now, fault)
    {
      PaymentUpdatedSpec(State(), plate, entry, amount, now, fault);
      if fault {
        ok := false;
      } else {
        ok := HasPayable(sessions, plate, entry);
        sessions := PayUpdate(sessions, plate, entry, amount, now);
      }
    }

    method UpdateExitTimestamp(plate: string, now: int, fault: bool) returns (ok: bool)
      requires Valid()
      modifies this
      ensures Valid()
      ensures (State(), ok) == ExitUpdated(old(State()), plate, now, fault)
      ensures !ok ==> State() == old(State())
    {
      ExitUpdatedSpec(State(), plate, now, fault);
      if fault {
        ok := false;
      } else {
        ok := HasSelected(sessions, plate, false);
        sessions := ExitUpdate(sessions, plate, now);
      }
    }

    method AddAlert(kind: string, plate: string, msg: string, now: int, fault: bool) returns (id: Option<nat>)
      requires Valid()
      modifies this
      ensures Valid()
      ensures (State(), id) == AlertAdded(old(State()), kind, plate, msg, now, fault)
    {
      AlertAddedSpec(State(), kind, plate, msg, now, fault);
      if fault {
        id := None;
      } else {
        id := Some(nextAlertId);
        alerts := alerts + [NewAlert(nextAlertId, kind, plate, msg, now)];
        nextAlertId := nextAlertId + 1;
      }
    }

    method MarkAlertAsRead(id: nat, fault: bool) returns (ok: bool)
      requires Valid()
      modifies this
      ensures Valid()
      ensures (State(), ok) == AlertMarkedRead(old(State()), id, fault)
    {
      AlertMarkedReadSpec(State(), id, fault);
      if fault {
        ok := false;
      } else {
        ok := HasAlert(alerts, id);
        alerts := MarkRead(alerts, id);
      }
    }
  }
}
