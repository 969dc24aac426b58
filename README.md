# Parking gate core (ANPR parking management), modelled in Dafny

The system runs a gated car park. Each vehicle is identified by its licence plate, read by a
camera and OCR. Three processes share one PostgreSQL ledger:

- **The entry lane** (`car_entry.py`). It votes over three plate reads. It refuses a plate
  that is already inside, raising a `DUPLICATE_ENTRY` alert and buzzing three times. It skips
  the last admitted plate if that plate comes back within five minutes. Otherwise it inserts
  a session and cycles the gate.
- **The exit lane** (`car_exit.py`). Plates arrive from the camera vote or as lines from the
  RFID reader. A plate whose latest session is paid is let out: its exit time is recorded and,
  on the camera path, the gate cycles. Any other plate raises an `UNAUTHORIZED_EXIT` alert, is
  buzzed at, and starts a 30-iteration cooldown that suppresses all detection.
- **The payment terminal** (`process_payment.py`). It reads `plate,balance` lines from the
  card reader. It charges 500 RWF per hour, rounded to the nearest franc, for the whole
  minutes since the plate's latest unpaid entry. It marks that session paid and writes back
  the new balance, or `I`.

`payment_success.py` marks a plate's latest unpaid session paid by hand.

## Modules

- **`Ledger`** (`ledger.dfy`) models the operations of `db_operations.py`:
  - The two tables are a value, `Tables`. Each operation is a function over `Tables` that
    takes a fault flag for a failing database call.
  - Every operation is proved to keep the tables well formed. It also obeys `Evolves`: ids
    are never reused, rows are never removed, a paid session stays paid, and the entry time
    and plate never change.
  - The class `Database` holds the same tables in fields, and its methods are proved to
    follow the functions.
  - The two history queries are modelled as an insertion sort by descending key followed by
    a `LIMIT`.
- **`Plates`** models the plate format check of both lanes, the "RA…" candidate extraction
  and the `Counter.most_common` vote.
- **`Text`** models the Python string builtins the core relies on: `strip`,
  `replace(c, "")`, `find`, `split`, the digit filter, and `int`/`str` on digit strings.
- **`Hardware`** holds the serial commands and their byte encoding.
- **`ExitLane`**, **`EntryLane`** and **`Payment`**:
  - Each models one process. Its decisions are step functions over a lane value, and they
    also return the commands written to the Arduino.
  - Each has a class that keeps the lane's state in fields, with methods proved to follow
    the step functions; `Operate` is the `while True` loop.
  - The loop-wide invariants are proved over any sequence of inputs:
    - the ledger stays well formed and only evolves;
    - no session gets an exit time without being paid;
    - no plate has two open sessions.
- **`PaymentSuccess`** models `mark_payment_success`, including what repeated calls do.

Clocks, the camera and the serial port are inputs:
- Each observation carries its OCR text, its clock reading `now` (whole seconds) and its
  database fault flags.
- Whether an Arduino is connected is a constructor argument.
- Written commands accumulate in a `written` sequence.

## Behaviour worth knowing

- **Insufficient balance.** The payment terminal writes `I` and raises no alert
  (process_payment.py:111-114).
- **Exit time.** `update_exit_timestamp` sets the exit time of the plate's latest session
  whether or not it already has one (db_operations.py:54-64). A plate whose latest session
  is paid and has already exited is let out again, and its exit time is overwritten.
- **Entry id 0.** The entry lane tests `if entry_id:` (car_entry.py:119), so an id of 0 would
  count as a failed insert. `SERIAL` ids start at 1, so this only matters in principle.
- **Payment by entry time.** `update_payment_status` updates every unpaid row of the plate
  with the given entry time, not only the row that was looked up (db_operations.py:29-38).
  `PaymentSuccess.MarkPaidChangesOneRow` shows that exactly one row changes when entry times
  are distinct.
- **Negative balance.** A negative balance `-N` in a payment line is read as `N`, because the
  digit filter drops the sign (process_payment.py:44).
- **Missing `is_vehicle_inside`.** `car_entry.py` imports `is_vehicle_inside` from
  `db_operations.py` (car_entry.py:9), but `db_operations.py` does not define it. As written,
  the import fails and the entry lane cannot start. The model gives the function the meaning
  its use implies: the plate has a session with no exit time.

## Model

| member | source | states |
|---|---|---|
| Text.StripMeans | car_exit.py:73 | `strip` removes a whitespace prefix and suffix and nothing else; the result neither starts nor ends with whitespace |
| Text.StripIdempotent | car_exit.py:135 | stripping a line that `main` already stripped changes nothing |
| Text.RemoveAll | car_exit.py:171 | `replace(" ", "")` leaves no space, keeps every other character with its multiplicity, and leaves a space-free string unchanged |
| Text.RemoveAllAppend | car_exit.py:171 | removal keeps the remaining characters in order: it distributes over concatenation |
| Text.Find | car_exit.py:174 | `find` gives -1 exactly when the pattern is absent, and otherwise the first index at which it occurs |
| Text.SplitCount | process_payment.py:35 | `split(',')` gives one more part than the line has commas |
| Text.SplitParts | process_payment.py:35 | no part of a split contains the separator |
| Text.SplitJoins | process_payment.py:35 | joining the parts with the separator rebuilds the line |
| Text.SplitJoin | process_payment.py:35 | splitting a join of separator-free parts returns exactly those parts |
| Text.FilterDigits | process_payment.py:44 | the digit filter keeps only digits, each digit with its multiplicity, and leaves an all-digit string unchanged |
| Text.FilterDigitsAppend | process_payment.py:44 | the filter keeps the digits in order: it distributes over concatenation |
| Text.NatToDecimal | process_payment.py:104 | `str(n)` is a non-empty digit string without a leading zero, except for "0" itself |
| Text.DecimalRoundTrip | process_payment.py:48 | `int(str(n)) == n` |
| Text.DecimalCanonical | process_payment.py:48 | a digit string without leading zeros is `str` of its value, so `int` and `str` are inverse on canonical strings |
| Plates.IsValidPlate | car_exit.py:51-63 | true exactly for seven characters: three upper-case letters, three digits, one upper-case letter |
| Plates.EntryCheckAgrees | car_entry.py:78-80 | on seven-character candidates, the entry lane's inline check accepts exactly what `is_valid_plate` accepts |
| Plates.ExtractCandidate | car_exit.py:173-177 | there is no candidate exactly when "RA" is absent or fewer than seven characters follow its first occurrence; otherwise the candidate is the seven characters starting at that occurrence |
| Plates.MostCommon | car_exit.py:183 | the vote returns a read of the buffer with the highest count, and among equally frequent reads the first one read |
| Plates.PluralityWins | car_exit.py:183 | a read more frequent than every other read always wins |
| Plates.VoteOfThree | car_exit.py:182-184 | over three reads, a plate read at least twice wins; three distinct reads elect the first |
| Hardware.Wire | process_payment.py:103-118 | a balance reply is the decimal digits of the balance (their value is the balance) followed by a newline; a rejection is `I` and a newline; each gate or buzzer command is a single character; exactly the two replies end with a newline |
| Hardware.WireInjective | car_exit.py:104-107 | different commands, and different balances, are never written as the same bytes |
| Ledger.LatestIndex | db_operations.py:147-153 | `ORDER BY entry_timestamp DESC LIMIT 1` finds no row exactly when the plate has none, and otherwise a row of the plate with the largest entry time |
| Ledger.PaymentCompleteMeans | db_operations.py:142-160 | `is_payment_complete` is True exactly when the plate's latest session is paid; False when there is no session or the latest is unpaid |
| Ledger.LastUnpaidMeans | db_operations.py:162-187 | `get_last_unpaid_entry` is None exactly when the plate has no unpaid session, and otherwise the unpaid session with the largest entry time |
| Ledger.GetParkingDuration | db_operations.py:189-193 | the duration counts whole minutes truncated toward zero, for past and future entry times alike |
| Ledger.SortDescMeans | db_operations.py:204-205 | `ORDER BY … DESC` returns a permutation of the rows with keys non-increasing |
| Ledger.TopByKeyMeans | db_operations.py:204-206 | `ORDER BY … DESC LIMIT n`: ordered rows of the input, `min(n, count)` of them, leaving out no row with a larger key than a returned one |
| Ledger.PlateRows | db_operations.py:204 | `WHERE plate_number = plate` keeps every row of the plate, with its multiplicity, and no other row |
| Ledger.ParkingHistoryMeans | db_operations.py:195-222 | `get_parking_history` returns only the plate's sessions, newest entry first, as many as the plate has up to the limit, omitting none newer than one it returns |
| Ledger.ParkingHistoryHead | db_operations.py:200-207 | the history is empty exactly when the plate has no session, and its first row is a latest session of the plate: the row the exit check and update select |
| Ledger.RecentAlertsMeans | db_operations.py:95-119 | `get_recent_alerts` returns alerts of the table, newest first, as many as exist up to the limit, omitting none newer than one it returns |
| Ledger.PayUpdate | db_operations.py:29-38 | the UPDATE pays, at `now` and with the amount, every unpaid row of the plate with that entry time, changes no other row, and afterwards selects nothing |
| Ledger.ExitUpdateMeans | db_operations.py:54-64 | without a session of the plate nothing changes; otherwise exactly the plate's latest session gets exit time `now` |
| Ledger.MarkRead | db_operations.py:126-131 | the alert with that id is marked read and every other alert is unchanged |
| Ledger.EntryAddedSpec | db_operations.py:4-22 | `add_parking_entry` appends one open, unpaid session for the plate entered at `now`, under a positive id no session has, and returns that id; on failure it changes nothing and returns None |
| Ledger.PaymentUpdatedSpec | db_operations.py:24-47 | `update_payment_status` returns True exactly when some unpaid row of the plate has that entry time; it pays exactly those rows and touches no alert; on failure it changes nothing |
| Ledger.PaymentUpdatedKeeps | db_operations.py:29-38 | a payment update keeps the tables well formed and evolving, opens no session and records no exit (same number of sessions, every exit time unchanged) |
| Ledger.ExitUpdatedSpec | db_operations.py:49-73 | `update_exit_timestamp` returns True exactly when the plate has a session (unless the call fails); it then sets the exit time of the plate's latest session only; on False nothing changes |
| Ledger.ExitUpdatedKeeps | db_operations.py:54-64 | recording an exit keeps the tables well formed and evolving, opens no session (same number of sessions), and lets out only paid sessions when the plate's latest session is paid |
| Ledger.AlertAddedSpec | db_operations.py:75-93 | `add_alert` appends one unread alert stamped `now` under a fresh id and returns it; sessions are untouched; on failure nothing changes |
| Ledger.AlertMarkedReadSpec | db_operations.py:121-140 | `mark_alert_as_read` returns True exactly when an alert has that id; it sets only that alert's read flag |
| Ledger.PaymentIdempotent | db_operations.py:29-41 | a second payment update for the same plate and entry time finds nothing: it returns False and keeps the first amount and payment time |
| Ledger.UpdatesKeepOneOpen | db_operations.py:29-64 | neither a payment nor an exit update creates a second open session of any plate |
| Ledger.UpdatesKeepExitsPaid | db_operations.py:9-64 | payments and inserts never give an unpaid session an exit time; neither does recording the exit of a plate whose latest session is paid |
| Ledger.AdmitKeepsOneOpen | car_entry.py:95-118 | inserting a session for a plate not inside keeps at most one open session per plate, and the plate is then inside |
| Ledger.Database.constructor | db_config.py:41-67 | the tables start empty, with ids counted from 1 |
| Ledger.Database.AddParkingEntry | db_operations.py:4-22 | the new state and returned id are those of `EntryAdded` (see `EntryAddedSpec`) |
| Ledger.Database.UpdatePaymentStatus | db_operations.py:24-47 | the new state and result are those of `PaymentUpdated` (see `PaymentUpdatedSpec`) |
| Ledger.Database.UpdateExitTimestamp | db_operations.py:49-73 | the new state and result are those of `ExitUpdated`; a False result leaves the state unchanged |
| Ledger.Database.AddAlert | db_operations.py:75-93 | the new state and returned id are those of `AlertAdded` (see `AlertAddedSpec`) |
| Ledger.Database.MarkAlertAsRead | db_operations.py:121-140 | the new state and result are those of `AlertMarkedRead` (see `AlertMarkedReadSpec`) |
| ExitLane.ExitDecisionCases | car_exit.py:81-109 | `process_exit`: a malformed plate changes nothing; a paid plate gets its latest session's exit time and no command, unless the write fails; an unpaid or unknown plate, or a failed lookup, gets one alert, three buzzes and no session change; with working queries, refused exactly when unpaid and let out exactly when paid |
| ExitLane.ExitedWritesNothing | car_exit.py:88-92 | `process_exit` writes no command when it lets a car out |
| ExitLane.DecisionKeeps | car_exit.py:81-109 | `process_exit` keeps the ledger well formed and evolving, lets out only paid sessions and opens no session (same number of sessions) |
| ExitLane.ParseExitLine | car_exit.py:65-79 | a plate is parsed exactly from a line without the header whose stripped text is a valid plate, and the plate is that stripped text |
| ExitLane.ParseExitLineRoundTrip | car_exit.py:65-76 | a valid plate printed with any whitespace padding, spaces included, is parsed back to that plate |
| ExitLane.SerialStepCases | car_exit.py:134-145 | a serial line never opens the gate or touches the buffer; a non-plate line changes nothing; a refusal ends the iteration, starts the 30-iteration cooldown and ends with a buzz |
| ExitLane.SerialKeeps | car_exit.py:134-145 | the serial branch keeps the lane invariant and the ledger invariants |
| ExitLane.AfterVoteCases | car_exit.py:182-199 | after a vote the buffer is empty; the gate opens only for a plate whose latest session is paid, and exactly that session gets its exit time; sessions change only when the gate opens |
| ExitLane.CandidateCases | car_exit.py:173-199 | a plate box opens the gate only by cycling it for a paid plate whose exit is recorded; the cooldown is unchanged or restarted |
| ExitLane.AfterVoteKeeps | car_exit.py:182-199 | the decision after a vote keeps the lane and ledger invariants |
| ExitLane.BufferReadKeeps | car_exit.py:178-199 | buffering a valid read, and voting on the third, keeps the invariants; the buffer stays under three reads |
| ExitLane.CandidateKeeps | car_exit.py:173-199 | handling one plate box keeps the invariants |
| ExitLane.FrameKeeps | car_exit.py:158-199 | handling all boxes of a frame keeps the invariants |
| ExitLane.IterationKeeps | car_exit.py:124-208 | one loop iteration keeps the invariants |
| ExitLane.RunKeeps | car_exit.py:124-208 | over any run of the loop the ledger stays well formed, only evolves, never lets out an unpaid session and never gets a second open session of a plate |
| ExitLane.CooldownSilences | car_exit.py:126-131 | while the cooldown runs, iterations only count it down and write nothing, whatever arrives |
| ExitLane.RunWithoutPortIsSilent | car_exit.py:186-198 | without an Arduino the loop writes no command |
| ExitLane.FrameWithoutPortIsSilent | car_exit.py:186-198 | without an Arduino a frame writes no command |
| ExitLane.SerialExitOpensNoGate | car_exit.py:137-145 | a serial exit of a paid plate records the exit but writes nothing: the serial path never opens the gate |
| ExitLane.SerialRefusal | car_exit.py:137-145 | a refused serial exit buzzes three times, then once more, starts the cooldown and ends the iteration |
| ExitLane.ThirdReadDecides | car_exit.py:180-199 | the third valid read clears the buffer and decides for the most common read; the gate cycles exactly when the exit is recorded, and otherwise the decision's buzzes are followed by one more and the cooldown starts |
| ExitLane.EarlyReadBuffers | car_exit.py:178-180 | before the third read, a valid candidate is only appended to the buffer |
| ExitLane.ExitGate.constructor | car_exit.py:115-119 | the lane starts with an empty buffer, no cooldown and nothing written |
| ExitLane.ExitGate.ProcessExit | car_exit.py:81-109 | the ledger, verdict and written commands are those of `ExitDecision`; buffer and cooldown are untouched |
| ExitLane.ExitGate.HandleSerialLine | car_exit.py:134-145 | the lane, the written commands and the `continue` flag follow `SerialStep` |
| ExitLane.ExitGate.Resolve | car_exit.py:182-199 | the lane and written commands follow `AfterVote` |
| ExitLane.ExitGate.HandleCandidate | car_exit.py:173-199 | the lane and written commands follow `CandidateStep`, keeping the invariant |
| ExitLane.ExitGate.Offer | car_exit.py:178-199 | the lane and written commands follow `BufferRead`, keeping the invariant |
| ExitLane.ExitGate.ProcessFrame | car_exit.py:158-199 | the lane and written commands follow `FrameSteps`, keeping the invariant |
| ExitLane.ExitGate.Iterate | car_exit.py:124-208 | the lane, written commands and stop flag follow `Iteration`, keeping the invariant |
| ExitLane.ExitGate.Operate | car_exit.py:114-208 | the lane and written commands follow `Run`, so `RunKeeps` holds of the gate's ledger |
| EntryLane.AdmitCases | car_entry.py:90-133 | the buffer is cleared on every path; a plate inside gets one unread duplicate alert (unless the write fails), three buzzes and no session; a session is inserted exactly when the plate is not inside, the window admits it and the insert succeeds, and then the gate cycles and plate and time are remembered; otherwise nothing happens |
| EntryLane.AdmitKeeps | car_entry.py:90-133 | the decision keeps the lane and ledger invariants, in particular at most one open session per plate |
| EntryLane.ReentryIsRefused | car_entry.py:95-112 | once a plate has been let in, the next decision for it, at any time, creates no session and buzzes three times |
| EntryLane.RepeatWithinWindowIsSkipped | car_entry.py:114-132 | the last admitted plate coming back within five minutes, when not inside, creates no session, raises no alert and writes nothing |
| EntryLane.CandidateCases | car_entry.py:73-91 | an invalid or missing candidate is ignored; earlier valid reads are buffered; the third decides for the most common of the three |
| EntryLane.BufferReadKeeps | car_entry.py:82-133 | buffering a valid read, and deciding on the third, keeps the invariants |
| EntryLane.CandidateKeeps | car_entry.py:73-133 | handling one plate box keeps the invariants |
| EntryLane.FrameKeeps | car_entry.py:59-133 | handling all boxes of a frame keeps the invariants |
| EntryLane.RunKeeps | car_entry.py:48-143 | over any run of the loop the ledger stays well formed, only evolves, never lets out an unpaid session and never gets a second open session of a plate |
| EntryLane.FreshPlateAdmitted | car_entry.py:114-128 | a plate that is neither inside nor the last admitted gets a new session with the next id, the gate cycles, and plate and time are remembered, when the insert succeeds |
| EntryLane.ThreeReadsAdmit | car_entry.py:90-91 | a third read of a plate read twice decides for that plate |
| EntryLane.EntryGate.constructor | car_entry.py:40-44 | the lane starts with an empty buffer, no remembered plate, time 0 and nothing written |
| EntryLane.EntryGate.Decide | car_entry.py:92-133 | the lane and written commands follow `Admit` |
| EntryLane.EntryGate.RefuseDuplicate | car_entry.py:95-112 | for a plate inside, the lane and written commands follow `Admit`'s duplicate path |
| EntryLane.EntryGate.Enter | car_entry.py:114-133 | for a plate not inside, the lane and written commands follow `Admit`'s window and insert path |
| EntryLane.EntryGate.HandleCandidate | car_entry.py:73-133 | the lane and written commands follow `CandidateStep`, keeping the invariant |
| EntryLane.EntryGate.Offer | car_entry.py:82-133 | the lane and written commands follow `BufferRead`, keeping the invariant |
| EntryLane.EntryGate.ProcessFrame | car_entry.py:59-137 | the lane and written commands follow `FrameSteps`, keeping the invariant |
| EntryLane.EntryGate.Operate | car_entry.py:48-143 | the lane and written commands follow `Run`, so `RunKeeps` holds of the gate's ledger |
| Payment.ParsePaymentLineMeans | process_payment.py:27-57 | a request is parsed exactly from a line without the header that has one comma and a digit after it; the plate is the stripped first part and the balance the value of the second part's digits |
| Payment.ParseRequestLine | process_payment.py:35-49 | a line of a plate, a comma and a balance field is read as that plate and the value of the field's digits |
| Payment.ParsePaymentLineRoundTrip | process_payment.py:35-49 | the line `plate,str(balance)` is parsed back to that plate and balance |
| Payment.NegativeBalanceReadAsPositive | process_payment.py:44-48 | a balance written as `-N` is read as `N` |
| Payment.FeeIsNearest | process_payment.py:59-68 | the fee is the integer nearest to 500/60 RWF per minute, strictly nearer than any other integer, so Python's half-to-even rule never applies |
| Payment.FeeMonotone | process_payment.py:59-68 | a longer stay never costs less |
| Payment.FeeExamples | process_payment.py:10 | whole hours cost exactly 500 RWF each; 1, 60 and 90 minutes cost 8, 500 and 750 |
| Payment.ProcessPaymentCases | process_payment.py:70-119 | exactly one reply per call when a port is attached; success exactly when the plate has an unpaid session, the balance covers the fee and no query fails; then the plate's latest unpaid session is paid with the fee and the non-negative new balance is written; otherwise `I` is written and the ledger is unchanged |
| Payment.ProcessPaymentReplies | process_payment.py:103-118 | each settlement writes exactly one reply, a balance or `I`, when a port is attached |
| Payment.ProcessPaymentKeeps | process_payment.py:90-110 | settling keeps the ledger well formed and evolving, records no exit and opens no session |
| Payment.HandleLineReplies | process_payment.py:134-139 | a line gets exactly one reply when it is a request and a port is attached, and none otherwise |
| Payment.HandleLineKeeps | process_payment.py:134-139 | handling a line keeps the ledger well formed and evolving, records no exit and opens no session |
| Payment.ServeRepliesOncePerRequest | process_payment.py:131-139 | the terminal writes exactly one reply per request line, each a balance or `I` |
| Payment.ServeKeeps | process_payment.py:131-139 | over any run the ledger stays well formed and evolving, with no exit recorded and no session opened |
| Payment.PaymentTerminal.constructor | process_payment.py:122-129 | the terminal starts on the given ledger, with or without a port, having written nothing |
| Payment.PaymentTerminal.Settle | process_payment.py:70-119 | the ledger, result and written replies are those of `ProcessPayment` |
| Payment.PaymentTerminal.Operate | process_payment.py:131-147 | the ledger and written replies are those of `Serve` over the lines read |
| PaymentSuccess.MarkPaidCases | payment_success.py:3-17 | no unpaid session or a failed lookup changes nothing; a failed update changes nothing; otherwise the plate's latest unpaid session, and every other unpaid session of the plate with the same entry time, is paid at `now` with no amount, and no session outside the update's WHERE clause changes |
| PaymentSuccess.MarkPaidChangesOneRow | payment_success.py:5-11 | when the plate's unpaid sessions have distinct entry times, exactly the latest unpaid session changes |
| PaymentSuccess.MarkPaidKeeps | payment_success.py:3-17 | the call keeps the ledger well formed and evolving, records no exit and opens no session |
| PaymentSuccess.MarkPaidProgress | payment_success.py:5-11 | each successful call lowers the plate's unpaid count, and the next latest unpaid session entered strictly earlier |
| PaymentSuccess.MarkPaidWhenNoneLeft | payment_success.py:5-17 | with no unpaid session left, the call changes nothing and reports no record |
| PaymentSuccess.RepeatedCallsPayAll | payment_success.py:3-17 | as many reachable calls as the plate has unpaid sessions leave it with none |
| PaymentSuccess.MarkPaymentSuccess | payment_success.py:3-17 | the new ledger and outcome are those of `MarkPaid` |

## Left out

- Camera capture, YOLO detection, OpenCV drawing, `imshow` and Tesseract are not modelled.
  The OCR text of each detected box is an input string, and a failed frame grab is a missing
  frame.
- `mock_ultrasonic_distance` is a boolean `near` per frame.
- Serial port discovery (`detect_arduino_port`), the baud rate and the `sleep` calls are not
  modelled. A port is either connected or not, and the serial line is input text.
- Decoding serial bytes as UTF-8 is not modelled. Lines arrive as strings, so a decoding
  error, which ends a loop, cannot occur.
- Clocks are not modelled. Each observation carries one integer `now` in seconds, used for
  every `datetime.now()` of that decision, so the payment time and the exit time match the
  decision's clock.
- Database faults are per-decision flags: one for the read and one for the write. A failing
  query is modelled by its return value (False, None or []), as the code catches it. The
  connection pool, commits and rollback are not modelled.
- Python `float` arithmetic is not modelled:
  - The fee is the exact nearest integer. `FeeIsNearest` shows that no tie arises, so
    `round` agrees.
  - The duration is exact whole minutes. `DECIMAL(10,2)` amounts are integers.
- Unicode letters and digits are not modelled. `isalpha`, `isupper` and `isdigit` are the
  ASCII character classes. `strip` removes exactly the code points Python's `isspace`
  accepts.
- Column widths (`VARCHAR(10)`) and `created_at` are not modelled.
- `is_vehicle_inside` is imported by `car_entry.py` but `db_operations.py` does not define
  it, so the entry lane as written fails at its import. The model takes it as "the plate has
  a session with no exit time".
- EntryLane.ReentryIsRefused: holds only under that assumed meaning of `is_vehicle_inside`.
- EntryLane.RunKeeps: its "at most one open session per plate" part, and that of
  `EntryLane.AdmitKeeps`, hold only under that assumed meaning of `is_vehicle_inside`.
- When entry times are equal, SQL leaves the order undefined. `Ledger.LatestIndex` and
  `Ledger.SortDesc` take the later-inserted row first. The ordering contracts of the queries
  hold whatever the tie order; the `ExitsPaid` invariant does not (next three lines).
- Ledger.UpdatesKeepExitsPaid: its exit clause assumes that `is_payment_complete` and the
  subquery of `update_exit_timestamp`, two separate `ORDER BY entry_timestamp DESC LIMIT 1`
  statements, pick the same row when the plate's latest entry time is shared. SQL does not
  promise that. With a paid, exited row and an unpaid, open row of the plate at the same
  entry time, the check may read the paid row and the update stamp the unpaid one.
- Ledger.ExitUpdatedKeeps: its `ExitsPaid` clause rests on the same assumption that both
  queries break ties alike.
- ExitLane.RunKeeps: its "no exit without payment" part, like that of `ExitLane.DecisionKeeps`
  and the other exit-lane `Keeps` lemmas, rests on the same assumption.
- Ledger.ParkingHistoryMeans: stated for a non-negative limit on a working query, the only
  path that returns rows. A negative `LIMIT` raises an SQL error, which the code turns into
  `[]`, as `GetParkingHistory` does. `LIMIT NULL` cannot be expressed, because the limit is
  an integer.
- Ledger.RecentAlertsMeans: stated for a non-negative limit on a working query, for the same
  reason.
- `get_recent_activities`, `get_daily_stats`, `get_hourly_occupancy`, `get_weekly_revenue`
  and `get_peak_hours` are not modelled. They are dashboard analytics built on SQL date
  functions and floating-point averages.
- `app.py`, `transactions.py` and `migrate_to_db.py` are not part of this model. Nor are the
  command-line prompt of `payment_success.py` or the printed messages.
- Concurrency is not modelled. Each process is modelled against its own ledger, so two lanes
  racing on the shared database are out of scope.
- The 'q' key is a per-iteration `quit` flag.
- Without a port, the payment loop raises at `arduino.in_waiting` and stops. `Payment.Serve`
  models that as handling no line.
