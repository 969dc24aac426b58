/** Plate recognition logic shared by the entry and exit lanes: the `LLLDDDL` format check
    (car_exit.py `is_valid_plate`, and the same check written inline in car_entry.py), the way
    a candidate is cut out of the OCR text after the first "RA", and the three-read vote
    (`Counter(plate_buffer).most_common(1)`). */
module Plates {
  import opened Text

  /** Number of buffered reads that triggers a vote. */
  const Quorum: nat := 3

  /** Text that must occur in the OCR output; the candidate starts at its first occurrence. */
  const Marker := "RA"

  const PlateLength: nat := 7

  /** The plate format: three letters, three digits, one letter. */
  const PlatePattern := "LLLDDDL"

  predicate FitsClass(c: char, cls: char) {
    if cls == 'L' then IsUpper(c) else IsDigit(c)
  }

  predicate MatchesPattern(p: string, pattern: string) {
    |p| == |pattern| && forall i :: 0 <= i < |p| ==> FitsClass(p[i], pattern[i])
  }

  /** car_exit.py `is_valid_plate`: prefix letters, middle digits, suffix letter. */
  function IsValidPlate(p: string): (r: bool)
    ensures r <==> MatchesPattern(p, PlatePattern)
  {
    var ok := |p| == PlateLength && AllUpper(p[..3]) && AllDigits(p[3..6]) && IsUpper(p[6]);
    assert ok ==> forall i :: 0 <= i < 7 ==> FitsClass(p[i], PlatePattern[i]) by {
      if ok {
        forall i | 0 <= i < 7 ensures FitsClass(p[i], PlatePattern[i]) {
          if i < 3 { assert p[..3][i] == p[i]; }
          else if i < 6 { assert p[3..6][i - 3] == p[i]; }
        }
      }
    }
    assert MatchesPattern(p, PlatePattern) ==> ok by {
      if MatchesPattern(p, PlatePattern) {
        assert forall i :: 0 <= i < 3 ==> p[..3][i] == p[i] && FitsClass(p[i], PlatePattern[i]);
        assert forall i :: 0 <= i < 3 ==> p[3..6][i] == p[i + 3] && FitsClass(p[i + 3], PlatePattern[i + 3]);
        assert FitsClass(p[6], PlatePattern[6]);
      }
    }
    ok
  }

  /** The check car_entry.py performs inline on a 7-character candidate. */
  function EntryFormatCheck(c: string): bool
    requires |c| == PlateLength
  {
    AllUpper(c[..3]) && AllDigits(c[3..6]) && IsUpper(c[6])
  }

  lemma EntryCheckAgrees(c: string)
    requires |c| == PlateLength
    ensures EntryFormatCheck(c) == IsValidPlate(c)
  {
  }

  /** OCR output as both lanes clean it: `.strip().replace(" ", "")`. */
  function CleanOcr(text: string): string {
    RemoveAll(Strip(text), ' ')
  }

  /** The camera candidate: the text from the first "RA", cut to seven characters when at
      least seven remain (car_exit.py:173-177, car_entry.py:73-77). */
  function ExtractCandidate(text: string): (c: Option<string>)
    ensures c.None? <==> !Contains(text, Marker) || |text| < Find(text, Marker) + PlateLength
    ensures c.Some? ==> OccursAt(text, c.value, Find(text, Marker))
    ensures c.Some? ==> |c.value| == PlateLength && c.value[..2] == Marker
  {
    if Contains(text, Marker) then
      var k := Find(text, Marker);
      var rest := text[k..];
      if |rest| >= PlateLength then
        assert rest[..PlateLength][..2] == text[k..k + 2];
        Some(rest[..PlateLength])
      else None
    else None
  }

  /** What the buffer may hold: valid plates cut at "RA". */
  predicate Buffered(c: string) {
    IsValidPlate(c) && |c| == PlateLength && c[..2] == Marker
  }

  // ---------------------------------------------------------------- voting

  function Count<T(==)>(buf: seq<T>, x: T): nat {
    multiset(buf)[x]
  }

  /** Scans buf[i..] keeping the index of the first element with the largest count seen. */
  function MostCommonFrom<T(==)>(buf: seq<T>, i: nat, best: nat): (k: nat)
    requires best < i <= |buf|
    requires forall j :: 0 <= j < i ==> Count(buf, buf[j]) <= Count(buf, buf[best])
    requires forall j :: 0 <= j < best ==> Count(buf, buf[j]) < Count(buf, buf[best])
    ensures k < |buf|
    ensures forall j :: 0 <= j < |buf| ==> Count(buf, buf[j]) <= Count(buf, buf[k])
    ensures forall j :: 0 <= j < k ==> Count(buf, buf[j]) < Count(buf, buf[k])
    decreases |buf| - i
  {
    if i == |buf| then best
    else if Count(buf, buf[i]) > Count(buf, buf[best]) then MostCommonFrom(buf, i + 1, i)
    else MostCommonFrom(buf, i + 1, best)
  }

  /** `Counter(buf).most_common(1)[0][0]`: a most frequent element, ties going to the one
      seen first (Counter keeps first-insertion order and `max` keeps the first maximum). */
  function MostCommon<T(==)>(buf: seq<T>): (r: T)
    requires |buf| > 0
    ensures r in buf
    ensures forall j :: 0 <= j < |buf| ==> Count(buf, buf[j]) <= Count(buf, r)
    ensures forall j :: 0 <= j < |buf| && Count(buf, buf[j]) == Count(buf, r) ==> r in buf[..j + 1]
  {
    var k := MostCommonFrom(buf, 1, 0);
    assert forall j :: 0 <= j < |buf| && Count(buf, buf[j]) == Count(buf, buf[k]) ==> buf[..j + 1][k] == buf[k];
    buf[k]
  }

  /** A strict plurality always wins the vote. */
  lemma PluralityWins<T>(buf: seq<T>, x: T)
    requires x in buf
    requires forall y :: y in buf && y != x ==> Count(buf, y) < Count(buf, x)
    ensures MostCommon(buf) == x
  {
  }

  lemma MajorityOfThree<T>(a: T, b: T, c: T)
    requires a == b || a == c
    ensures MostCommon([a, b, c]) == a
  {
    var buf := [a, b, c];
    assert multiset(buf) == multiset{a, b, c};
    assert Count(buf, a) >= 2;
    forall y | y in buf && y != a ensures Count(buf, y) < Count(buf, a) {
      assert y == b || y == c;
    }
    PluralityWins(buf, a);
  }

  lemma LastTwoOfThree<T>(a: T, b: T, c: T)
    requires a != b && b == c
    ensures MostCommon([a, b, c]) == b
  {
    var buf := [a, b, c];
    assert multiset(buf) == multiset{a, b, c};
    PluralityWins(buf, b);
  }

  /** In three distinct reads each read occurs once. */
  lemma DistinctCounts<T>(a: T, b: T, c: T)
    requires a != b && a != c && b != c
    ensures forall x :: x in [a, b, c] ==> Count([a, b, c], x) == 1
  {
    assert multiset([a, b, c]) == multiset{a, b, c};
  }

  lemma AllDistinctOfThree<T>(a: T, b: T, c: T)
    requires a != b && a != c && b != c
    ensures MostCommon([a, b, c]) == a
  {
    var buf := [a, b, c];
    DistinctCounts(a, b, c);
    var r := MostCommon(buf);
    assert Count(buf, buf[0]) == Count(buf, r);
    assert r in buf[..0 + 1];
    var i :| 0 <= i < |buf[..0 + 1]| && buf[..0 + 1][i] == r;
    assert buf[..0 + 1][i] == buf[i] == a;
  }

  /** The vote over a full buffer of three reads: a plate read at least twice wins, and when
      all three reads differ the first one wins. */
  lemma {:induction false} VoteOfThree<T>(a: T, b: T, c: T)
    ensures MostCommon([a, b, c]) == (if a == b || a == c then a else if b == c then b else a)
  {
    if a == b || a == c {
      MajorityOfThree(a, b, c);
    } else if b == c {
      LastTwoOfThree(a, b, c);
    } else {
      AllDistinctOfThree(a, b, c);
    }
  }
}
