/** Citation markers in Markdown (`cited_numbers` in `agents/citations.py`). */
module Markers {
  import opened Names
  import opened Wrappers
  import opened Flattening

  predicate IsDigit(c: char) {
    '0' <= c <= '9'
  }

  function DigitValue(c: char): (d: nat)
    requires IsDigit(c)
    ensures d <= 9
  {
    (c - '0') as nat
  }

  /** How many digits stand at the front of a text. */
  function DigitRun(text: string): (n: nat)
    ensures n <= |text|
    ensures forall i :: 0 <= i < n ==> IsDigit(text[i])
    ensures n < |text| ==> !IsDigit(text[n])
  {
    if text == [] || !IsDigit(text[0]) then 0 else 1 + DigitRun(text[1..])
  }

  function NumberOf(digits: string): nat
    requires forall i :: 0 <= i < |digits| ==> IsDigit(digits[i])
  {
    if digits == [] then 0 else NumberOf(digits[..|digits| - 1]) * 10 + DigitValue(digits[|digits| - 1])
  }

  /** Where a marker at the front of a text ends, if there is one: a bracket,
      one to three digits, a bracket. */
  function MarkerEnd(text: string): (end: Option<nat>)
    ensures end.Some? ==> 3 <= end.value <= 5 && end.value <= |text|
    ensures end.Some? ==> forall i :: 1 <= i < end.value ==> text[i] != '['
  {
    if text == [] || text[0] != '[' then None
    else
      var n := DigitRun(text[1..]);
      if 1 <= n <= 3 && 1 + n < |text| && text[1 + n] == ']' then
        assert forall i :: 1 <= i < 1 + n ==> IsDigit(text[1..][i - 1]) && text[i] == text[1..][i - 1];
        Some(n + 2)
      else None
  }

  /** A number in brackets right before a bracket is a link's label. */
  predicate IsLabel(text: string, end: nat) {
    end < |text| && (text[end] == '(' || text[end] == '[')
  }

  function MarkerNumber(text: string): nat
    requires MarkerEnd(text).Some?
  {
    var n := DigitRun(text[1..]);
    NumberOf(text[1..][..n])
  }

  /** The number of the marker at the front of a text, if one counts there. */
  function CountedAtFront(text: string): seq<nat> {
    var end := MarkerEnd(text);
    if end.None? || IsLabel(text, end.value) then [] else [MarkerNumber(text)]
  }

  /** What counts at each position of a text. */
  function Counted(text: string): (counts: seq<seq<nat>>)
    ensures |counts| == |text|
  {
    seq(|text|, i requires 0 <= i < |text| => CountedAtFront(text[i..]))
  }

  /** Every marker of a text that counts: whatever position it is at, a marker
      counts unless a `(` or a `[` follows it. */
  function CitedNumbers(text: string): seq<nat> {
    Flattened(Counted(text))
  }

  /** How far a scan goes in one step: past a marker, or one character. */
  function Advance(rest: string): (n: nat)
    requires rest != []
    ensures 1 <= n <= |rest|
    ensures forall i :: 1 <= i < n ==> rest[i] != '['
  {
    MarkerEnd(rest).GetOr(1)
  }

  lemma NothingInside(text: string, at: nat, i: nat)
    requires at < |text| && at < i < at + Advance(text[at..])
    ensures i < |text|
    ensures Counted(text)[i] == []
  {
    assert text[at..][i - at] != '[';
    assert text[i..][0] != '[';
  }

  /** What counts in the first `n` positions. */
  function CitedUpTo(text: string, n: nat): seq<nat>
    requires n <= |text|
  {
    Flattened(Counted(text)[..n])
  }

  lemma OnlyTheFirst(counts: seq<seq<nat>>, at: nat, n: nat)
    requires 1 <= n && at + n <= |counts| && forall i :: at < i < at + n ==> counts[i] == []
    ensures Flattened(counts[..at + n]) == Flattened(counts[..at]) + counts[at]
  {
    FlattenNothing(counts, at + 1, at + n);
    FlattenOne(counts, at);
  }

  /** Markers do not overlap: nothing counts inside one. */
  lemma StepOver(text: string, at: nat)
    requires at < |text|
    ensures CitedUpTo(text, at + Advance(text[at..])) == CitedUpTo(text, at) + CountedAtFront(text[at..])
  {
    var n := Advance(text[at..]);
    forall i | at < i < at + n ensures Counted(text)[i] == [] {
      NothingInside(text, at, i);
    }
    OnlyTheFirst(Counted(text), at, n);
  }

  /** Between `at` and `next` a scan finds `more`. */
  predicate Finds(text: string, at: nat, next: nat, more: seq<nat>) {
    at < next <= |text| && CitedUpTo(text, next) == CitedUpTo(text, at) + more
  }

  /** What one step of a scan finds. */
  lemma StepFinds(text: string, at: nat, rest: string, end: Option<nat>)
    requires at < |text| && rest == text[at..] && end == MarkerEnd(rest)
    ensures end.None? ==> Finds(text, at, at + 1, [])
    ensures end.Some? ==> Finds(text, at, at + end.value, if IsLabel(rest, end.value) then [] else [MarkerNumber(rest)])
  {
    StepOver(text, at);
  }

  lemma CitedUpToEnd(text: string)
    ensures CitedUpTo(text, |text|) == CitedNumbers(text)
  {
    assert Counted(text)[..|text|] == Counted(text);
  }

  /** The scan as a regular expression does it: leftmost match first, going on
      after the end of each. It finds exactly the markers that count. */
  method FindCitedNumbers(markdown: string) returns (found: seq<nat>)
    ensures found == CitedNumbers(markdown)
  {
    found := [];
    var at := 0;
    while at < |markdown|
      invariant at <= |markdown|
      invariant found == CitedUpTo(markdown, at)
    {
      var rest := markdown[at..];
      var end := MarkerEnd(rest);
      StepFinds(markdown, at, rest, end);
      if end.None? {
        at := at + 1;
      } else {
        if !IsLabel(rest, end.value) {
          found := found + [MarkerNumber(rest)];
        }
        at := at + end.value;
      }
    }
    CitedUpToEnd(markdown);
  }

  // --- what a marker is --------------------------------------------------------------------

  /** What one, two or three digits say. */
  function Said(digits: string): nat
    requires 1 <= |digits| <= 3 && forall i :: 0 <= i < |digits| ==> '0' <= digits[i] <= '9'
  {
    var units := (digits[|digits| - 1] - '0') as nat;
    if |digits| == 1 then units
    else if |digits| == 2 then 10 * ((digits[0] - '0') as nat) + units
    else 100 * ((digits[0] - '0') as nat) + 10 * ((digits[1] - '0') as nat) + units
  }

  /** A text starts with a bracket, `n` digits that say `v`, and a bracket, and
      what follows does not make it a link's label. */
  predicate Cites(text: string, n: int, v: nat) {
    && 1 <= n <= 3 && n + 2 <= |text| && text[0] == '[' && text[n + 1] == ']'
    && (forall i :: 1 <= i <= n ==> '0' <= text[i] <= '9')
    && (n + 2 < |text| ==> text[n + 2] != '(' && text[n + 2] != '[')
    && v == Said(text[1..n + 1])
  }

  lemma NumberIsSaid(digits: string)
    requires 1 <= |digits| <= 3 && forall i :: 0 <= i < |digits| ==> '0' <= digits[i] <= '9'
    ensures NumberOf(digits) == Said(digits)
  {
    assert NumberOf([]) == 0;
    assert digits[..1] == [digits[0]] && digits[..1][..0] == [];
    if |digits| >= 2 {
      assert digits[..2][..1] == digits[..1];
    }
    if |digits| == 3 {
      assert digits[..3] == digits;
    }
  }

  lemma RunOfDigits(text: string, n: nat)
    requires n < |text| && !IsDigit(text[n]) && forall i :: 0 <= i < n ==> IsDigit(text[i])
    ensures DigitRun(text) == n
  {
  }

  /** What counts at the front of a text is what a marker there cites. */
  lemma CountedIsCited(text: string, v: nat)
    ensures v in CountedAtFront(text) <==> exists n :: Cites(text, n, v)
  {
    if n :| Cites(text, n, v) {
      var rest := text[1..];
      forall i | 0 <= i < n ensures IsDigit(rest[i]) {
        assert rest[i] == text[i + 1];
      }
      RunOfDigits(rest, n);
      assert rest[..n] == text[1..n + 1];
      NumberIsSaid(rest[..n]);
    }
    if v in CountedAtFront(text) {
      var rest := text[1..];
      var n := DigitRun(rest);
      assert forall i :: 1 <= i <= n ==> text[i] == rest[i - 1];
      assert rest[..n] == text[1..n + 1];
      NumberIsSaid(rest[..n]);
      assert Cites(text, n, v);
    }
  }

  /** A number is found in a text exactly if somewhere in it a marker cites it. */
  lemma FoundIsCited(text: string, v: nat)
    ensures v in CitedNumbers(text) <==> exists at, n :: 0 <= at < |text| && Cites(text[at..], n, v)
  {
    if v in CitedNumbers(text) {
      var at := FlattenFrom(Counted(text), v);
      CountedIsCited(text[at..], v);
      var n :| Cites(text[at..], n, v);
    }
    if at, n :| 0 <= at < |text| && Cites(text[at..], n, v) {
      CountedIsCited(text[at..], v);
      FlattenHolds(Counted(text), at, v);
    }
  }

  lemma DecimalIsDigits(n: nat)
    ensures forall i :: 0 <= i < |Decimal(n)| ==> IsDigit(Decimal(n)[i])
  {
    forall i | 0 <= i < |Decimal(n)| ensures IsDigit(Decimal(n)[i]) {
      assert Decimal(n)[i] in Decimal(n);
    }
  }

  lemma {:induction false} DecimalReads(n: nat)
    ensures (forall i :: 0 <= i < |Decimal(n)| ==> IsDigit(Decimal(n)[i])) && NumberOf(Decimal(n)) == n
  {
    var s := Decimal(n);
    DecimalIsDigits(n);
    if n < 10 {
      assert s[..0] == [] && NumberOf([]) == 0;
    } else {
      DecimalReads(n / 10);
      assert s[..|s| - 1] == Decimal(n / 10);
    }
  }

  lemma DecimalIsShort(n: nat)
    requires n <= 999
    ensures |Decimal(n)| <= 3
  {
    if n >= 100 {
      assert |Decimal(n / 10)| == |Decimal(n / 10 / 10)| + 1;
    }
  }

  /** A number a catalogue has, written in brackets, is read back as itself. */
  lemma WrittenIsRead(n: nat, after: string)
    requires n <= 999 && (after != [] ==> after[0] != '(' && after[0] != '[')
    ensures Cites("[" + Decimal(n) + "]" + after, |Decimal(n)|, n)
  {
    var digits := Decimal(n);
    var text := "[" + digits + "]" + after;
    DecimalIsShort(n);
    DecimalReads(n);
    NumberIsSaid(digits);
    forall i | 1 <= i <= |digits| ensures '0' <= text[i] <= '9' {
      assert text[i] == digits[i - 1] && digits[i - 1] in digits;
    }
    assert text[1..|digits| + 1] == digits;
  }

  // --- joining texts ---------------------------------------------------------------------

  lemma DigitRunOfPrefix(a: string, b: string)
    requires b != [] ==> !IsDigit(b[0])
    ensures DigitRun(a + b) == DigitRun(a)
  {
    if a == [] {
      assert a + b == b;
    } else {
      assert (a + b)[1..] == a[1..] + b;
      DigitRunOfPrefix(a[1..], b);
    }
  }

  /** What follows a line break cannot complete, or relabel, what precedes it. */
  lemma FrontOfJoined(a: string, b: string)
    requires a != [] && b != [] && b[0] == '\n'
    ensures CountedAtFront(a + b) == CountedAtFront(a)
  {
    assert (a + b)[1..] == a[1..] + b;
    DigitRunOfPrefix(a[1..], b);
    var n := DigitRun(a[1..]);
    assert (a[1..] + b)[..n] == a[1..][..n];
    assert (a + b)[0] == a[0];
    if 1 + n < |a| {
      assert (a + b)[1 + n] == a[1 + n];
    } else {
      assert (a + b)[1 + n] == b[0];
    }
    assert MarkerEnd(a + b) == MarkerEnd(a);
  }

  lemma CountedInJoined(a: string, b: string, i: nat)
    requires i < |a| + 2 + |b|
    ensures Counted(a + "\n\n" + b)[i]
            == if i < |a| then Counted(a)[i] else if i < |a| + 2 then [] else Counted(b)[i - |a| - 2]
  {
    var gap := "\n\n" + b;
    var text := a + "\n\n" + b;
    assert text == a + gap;
    if i < |a| {
      assert text[i..] == a[i..] + gap;
      FrontOfJoined(a[i..], gap);
    } else if i < |a| + 2 {
      assert text[i..][0] == '\n';
    } else {
      assert text[i..] == b[i - |a| - 2..];
    }
  }

  lemma CountedJoined(a: string, b: string)
    ensures Counted(a + "\n\n" + b) == Counted(a) + [[], []] + Counted(b)
  {
    var none: seq<seq<nat>> := [[], []];
    var text := a + "\n\n" + b;
    forall i | 0 <= i < |text| ensures Counted(text)[i] == (Counted(a) + none + Counted(b))[i] {
      CountedInJoined(a, b, i);
    }
  }

  lemma FlattenJoined(a: seq<seq<nat>>, none: seq<seq<nat>>, b: seq<seq<nat>>)
    requires Flattened(none) == []
    ensures Flattened(a + none + b) == Flattened(a) + Flattened(b)
  {
    FlattenConcat(a + none, b);
    FlattenConcat(a, none);
    assert Flattened(a) + [] == Flattened(a);
  }

  /** Scanning two texts joined by a blank line finds what scanning each does. */
  lemma CitedInJoined(a: string, b: string)
    ensures CitedNumbers(a + "\n\n" + b) == CitedNumbers(a) + CitedNumbers(b)
  {
    var none: seq<seq<nat>> := [[], []];
    CountedJoined(a, b);
    FlattenNothing(none, 0, 2);
    assert none[..2] == none && none[..0] == [];
    FlattenJoined(Counted(a), none, Counted(b));
  }

  // --- what the rule about labels leaves out ----------------------------------------------

  /** A marker stands at `i`. */
  predicate MarkerAt(text: string, i: int) {
    0 <= i < |text| && MarkerEnd(text[i..]).Some?
  }

  /** And right behind it a `(` or a `[`. */
  predicate LabelAt(text: string, i: int) {
    MarkerAt(text, i) && IsLabel(text[i..], MarkerEnd(text[i..]).value)
  }

  /** What every marker of a text says, whatever comes behind it. */
  function AllMarkers(text: string): (numbers: seq<seq<nat>>)
    ensures |numbers| == |text|
  {
    seq(|text|, i requires 0 <= i < |text| => if MarkerAt(text, i) then [MarkerNumber(text[i..])] else [])
  }

  lemma {:induction false} ShorterOnceLess(counts: seq<seq<nat>>, numbers: seq<seq<nat>>)
    requires |counts| == |numbers| && forall i :: 0 <= i < |counts| ==> counts[i] == numbers[i] || counts[i] == []
    ensures if counts == numbers then Flattened(counts) == Flattened(numbers) else |Flattened(counts)| < |Flattened(numbers)|
  {
    if counts != [] {
      var n := |counts| - 1;
      ShorterOnceLess(counts[..n], numbers[..n]);
      assert counts == counts[..n] + [counts[n]] && numbers == numbers[..n] + [numbers[n]];
    }
  }

  /** Every marker of a text is counted exactly when none has a `(` or a `[`
      right behind it; otherwise fewer are. */
  lemma AllAreCounted(text: string)
    ensures CitedNumbers(text) == Flattened(AllMarkers(text)) <==> forall i :: !LabelAt(text, i)
    ensures (exists i :: LabelAt(text, i)) ==> |CitedNumbers(text)| < |Flattened(AllMarkers(text))|
  {
    var counts, numbers := Counted(text), AllMarkers(text);
    forall i | 0 <= i < |text| ensures counts[i] == if LabelAt(text, i) then [] else numbers[i] {
    }
    ShorterOnceLess(counts, numbers);
    if i :| LabelAt(text, i) {
      assert counts[i] != numbers[i];
    }
  }

  lemma OneDigitMarker(last: string)
    requires last == "[1]"
    ensures CountedAtFront(last) == [1]
  {
    assert last[1..] == "1]" && last[1..][1..] == "]";
    assert DigitRun("]") == 0 && DigitRun("1]") == 1;
    assert MarkerEnd(last) == Some(3);
    assert last[1..][..1] == "1";
    assert NumberOf("1") == NumberOf([]) * 10 + 1;
  }

  lemma LabelledMarker(text: string)
    requires text == "[999][1]"
    ensures MarkerEnd(text) == Some(5) && CountedAtFront(text) == []
  {
    assert text[1..] == "999][1]" && text[1..][1..] == "99][1]" && text[1..][1..][1..] == "9][1]" && text[1..][1..][1..][1..] == "][1]";
    assert DigitRun("][1]") == 0 && DigitRun("9][1]") == 1 && DigitRun("99][1]") == 2 && DigitRun("999][1]") == 3;
    assert text[1..][3] == ']';
  }

  lemma OnlyTheSixth(counts: seq<seq<nat>>)
    requires |counts| == 8 && counts[5] == [1] && forall i :: 0 <= i < 8 && i != 5 ==> counts[i] == []
    ensures Flattened(counts) == [1]
  {
    FlattenNothing(counts, 0, 5);
    FlattenOne(counts, 5);
    FlattenNothing(counts, 6, 8);
    assert counts[..8] == counts && counts[..0] == [];
  }

  /** A marker directly before another does not count, so a number that names
      nothing is not seen when a good one follows it at once. */
  lemma AdjacentMarkerIsNotSeen()
    ensures CitedNumbers("[999][1]") == [1]
  {
    var text, last := "[999][1]", "[1]";
    assert text[0..] == text && text[5..] == last;
    LabelledMarker(text);
    OneDigitMarker(last);
    forall i | 0 <= i < 8 && i != 5 ensures Counted(text)[i] == [] {
      assert i > 0 ==> text[i..][0] != '[';
    }
    OnlyTheSixth(Counted(text));
  }
}
