/** What a claim is about and what it asserts, reduced to their content
    (`normalize_key`, `asserted_value` and `claim_identity` in
    `agents/extraction.py`). */
module Keys {
  import opened Distinct
  import opened Finding
  import opened Names
  import opened Schemas

  const MAX_KEY := 300

  predicate IsSpace(c: char) {
    || 0x09 <= c as int <= 0x0d || 0x1c <= c as int <= 0x20 || c as int == 0x85 || c as int == 0xa0
    || c as int == 0x1680 || 0x2000 <= c as int <= 0x200a || c as int == 0x2028 || c as int == 0x2029
    || c as int == 0x202f || c as int == 0x205f || c as int == 0x3000
  }

  function LowerChar(c: char): char {
    if 'A' <= c <= 'Z' then 'a' + (c - 'A') else c
  }

  function Lower(s: string): (r: string)
    ensures |r| == |s| && forall i :: 0 <= i < |s| ==> r[i] == LowerChar(s[i])
  {
    seq(|s|, i requires 0 <= i < |s| => LowerChar(s[i]))
  }

  function StripLeft(s: string): string {
    if s == [] || !IsSpace(s[0]) then s else StripLeft(s[1..])
  }

  function StripRight(s: string): string {
    if s == [] || !IsSpace(s[|s| - 1]) then s else StripRight(s[..|s| - 1])
  }

  function Strip(s: string): string {
    StripRight(StripLeft(s))
  }

  /** A letter or a digit. */
  predicate IsContent(c: char) {
    'a' <= c <= 'z' || '0' <= c <= '9'
  }

  function NoiseRun(s: string): (n: nat)
    ensures n <= |s| && forall i :: 0 <= i < n ==> !IsContent(s[i]) && s[i] != '|'
    ensures n < |s| ==> IsContent(s[n]) || s[n] == '|'
  {
    if s == [] || IsContent(s[0]) || s[0] == '|' then 0 else 1 + NoiseRun(s[1..])
  }

  /** Every run of anything else becomes one space. */
  function Cleaned(s: string): string {
    if s == [] then []
    else if IsContent(s[0]) || s[0] == '|' then [s[0]] + Cleaned(s[1..])
    else [' '] + Cleaned(s[NoiseRun(s)..])
  }

  function Split(s: string): (parts: seq<string>)
    ensures parts != []
  {
    if s == [] then [[]]
    else
      var rest := Split(s[1..]);
      if s[0] == '|' then [[]] + rest else [[s[0]] + rest[0]] + rest[1..]
  }

  function CleanPart(part: string): string {
    Strip(Cleaned(Lower(Strip(part))))
  }

  /** The parts that are left when each is cleaned. */
  function CleanParts(parts: seq<string>): seq<string> {
    if parts == [] then []
    else
      var part := CleanPart(parts[0]);
      (if part == [] then [] else [part]) + CleanParts(parts[1..])
  }

  function Joined(parts: seq<string>): string {
    if parts == [] then [] else if |parts| == 1 then parts[0] else parts[0] + " | " + Joined(parts[1..])
  }

  function NormalizeKey(raw: string): string {
    var key := Capped(Joined(CleanParts(Split(raw))), MAX_KEY);
    if key != [] then key else Capped(Lower(Strip(raw)), MAX_KEY)
  }

  // --- what a claim asserts ------------------------------------------------------------------

  /** The words of a text: what whitespace separates. */
  function Words(s: string): seq<string> {
    if s == [] then []
    else if IsSpace(s[0]) then Words(s[1..])
    else if |s| == 1 || IsSpace(s[1]) then [[s[0]]] + Words(s[1..])
    else
      var rest := Words(s[1..]);
      if rest == [] then [[s[0]]] else [[s[0]] + rest[0]] + rest[1..]
  }

  function Spaced(words: seq<string>): string {
    if words == [] then [] else if |words| == 1 then words[0] else words[0] + " " + Spaced(words[1..])
  }

  /** A text with its whitespace normalised. */
  function Reflowed(s: string): string {
    Spaced(Words(s))
  }

  /** What a claim is taken to say of its subject: the proposed value reflowed,
      or nothing unless that stands somewhere in the reflowed text. */
  function AssertedValue(value: string, text: string): (asserted: string)
    ensures asserted == [] || asserted == Reflowed(value)
    ensures asserted != [] ==> exists i :: StandsAt(Lower(Reflowed(text)), Lower(asserted), i)
    ensures asserted == [] && Reflowed(value) != [] ==> forall i :: !StandsAt(Lower(Reflowed(text)), Lower(Reflowed(value)), i)
  {
    var cleaned := Reflowed(value);
    if cleaned != [] && FirstIndex(Lower(Reflowed(text)), Lower(cleaned), 0).Some? then cleaned else []
  }

  // --- which keys are reduced to letters and digits ------------------------------------------

  lemma {:induction false} StripLeftKeeps(s: string, c: char)
    ensures c in StripLeft(s) ==> c in s
    ensures c in s && !IsSpace(c) ==> c in StripLeft(s)
  {
    if s != [] && IsSpace(s[0]) {
      StripLeftKeeps(s[1..], c);
      assert s == [s[0]] + s[1..];
    }
  }

  lemma {:induction false} StripRightKeeps(s: string, c: char)
    ensures c in StripRight(s) ==> c in s
    ensures c in s && !IsSpace(c) ==> c in StripRight(s)
  {
    if s != [] && IsSpace(s[|s| - 1]) {
      StripRightKeeps(s[..|s| - 1], c);
      assert s == s[..|s| - 1] + [s[|s| - 1]];
    }
  }

  lemma StripKeeps(s: string, c: char)
    ensures c in Strip(s) ==> c in s
    ensures c in s && !IsSpace(c) ==> c in Strip(s)
  {
    StripLeftKeeps(s, c);
    StripRightKeeps(StripLeft(s), c);
  }

  lemma {:induction false} CleanedKeeps(s: string, c: char)
    ensures c in Cleaned(s) ==> (c in s && (IsContent(c) || c == '|')) || c == ' '
    ensures c in s && IsContent(c) ==> c in Cleaned(s)
    decreases |s|
  {
    if s != [] {
      if IsContent(s[0]) || s[0] == '|' {
        CleanedKeeps(s[1..], c);
        assert s == [s[0]] + s[1..];
      } else {
        var n := NoiseRun(s);
        CleanedKeeps(s[n..], c);
        assert s == s[..n] + s[n..];
        assert forall i :: 0 <= i < n ==> s[..n][i] == s[i];
      }
    }
  }

  lemma CleanPartKeeps(part: string, c: char)
    ensures c in CleanPart(part) ==> IsContent(c) || c == '|' || c == ' '
    ensures IsContent(LowerChar(c)) && c in part ==> LowerChar(c) in CleanPart(part)
  {
    var stripped := Strip(part);
    var lower := Lower(stripped);
    StripKeeps(Cleaned(lower), c);
    CleanedKeeps(lower, c);
    if IsContent(LowerChar(c)) && c in part {
      StripKeeps(part, c);
      var i :| 0 <= i < |stripped| && stripped[i] == c;
      assert lower[i] == LowerChar(c);
      CleanedKeeps(lower, LowerChar(c));
      StripKeeps(Cleaned(lower), LowerChar(c));
    }
  }

  lemma {:induction false} PartsKeep(parts: seq<string>, c: char)
    ensures forall part :: part in CleanParts(parts) ==> part != [] && (c in part ==> IsContent(c) || c == '|' || c == ' ')
    ensures IsContent(LowerChar(c)) && (exists part :: part in parts && c in part) ==> CleanParts(parts) != []
  {
    if parts != [] {
      PartsKeep(parts[1..], c);
      CleanPartKeeps(parts[0], c);
      assert parts == [parts[0]] + parts[1..];
    }
  }

  lemma {:induction false} SplitKeeps(s: string, c: char)
    requires c != '|' && c in s
    ensures exists part :: part in Split(s) && c in part
  {
    var rest := Split(s[1..]);
    assert s == [s[0]] + s[1..];
    if c in s[1..] {
      SplitKeeps(s[1..], c);
      var part :| part in rest && c in part;
      if s[0] == '|' {
        assert Split(s) == [[]] + rest;
      } else if part == rest[0] {
        assert c in Split(s)[0];
      } else {
        assert rest == [rest[0]] + rest[1..];
        assert part in Split(s);
      }
    } else {
      assert c in Split(s)[0];
    }
  }

  lemma {:induction false} JoinedHolds(parts: seq<string>, c: char)
    requires forall part :: part in parts ==> part != [] && (c in part ==> IsContent(c) || c == '|' || c == ' ')
    ensures c in Joined(parts) ==> IsContent(c) || c == '|' || c == ' '
    ensures parts != [] ==> Joined(parts) != []
  {
    if parts != [] {
      assert parts[0] in parts;
      assert forall part :: part in parts[1..] ==> part in parts;
      JoinedHolds(parts[1..], c);
    }
  }

  /** Whether anything in a raw key survives reduction. */
  predicate HasContent(raw: string) {
    exists c :: c in raw && IsContent(LowerChar(c))
  }

  /** A key with a letter or a digit anywhere in it is reduced to letters,
      digits, spaces and bars. */
  lemma KeyOfContent(raw: string, c: char)
    requires HasContent(raw)
    ensures c in NormalizeKey(raw) ==> IsContent(c) || c == '|' || c == ' '
    ensures NormalizeKey(raw) != [] && CleanParts(Split(raw)) != []
  {
    var kept :| kept in raw && IsContent(LowerChar(kept));
    SplitKeeps(raw, kept);
    PartsKeep(Split(raw), kept);
    PartsKeep(Split(raw), c);
    var parts := CleanParts(Split(raw));
    JoinedHolds(parts, c);
  }

  lemma {:induction false} SplitHasNoBars(s: string)
    ensures forall part, c :: part in Split(s) && c in part ==> c in s && c != '|'
  {
    if s != [] {
      SplitHasNoBars(s[1..]);
      var rest := Split(s[1..]);
      assert s == [s[0]] + s[1..];
      assert rest == [rest[0]] + rest[1..];
    }
  }

  lemma NoContentCleansAway(part: string)
    requires forall c :: c in part ==> !IsContent(LowerChar(c)) && c != '|'
    ensures CleanPart(part) == []
  {
    var stripped := Strip(part);
    var lower := Lower(stripped);
    forall i | 0 <= i < |lower| ensures !IsContent(lower[i]) && lower[i] != '|' {
      StripKeeps(part, stripped[i]);
    }
    if lower != [] {
      assert NoiseRun(lower) == |lower|;
      assert Cleaned(lower) == " ";
      assert StripLeft(" ") == [];
    }
  }

  lemma {:induction false} NothingCleansToNothing(parts: seq<string>)
    requires forall part :: part in parts ==> CleanPart(part) == []
    ensures CleanParts(parts) == []
  {
    if parts != [] {
      assert parts[0] in parts;
      assert forall part :: part in parts[1..] ==> part in parts;
      NothingCleansToNothing(parts[1..]);
    }
  }

  /** A key with no letter or digit in it is kept as it stands. */
  lemma KeyOfNoContent(raw: string)
    requires !HasContent(raw)
    ensures NormalizeKey(raw) == Capped(Lower(Strip(raw)), MAX_KEY) && CleanParts(Split(raw)) == []
  {
    SplitHasNoBars(raw);
    forall part | part in Split(raw) ensures CleanPart(part) == [] {
      forall c | c in part ensures !IsContent(LowerChar(c)) && c != '|' {
        assert c in raw;
      }
      NoContentCleansAway(part);
    }
    NothingCleansToNothing(Split(raw));
  }

  /** A key has a colon in it exactly when nothing in it survived reduction and
      what was kept instead has one. */
  lemma KeyHasColon(raw: string)
    ensures ':' in NormalizeKey(raw) <==> !HasContent(raw) && ':' in Capped(Lower(Strip(raw)), MAX_KEY)
  {
    if HasContent(raw) {
      KeyOfContent(raw, ':');
    } else {
      KeyOfNoContent(raw);
    }
  }

  // --- claim identity ------------------------------------------------------------------------

  function NormalizedValue(value: string): string {
    if value == [] then [] else NormalizeKey(value)
  }

  /** The id a claim of one run has: that of its key and its normalised value,
      joined by a colon. */
  function ClaimIdentity(key: string, value: string): Id {
    Derived(key + [':'] + NormalizedValue(value))
  }

  /** Between keys without a colon, an id tells the key and the normalised value
      apart. */
  lemma IdentityTellsApart(k1: string, v1: string, k2: string, v2: string)
    requires ':' !in k1 && ':' !in k2
    ensures ClaimIdentity(k1, v1) == ClaimIdentity(k2, v2) <==> k1 == k2 && NormalizedValue(v1) == NormalizedValue(v2)
  {
    if ClaimIdentity(k1, v1) == ClaimIdentity(k2, v2) {
      DerivedIsInjective(k1 + [':'] + NormalizedValue(v1), k2 + [':'] + NormalizedValue(v2));
      SplitIsUnique(':', k1, NormalizedValue(v1), k2, NormalizedValue(v2));
    }
  }
}
