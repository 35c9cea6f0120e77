/** When a claim's id says what the claim is: the exact conditions under which
    `claim_identity` in `agents/extraction.py` tells assertions apart. */
module Identity {
  import opened Distinct
  import opened Finding
  import opened Names
  import opened Keys
  import opened KeyContent

  // --- values ------------------------------------------------------------------------------------------

  /** What is kept of a text that has no words. */
  function Bare(raw: string): string {
    Capped(Lower(Strip(raw)), MAX_KEY)
  }

  lemma ValueIsKey(value: string)
    ensures NormalizedValue(value) == NormalizeKey(value)
  {
    if value == [] {
      assert !HasContent(value);
      KeyOfNoContent(value);
    }
  }

  lemma SameKeySameId(key: string, v: string, w: string)
    ensures ClaimIdentity(key, v) == ClaimIdentity(key, w) <==> NormalizedValue(v) == NormalizedValue(w)
  {
    if ClaimIdentity(key, v) == ClaimIdentity(key, w) {
      var front := key + [':'];
      DerivedIsInjective(front + NormalizedValue(v), front + NormalizedValue(w));
      assert NormalizedValue(v) == (front + NormalizedValue(v))[|front|..];
      assert NormalizedValue(w) == (front + NormalizedValue(w))[|front|..];
    }
  }

  lemma NoContentInKey(raw: string)
    requires !HasContent(raw)
    ensures forall i :: 0 <= i < |NormalizeKey(raw)| ==> !IsContent(NormalizeKey(raw)[i])
  {
    KeyOfNoContent(raw);
    var stripped := Strip(raw);
    forall i | 0 <= i < |NormalizeKey(raw)| ensures !IsContent(NormalizeKey(raw)[i]) {
      assert NormalizeKey(raw)[i] == LowerChar(stripped[i]);
      StripKeeps(raw, stripped[i]);
    }
  }

  /** About one subject, two values that are not cut are one claim exactly when
      they have the same words in the same parts or, if neither has any, when
      nothing but case and outer spacing differs. */
  lemma ValuesAreTheirWords(key: string, v: string, w: string)
    requires Fits(v) && Fits(w)
    ensures ClaimIdentity(key, v) == ClaimIdentity(key, w) <==>
              KeyWords(v) == KeyWords(w) && (KeyWords(v) == [] ==> Bare(v) == Bare(w))
  {
    SameKeySameId(key, v, w);
    ValueIsKey(v);
    ValueIsKey(w);
    WordsAreContent(v);
    WordsAreContent(w);
    if HasContent(v) && HasContent(w) {
      KeysAreTheirWords(v, w);
    } else if HasContent(v) {
      KeyStartsWithContent(v);
      NoContentInKey(w);
    } else if HasContent(w) {
      KeyStartsWithContent(w);
      NoContentInKey(v);
    } else {
      KeyOfNoContent(v);
      KeyOfNoContent(w);
    }
  }

  lemma RunsOfNumber(raw: string)
    ensures raw == "5" || raw == "-5" || raw == "5%" ==> Runs(raw) == ["5"]
    ensures raw == "1.5" || raw == "1 5" ==> Runs(raw) == ["1", "5"]
  {
    var five := "5";
    assert five[1..] == [] && Runs(five) == [five];
    if raw == "-5" {
      assert raw[1..] == five;
    } else if raw == "5%" {
      var percent := "%";
      assert raw[1..] == percent && percent[1..] == [] && Runs(percent) == [];
      assert [five] + [] == [five];
    } else if raw == "1.5" || raw == "1 5" {
      assert raw[1..][1..] == five;
      assert Runs(raw[1..]) == [five];
      assert ["1"] + [five] == ["1", "5"];
    }
  }

  lemma NumberWords(raw: string, words: seq<string>)
    requires '|' !in raw && Lower(raw) == raw && Runs(raw) == words && words != []
    ensures KeyWords(raw) == [words]
  {
    SplitWithoutBars(raw);
    OnePart(raw);
  }

  /** So not every two numbers: the sign, the unit and the point are no words,
      and these are one claim each. */
  lemma NumbersMerged(key: string, v: string, w: string)
    requires (v, w) in {("-5", "5"), ("5%", "5"), ("1.5", "1 5")}
    ensures ClaimIdentity(key, v) == ClaimIdentity(key, w)
  {
    RunsOfNumber(v);
    RunsOfNumber(w);
    NumberWords(v, Runs(v));
    NumberWords(w, Runs(w));
    SameKeySameId(key, v, w);
    ValueIsKey(v);
    ValueIsKey(w);
    SameWordsSameKey(v, w);
  }

  // --- values a claim can have -------------------------------------------------------------------------

  /** One plain space, with something that is none on either side. */
  predicate SingleSpace(s: string, i: int) {
    0 < i && i + 1 < |s| && s[i] == ' ' && !IsSpace(s[i + 1])
  }

  /** All its whitespace is single spaces inside. */
  predicate WellSpaced(s: string) {
    forall i :: 0 <= i < |s| && IsSpace(s[i]) ==> SingleSpace(s, i)
  }

  /** Some characters, none of them whitespace. */
  predicate IsUnspaced(word: string) {
    word != [] && forall i :: 0 <= i < |word| ==> !IsSpace(word[i])
  }

  lemma {:induction false} WordsAreUnspaced(s: string)
    ensures forall i :: 0 <= i < |Words(s)| ==> IsUnspaced(Words(s)[i])
  {
    if s != [] {
      WordsAreUnspaced(s[1..]);
    }
  }

  lemma WordThenSpaced(word: string, rest: string)
    requires IsUnspaced(word) && WellSpaced(rest) && rest != [] && !IsSpace(rest[0])
    ensures WellSpaced(word + " " + rest)
  {
    var s := word + " " + rest;
    assert forall k :: 0 <= k < |word| ==> s[k] == word[k];
    forall i | 0 <= i < |s| && IsSpace(s[i]) ensures SingleSpace(s, i) {
      if i > |word| {
        assert s[i] == rest[i - |word| - 1];
        assert SingleSpace(rest, i - |word| - 1);
      }
    }
  }

  lemma {:induction false} SpacedIsWellSpaced(words: seq<string>)
    requires forall i :: 0 <= i < |words| ==> IsUnspaced(words[i])
    ensures WellSpaced(Spaced(words)) && (words != [] ==> Spaced(words) != [] && !IsSpace(Spaced(words)[0]))
    decreases |words|
  {
    if words != [] {
      assert IsUnspaced(words[0]);
      SpacedIsWellSpaced(words[1..]);
      if |words| > 1 {
        WordThenSpaced(words[0], Spaced(words[1..]));
      }
    }
  }

  lemma EndsUnspaced(s: string)
    requires WellSpaced(s) && s != []
    ensures !IsSpace(s[0]) && !IsSpace(s[|s| - 1])
  {
    assert IsSpace(s[0]) ==> SingleSpace(s, 0);
    assert IsSpace(s[|s| - 1]) ==> SingleSpace(s, |s| - 1);
  }

  lemma AfterOne(s: string)
    requires WellSpaced(s) && s != []
    ensures |s| > 1 && IsSpace(s[1]) ==> |s| > 2 && s[1] == ' ' && !IsSpace(s[2]) && WellSpaced(s[2..])
    ensures |s| > 1 && !IsSpace(s[1]) ==> WellSpaced(s[1..])
  {
    if |s| > 1 {
      var n := if IsSpace(s[1]) then 2 else 1;
      if n == 2 {
        assert SingleSpace(s, 1);
      }
      forall i | 0 <= i < |s[n..]| && IsSpace(s[n..][i]) ensures SingleSpace(s[n..], i) {
        assert SingleSpace(s, n + i);
      }
    }
  }

  /** What is well spaced is as reflowing would have it. */
  lemma {:induction false} WellSpacedStays(s: string)
    requires WellSpaced(s)
    ensures Reflowed(s) == s && (s != [] ==> Words(s) != [])
    decreases |s|
  {
    if s != [] {
      EndsUnspaced(s);
      AfterOne(s);
      if |s| == 1 {
        assert Words(s) == [[s[0]]];
      } else if IsSpace(s[1]) {
        var rest := s[2..];
        WellSpacedStays(rest);
        assert s[1..][1..] == rest && Words(s[1..]) == Words(rest);
        SpacedCons(s[0], Words(rest));
        assert s == [s[0]] + " " + rest;
      } else {
        WellSpacedStays(s[1..]);
        SpacedGrows(s[0], Words(s[1..]));
        assert s == [s[0]] + s[1..];
      }
    }
  }

  /** The values claims have are the well-spaced ones: no other is ever kept, and
      each of them is, of a claim that says no more than it. */
  lemma AssertedIsWellSpaced(value: string, text: string, v: string)
    ensures WellSpaced(AssertedValue(value, text))
    ensures WellSpaced(v) ==> AssertedValue(v, v) == v
  {
    WordsAreUnspaced(value);
    SpacedIsWellSpaced(Words(value));
    if WellSpaced(v) {
      WellSpacedStays(v);
      assert StandsAt(Lower(v), Lower(v), 0);
    }
  }

  // --- keys --------------------------------------------------------------------------------------------

  /** If the two assertions have one id, they are of the same subject and the
      same value. */
  predicate ToldApart(raw: string, v: string, other: string, w: string) {
    ClaimIdentity(NormalizeKey(raw), v) == ClaimIdentity(NormalizeKey(other), w) ==>
      NormalizeKey(raw) == NormalizeKey(other) && NormalizedValue(v) == NormalizedValue(w)
  }

  /** An id of a claim about `raw` is the id of nothing else a claim can be: not
      of another subject, and not of another value. */
  ghost predicate Unmistakable(raw: string) {
    forall v, other, w ::
      NormalizeKey(other) != [] && WellSpaced(v) && WellSpaced(w) ==> ToldApart(raw, v, other, w)
  }

  /** A key with a letter or a digit is not mistaken for any other, blank or
      not, whatever the values. */
  lemma ContentIsUnmistakable(raw: string, v: string, other: string, w: string)
    requires HasContent(raw)
    ensures ClaimIdentity(NormalizeKey(raw), v) == ClaimIdentity(NormalizeKey(other), w)
            <==> NormalizeKey(raw) == NormalizeKey(other) && NormalizedValue(v) == NormalizedValue(w)
  {
    var one, two := NormalizeKey(raw), NormalizeKey(other);
    KeyOfContent(raw, ':');
    KeyStartsWithContent(raw);
    if HasContent(other) {
      KeyOfContent(other, ':');
      IdentityTellsApart(one, v, two, w);
    } else {
      NoContentInKey(other);
      var a, b := one + [':'] + NormalizedValue(v), two + [':'] + NormalizedValue(w);
      assert a[0] == one[0] && b[0] == if two == [] then ':' else two[0];
      if ClaimIdentity(one, v) == ClaimIdentity(two, w) {
        DerivedIsInjective(a, b);
      }
    }
  }

  /** Signs are left alone when none of them is a space at either end. */
  lemma SignsStay(raw: string)
    requires raw != [] && |raw| <= MAX_KEY && Lower(raw) == raw && !HasContent(raw)
    requires !IsSpace(raw[0]) && !IsSpace(raw[|raw| - 1])
    ensures NormalizeKey(raw) == raw
  {
    KeyOfNoContent(raw);
    assert StripLeft(raw) == raw && StripRight(raw) == raw;
  }

  /** A key without content, as it stands: lower case, without content, and with
      no space in front; nor behind, unless it was cut. */
  lemma BareKey(raw: string)
    requires !HasContent(raw) && NormalizeKey(raw) != []
    ensures var key := NormalizeKey(raw);
            && |key| <= MAX_KEY && Lower(key) == key && !HasContent(key) && !IsSpace(key[0])
            && (|key| < MAX_KEY ==> !IsSpace(key[|key| - 1]))
  {
    var key := NormalizeKey(raw);
    KeyOfNoContent(raw);
    NoContentInKey(raw);
    StripEnds(raw);
    LowerAgain(Strip(raw));
    assert Lower(key) == key;
    forall c | c in key ensures !IsContent(LowerChar(c)) {
      var i :| 0 <= i < |key| && key[i] == c;
      assert Lower(key)[i] == LowerChar(c);
    }
  }

  lemma {:induction false} StripLeftEnds(s: string)
    ensures StripLeft(s) != [] ==> !IsSpace(StripLeft(s)[0])
  {
    if s != [] && IsSpace(s[0]) {
      StripLeftEnds(s[1..]);
    }
  }

  lemma {:induction false} StripRightEnds(s: string)
    ensures StripRight(s) <= s
    ensures StripRight(s) != [] ==> !IsSpace(StripRight(s)[|StripRight(s)| - 1])
  {
    if s != [] && IsSpace(s[|s| - 1]) {
      StripRightEnds(s[..|s| - 1]);
    }
  }

  lemma SpaceStaysSpace(c: char)
    ensures IsSpace(LowerChar(c)) <==> IsSpace(c)
    ensures LowerChar(LowerChar(c)) == LowerChar(c)
  {
  }

  lemma LowerAgain(s: string)
    ensures Lower(Lower(s)) == Lower(s)
  {
  }

  lemma StripEnds(raw: string)
    ensures var lower := Lower(Strip(raw));
            lower != [] ==> !IsSpace(lower[0]) && !IsSpace(lower[|lower| - 1])
  {
    StripLeftEnds(raw);
    StripRightEnds(StripLeft(raw));
    var stripped := Strip(raw);
    if stripped != [] {
      SpaceStaysSpace(stripped[0]);
      SpaceStaysSpace(stripped[|stripped| - 1]);
    }
  }

  /** A colon with a sign on its left, where what is on its right could begin a
      value. */
  predicate ColonAt(key: string, i: int) {
    1 <= i < |key| && key[i] == ':' && !IsSpace(key[i - 1]) && WellSpaced(key[i + 1..] + ":")
  }

  /** Whether the id of a claim about `raw` is its own. */
  predicate KeyIsSafe(raw: string) {
    HasContent(raw) || (|NormalizeKey(raw)| == MAX_KEY && forall i :: 0 <= i < MAX_KEY ==> !ColonAt(NormalizeKey(raw), i))
  }

  lemma NoContentJoined(a: string, b: string)
    requires !HasContent(a) && !HasContent(b)
    ensures !HasContent(a + b)
  {
  }

  lemma NoContentWithin(s: string, t: string)
    requires !HasContent(s) && forall c :: c in t ==> c in s
    ensures !HasContent(t)
  {
  }

  lemma SameJoined(a: string, v: string, b: string, w: string)
    requires a + [':'] + NormalizedValue(v) == b + [':'] + NormalizedValue(w)
    ensures ClaimIdentity(a, v) == ClaimIdentity(b, w)
  {
  }

  lemma ColonStays(value: string)
    requires value == ":"
    ensures NormalizedValue(value) == value
  {
    SignsStay(value);
  }

  /** A key without content is mistaken for the one a colon longer, if there is
      room for it: what ends the one key begins the other's value. */
  lemma LongerKeyCollides(raw: string, value: string)
    requires !HasContent(raw) && 0 < |NormalizeKey(raw)| < MAX_KEY && value == ":"
    ensures var other := NormalizeKey(raw) + value;
            && NormalizeKey(other) == other != NormalizeKey(raw)
            && ClaimIdentity(NormalizeKey(raw), value) == ClaimIdentity(NormalizeKey(other), [])
  {
    var key := NormalizeKey(raw);
    var other := key + value;
    BareKey(raw);
    assert !HasContent(value);
    NoContentJoined(key, value);
    assert Lower(other) == other;
    SignsStay(other);
    ColonStays(value);
    assert key + [':'] + value == other + [':'] + [];
    SameJoined(key, value, other, []);
  }

  /** A piece of signs, cut where no space is, is a key of its own. */
  lemma PieceStays(key: string, from: nat, to: nat)
    requires from < to <= |key| <= MAX_KEY && Lower(key) == key && !HasContent(key)
    requires !IsSpace(key[from]) && !IsSpace(key[to - 1])
    ensures NormalizeKey(key[from..to]) == key[from..to]
  {
    var piece := key[from..to];
    forall k | 0 <= k < |piece| ensures Lower(piece)[k] == piece[k] {
      assert Lower(key)[from + k] == LowerChar(piece[k]);
    }
    NoContentWithin(key, piece);
    SignsStay(piece);
  }

  lemma PieceAndColon(key: string, from: nat, value: string)
    requires 0 < from <= |key| <= MAX_KEY && Lower(key) == key && !HasContent(key)
    requires from < |key| ==> !IsSpace(key[from])
    requires value == key[from..] + ":"
    ensures NormalizeKey(value) == value
  {
    var piece := key[from..];
    forall k | 0 <= k < |value| ensures Lower(value)[k] == value[k] {
      if k < |piece| {
        assert value[k] == key[from + k] == Lower(key)[from + k];
      }
    }
    NoContentWithin(key, piece);
    NoContentJoined(piece, ":");
    SignsStay(value);
  }

  lemma SameAtColon(key: string, i: nat)
    requires i < |key| && key[i] == ':'
    ensures key + [':'] + [] == key[..i] + [':'] + (key[i + 1..] + ":")
  {
  }

  /** And one that fills its room, for what is before a colon in it. */
  lemma ShorterKeyCollides(raw: string, i: nat, other: string, value: string)
    requires !HasContent(raw) && NormalizeKey(raw) != [] && ColonAt(NormalizeKey(raw), i)
    requires other == NormalizeKey(raw)[..i] && value == NormalizeKey(raw)[i + 1..] + ":"
    ensures NormalizeKey(other) == other != [] && other != NormalizeKey(raw)
    ensures ClaimIdentity(NormalizeKey(raw), []) == ClaimIdentity(NormalizeKey(other), value)
  {
    var key := NormalizeKey(raw);
    BareKey(raw);
    PieceStays(key, 0, i);
    assert key[0..i] == other;
    EndsUnspaced(value);
    PieceAndColon(key, i + 1, value);
    SameAtColon(key, i);
    SameJoined(key, [], other, value);
  }

  lemma KeyIsShort(raw: string)
    ensures |NormalizeKey(raw)| <= MAX_KEY
  {
  }

  lemma WellSpacedFront(s: string, n: nat)
    requires WellSpaced(s) && n <= |s| && (n > 0 ==> !IsSpace(s[n - 1]))
    ensures WellSpaced(s[..n])
  {
    forall i | 0 <= i < n && IsSpace(s[..n][i]) ensures SingleSpace(s[..n], i) {
      assert SingleSpace(s, i);
    }
  }

  /** A well-spaced value of signs is its own key, but for length. */
  lemma SignsOfValue(w: string)
    requires !HasContent(w) && WellSpaced(w)
    ensures NormalizedValue(w) <= w
  {
    ValueIsKey(w);
    KeyOfNoContent(w);
    if w != [] {
      EndsUnspaced(w);
      assert StripLeft(w) == w && StripRight(w) == w;
      forall i | 0 <= i < |w| ensures Lower(w)[i] == w[i] {
        assert w[i] in w;
      }
    }
  }

  /** What a shorter key would have to be, to have the id of a full one. */
  lemma CollisionIsAtColon(raw: string, v: string, other: string, w: string)
    requires !HasContent(raw) && |NormalizeKey(raw)| == MAX_KEY && 0 < |NormalizeKey(other)| < MAX_KEY && WellSpaced(w)
    requires ClaimIdentity(NormalizeKey(raw), v) == ClaimIdentity(NormalizeKey(other), w)
    ensures ColonAt(NormalizeKey(raw), |NormalizeKey(other)|)
  {
    var key, short := NormalizeKey(raw), NormalizeKey(other);
    var i := |short|;
    var one, two := key + [':'] + NormalizedValue(v), short + [':'] + NormalizedValue(w);
    DerivedIsInjective(one, two);
    assert key[i] == one[i] == two[i] == ':';
    assert key[i - 1] == one[i - 1] == two[i - 1] == short[i - 1];
    assert key[0] == one[0] == two[0] == short[0];
    NoContentInKey(raw);
    if HasContent(other) {
      KeyStartsWithContent(other);
    } else {
      BareKey(other);
    }
    ValueAfterColon(key, v, i, w, one, two);
  }

  lemma ValueAfterColon(key: string, v: string, i: nat, w: string, one: string, two: string)
    requires i < |key| && WellSpaced(w) && forall k :: 0 <= k < |key| ==> !IsContent(key[k])
    requires one == key + [':'] + NormalizedValue(v) && one == two
    requires |two| >= i + 1 && two[i + 1..] == NormalizedValue(w)
    ensures WellSpaced(key[i + 1..] + ":")
  {
    var front, value := key[i + 1..] + ":", NormalizedValue(w);
    assert one[i + 1..] == front + NormalizedValue(v);
    assert value == front + NormalizedValue(v);
    assert value[0] == if i + 1 < |key| then key[i + 1] else ':';
    ValueIsKey(w);
    if HasContent(w) {
      KeyStartsWithContent(w);
    } else {
      SignsOfValue(w);
      assert front == w[..|front|];
      WellSpacedFront(w, |front|);
    }
  }

  lemma OnlyFullKeysCollide(raw: string, v: string, other: string, w: string)
    requires !HasContent(raw) && |NormalizeKey(raw)| == MAX_KEY && KeyIsSafe(raw)
    requires NormalizeKey(other) != [] && WellSpaced(w)
    requires ClaimIdentity(NormalizeKey(raw), v) == ClaimIdentity(NormalizeKey(other), w)
    ensures |NormalizeKey(other)| == MAX_KEY
  {
    KeyIsShort(other);
    if |NormalizeKey(other)| < MAX_KEY {
      CollisionIsAtColon(raw, v, other, w);
    }
  }

  lemma FullKeyIsUnmistakable(raw: string, v: string, other: string, w: string)
    requires !HasContent(raw) && |NormalizeKey(raw)| == MAX_KEY && KeyIsSafe(raw)
    requires NormalizeKey(other) != [] && WellSpaced(w)
    requires ClaimIdentity(NormalizeKey(raw), v) == ClaimIdentity(NormalizeKey(other), w)
    ensures NormalizeKey(raw) == NormalizeKey(other) && NormalizedValue(v) == NormalizedValue(w)
  {
    OnlyFullKeysCollide(raw, v, other, w);
    SameLengthSame(NormalizeKey(raw), v, NormalizeKey(other), w);
  }

  lemma SameLengthSame(one: string, v: string, two: string, w: string)
    requires |one| == |two| && ClaimIdentity(one, v) == ClaimIdentity(two, w)
    ensures one == two && NormalizedValue(v) == NormalizedValue(w)
  {
    var a, b := one + [':'] + NormalizedValue(v), two + [':'] + NormalizedValue(w);
    DerivedIsInjective(a, b);
    assert one == a[..|one|] && two == b[..|two|];
    assert NormalizedValue(v) == a[|one| + 1..] && NormalizedValue(w) == b[|two| + 1..];
  }

  lemma MistakenFor(raw: string, v: string, other: string, w: string)
    requires NormalizeKey(other) != [] && NormalizeKey(raw) != NormalizeKey(other) && WellSpaced(v) && WellSpaced(w)
    requires ClaimIdentity(NormalizeKey(raw), v) == ClaimIdentity(NormalizeKey(other), w)
    ensures !Unmistakable(raw)
  {
    assert !ToldApart(raw, v, other, w);
  }

  lemma UnsafeKeyIsMistaken(raw: string)
    requires NormalizeKey(raw) != [] && !KeyIsSafe(raw)
    ensures !Unmistakable(raw)
  {
    var key := NormalizeKey(raw);
    KeyIsShort(raw);
    if |key| < MAX_KEY {
      LongerKeyCollides(raw, ":");
      MistakenFor(raw, ":", key + ":", []);
    } else {
      var i :| 0 <= i < MAX_KEY && ColonAt(key, i);
      var other, value := key[..i], key[i + 1..] + ":";
      ShorterKeyCollides(raw, i, other, value);
      MistakenFor(raw, [], other, value);
    }
  }

  lemma SafePair(raw: string, v: string, other: string, w: string)
    requires KeyIsSafe(raw) && NormalizeKey(other) != [] && WellSpaced(w)
    ensures ToldApart(raw, v, other, w)
  {
    if ClaimIdentity(NormalizeKey(raw), v) == ClaimIdentity(NormalizeKey(other), w) {
      if HasContent(raw) {
        ContentIsUnmistakable(raw, v, other, w);
      } else {
        FullKeyIsUnmistakable(raw, v, other, w);
      }
    }
  }

  lemma SafeKeyIsUnmistakable(raw: string)
    requires KeyIsSafe(raw)
    ensures Unmistakable(raw)
  {
    forall v, other, w | NormalizeKey(other) != [] && WellSpaced(v) && WellSpaced(w) ensures ToldApart(raw, v, other, w) {
      SafePair(raw, v, other, w);
    }
  }

  /** The exact condition, to be checked on the raw key: claims about it share
      ids with no others if and only if it has a letter or a digit or, having
      none, fills all the room a key has and could be parted at no colon. */
  lemma WhenIdentityTellsApart(raw: string)
    requires NormalizeKey(raw) != []
    ensures Unmistakable(raw) <==> KeyIsSafe(raw)
  {
    if KeyIsSafe(raw) {
      SafeKeyIsUnmistakable(raw);
    } else {
      UnsafeKeyIsMistaken(raw);
    }
  }
}
