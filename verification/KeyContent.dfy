/** A grouping key is its words: what `normalize_key` keeps of a raw key, said
    without substituting or stripping anything. */
module KeyContent {
  import opened Distinct
  import opened Keys

  /** The runs of letters and digits of a lower-case text. */
  function Runs(s: string): (words: seq<string>)
    ensures forall i :: 0 <= i < |words| ==> words[i] != []
    ensures s != [] && IsContent(s[0]) ==> words != [] && words[0][0] == s[0]
  {
    if s == [] then []
    else
      var rest := Runs(s[1..]);
      if !IsContent(s[0]) then rest
      else if |s| == 1 || !IsContent(s[1]) then [[s[0]]] + rest
      else [[s[0]] + rest[0]] + rest[1..]
  }

  /** What a raw key is about: the words of each part that has any. */
  function PartWords(parts: seq<string>): seq<seq<string>> {
    if parts == [] then []
    else
      var words := Runs(Lower(parts[0]));
      (if words == [] then [] else [words]) + PartWords(parts[1..])
  }

  function KeyWords(raw: string): seq<seq<string>> {
    PartWords(Split(raw))
  }

  /** Words with a space between, parts with a bar. */
  function Rendered(parts: seq<seq<string>>): string {
    if parts == [] then []
    else if |parts| == 1 then Spaced(parts[0])
    else Spaced(parts[0]) + " | " + Rendered(parts[1..])
  }

  // --- stripping -------------------------------------------------------------------------------------

  lemma {:induction false} StripRightKeepsFront(a: string, x: string)
    requires StripRight(x) != []
    ensures StripRight(a + x) == a + StripRight(x)
    decreases |x|
  {
    var whole := a + x;
    assert whole[|whole| - 1] == x[|x| - 1];
    if IsSpace(x[|x| - 1]) {
      StripRightKeepsFront(a, x[..|x| - 1]);
      assert whole[..|whole| - 1] == a + x[..|x| - 1];
    }
  }

  lemma {:induction false} ContentStaysRight(x: string)
    requires x != [] && !IsSpace(x[0])
    ensures StripRight(x) != []
    decreases |x|
  {
    if IsSpace(x[|x| - 1]) {
      ContentStaysRight(x[..|x| - 1]);
    }
  }

  lemma SpaceInFront(x: string)
    ensures Strip(" " + x) == Strip(x)
  {
    assert (" " + x)[1..] == x;
  }

  /** Text before text that does not start with a space is not stripped into. */
  lemma StripAfter(a: string, x: string)
    requires a != [] && !IsSpace(a[0]) && x != [] && !IsSpace(x[0])
    ensures Strip(a + x) == a + Strip(x)
  {
    ContentStaysRight(x);
    StripRightKeepsFront(a, x);
    assert (a + x)[0] == a[0];
  }

  lemma OneThenSpace(c: char)
    requires !IsSpace(c)
    ensures Strip([c]) == [c] && Strip([c] + " ") == [c]
  {
    var s := [c] + " ";
    assert s[..1] == [c];
    assert StripLeft(s) == s;
  }

  // --- one part --------------------------------------------------------------------------------------

  lemma {:induction false} NoiseHasNoRuns(s: string, n: nat)
    requires n <= |s| && forall i :: 0 <= i < n ==> !IsContent(s[i])
    ensures Runs(s) == Runs(s[n..])
  {
    if n == 0 {
      assert s[0..] == s;
    } else {
      NoiseHasNoRuns(s[1..], n - 1);
      assert s[1..][n - 1..] == s[n..];
    }
  }

  lemma SpacedGrows(c: char, words: seq<string>)
    requires words != []
    ensures Spaced([[c] + words[0]] + words[1..]) == [c] + Spaced(words)
  {
    var grown := [[c] + words[0]] + words[1..];
    assert grown[1..] == words[1..];
    assert words == [words[0]] + words[1..];
  }

  lemma SpacedCons(c: char, words: seq<string>)
    requires words != []
    ensures Spaced([[c]] + words) == [c] + " " + Spaced(words)
  {
    assert ([[c]] + words)[1..] == words;
  }

  /** What a substituted and stripped text comes to is its words. */
  lemma {:induction false} CleanedIsRuns(s: string)
    requires '|' !in s
    ensures Strip(Cleaned(s)) == Spaced(Runs(s))
    decreases |s|
  {
    if s != [] {
      assert forall c :: c in s[1..] ==> c in s;
      if !IsContent(s[0]) {
        var n := NoiseRun(s);
        assert forall c :: c in s[n..] ==> c in s;
        CleanedIsRuns(s[n..]);
        NoiseHasNoRuns(s, n);
        SpaceInFront(Cleaned(s[n..]));
      } else {
        ContentThenRuns(s);
      }
    }
  }

  lemma ContentIsCleaned(s: string)
    requires s != [] && IsContent(s[0])
    ensures Cleaned(s) == [s[0]] + Cleaned(s[1..])
  {
  }

  lemma ContentIsNoSpace(c: char)
    requires IsContent(c)
    ensures !IsSpace(c)
  {
  }

  lemma RunsOfContent(s: string)
    requires s != [] && IsContent(s[0])
    ensures |s| == 1 ==> Runs(s) == [[s[0]]]
    ensures |s| > 1 && IsContent(s[1]) ==> Runs(s[1..]) != [] && Runs(s) == [[s[0]] + Runs(s[1..])[0]] + Runs(s[1..])[1..]
    ensures |s| > 1 && !IsContent(s[1]) ==> Runs(s) == [[s[0]]] + Runs(s[1..])
  {
  }

  /** One more letter of a word. */
  lemma LongerWord(s: string)
    requires |s| > 1 && IsContent(s[0]) && IsContent(s[1]) && Strip(Cleaned(s[1..])) == Spaced(Runs(s[1..]))
    ensures Strip(Cleaned(s)) == Spaced(Runs(s))
  {
    var x, words := Cleaned(s[1..]), Runs(s[1..]);
    ContentIsCleaned(s);
    ContentIsCleaned(s[1..]);
    ContentIsNoSpace(s[0]);
    ContentIsNoSpace(s[1]);
    StripAfter([s[0]], x);
    RunsOfContent(s);
    SpacedGrows(s[0], words);
  }

  lemma WordThenText(c: char, y: string, whole: string)
    requires IsContent(c) && y != [] && IsContent(y[0]) && whole == [c] + (" " + y)
    ensures Strip(whole) == [c] + " " + Strip(y)
  {
    var front := [c] + " ";
    assert whole == front + y;
    StripAfter(front, y);
  }

  /** A word, with another after it. */
  lemma NextWord(s: string, n: nat)
    requires 1 + n < |s| && n > 0 && IsContent(s[0]) && !IsContent(s[1]) && IsContent(s[1 + n])
    requires Cleaned(s[1..]) == " " + Cleaned(s[1 + n..]) && Runs(s[1..]) == Runs(s[1 + n..])
    requires Strip(Cleaned(s[1 + n..])) == Spaced(Runs(s[1 + n..]))
    ensures Strip(Cleaned(s)) == Spaced(Runs(s))
  {
    var last := s[1 + n..];
    var y, words, whole := Cleaned(last), Runs(last), Cleaned(s);
    assert y != [] && IsContent(y[0]) && words != [] by {
      assert last[0] == s[1 + n];
      ContentIsCleaned(last);
    }
    assert whole == [s[0]] + (" " + y) by {
      ContentIsCleaned(s);
    }
    WordThenText(s[0], y, whole);
    assert Runs(s) == [[s[0]]] + words by {
      RunsOfContent(s);
    }
    SpacedCons(s[0], words);
  }

  lemma LastWord(s: string)
    requires s != [] && IsContent(s[0]) && (|s| > 1 ==> !IsContent(s[1]))
    requires Cleaned(s[1..]) == [] || Cleaned(s[1..]) == " "
    requires Runs(s[1..]) == []
    ensures Strip(Cleaned(s)) == Spaced(Runs(s))
  {
    ContentIsCleaned(s);
    ContentIsNoSpace(s[0]);
    OneThenSpace(s[0]);
    RunsOfContent(s);
    assert [s[0]] + [] == [s[0]];
    assert [[s[0]]] + Runs(s[1..]) == [[s[0]]];
  }

  lemma ContentThenRuns(s: string)
    requires '|' !in s && s != [] && IsContent(s[0])
    ensures Strip(Cleaned(s)) == Spaced(Runs(s))
    decreases |s|, 0
  {
    var rest := s[1..];
    assert forall d :: d in rest ==> d in s;
    if rest == [] {
      LastWord(s);
    } else if IsContent(rest[0]) {
      ContentThenRuns(rest);
      LongerWord(s);
    } else {
      assert rest[0] in rest;
      var n := NoiseRun(rest);
      NoiseHasNoRuns(rest, n);
      assert rest[n..] == s[1 + n..];
      if n == |rest| {
        LastWord(s);
      } else {
        assert rest[n] in rest;
        assert forall d :: d in rest[n..] ==> d in rest;
        ContentThenRuns(rest[n..]);
        NextWord(s, n);
      }
    }
  }

  lemma SpaceIsNoise(c: char)
    requires IsSpace(c)
    ensures !IsContent(LowerChar(c))
  {
  }

  lemma {:induction false} RunsIgnoreEnd(s: string)
    requires s != [] && !IsContent(s[|s| - 1])
    ensures Runs(s) == Runs(s[..|s| - 1])
    decreases |s|
  {
    if |s| > 1 {
      RunsIgnoreEnd(s[1..]);
      assert s[1..][..|s| - 2] == s[..|s| - 1][1..];
      assert |s| > 2 ==> s[..|s| - 1][1] == s[1];
    }
  }

  lemma {:induction false} RunsOfStripLeft(s: string)
    ensures Runs(Lower(StripLeft(s))) == Runs(Lower(s))
  {
    if s != [] && IsSpace(s[0]) {
      SpaceIsNoise(s[0]);
      RunsOfStripLeft(s[1..]);
      assert Lower(s)[1..] == Lower(s[1..]);
    }
  }

  lemma {:induction false} RunsOfStripRight(s: string)
    ensures Runs(Lower(StripRight(s))) == Runs(Lower(s))
  {
    if s != [] && IsSpace(s[|s| - 1]) {
      SpaceIsNoise(s[|s| - 1]);
      RunsOfStripRight(s[..|s| - 1]);
      RunsIgnoreEnd(Lower(s));
      assert Lower(s)[..|s| - 1] == Lower(s[..|s| - 1]);
    }
  }

  lemma BarsStayAway(part: string)
    requires '|' !in part
    ensures '|' !in Lower(Strip(part))
  {
    var stripped := Strip(part);
    forall i | 0 <= i < |stripped| ensures Lower(stripped)[i] != '|' {
      assert stripped[i] in stripped;
      StripKeeps(part, stripped[i]);
    }
  }

  lemma CleanPartIsRuns(part: string)
    requires '|' !in part
    ensures CleanPart(part) == Spaced(Runs(Lower(part)))
  {
    BarsStayAway(part);
    CleanedIsRuns(Lower(Strip(part)));
    RunsOfStripLeft(part);
    RunsOfStripRight(StripLeft(part));
  }

  // --- whole keys ------------------------------------------------------------------------------------

  lemma SpacedIsThere(words: seq<string>)
    requires forall i :: 0 <= i < |words| ==> words[i] != []
    ensures Spaced(words) == [] <==> words == []
  {
  }

  function Spacings(parts: seq<seq<string>>): (r: seq<string>)
    ensures |r| == |parts|
  {
    if parts == [] then [] else [Spaced(parts[0])] + Spacings(parts[1..])
  }

  lemma {:induction false} CleanPartsAreWords(parts: seq<string>)
    requires forall i :: 0 <= i < |parts| ==> '|' !in parts[i]
    ensures CleanParts(parts) == Spacings(PartWords(parts))
  {
    if parts != [] {
      CleanPartsAreWords(parts[1..]);
      CleanPartIsRuns(parts[0]);
      SpacedIsThere(Runs(Lower(parts[0])));
      var words, rest := Runs(Lower(parts[0])), PartWords(parts[1..]);
      if words == [] {
        assert PartWords(parts) == rest;
      } else {
        assert PartWords(parts)[1..] == rest;
      }
    }
  }

  lemma {:induction false} JoinedIsRendered(parts: seq<seq<string>>)
    ensures Joined(Spacings(parts)) == Rendered(parts)
  {
    if |parts| > 1 {
      JoinedIsRendered(parts[1..]);
      assert Spacings(parts)[1..] == Spacings(parts[1..]);
    } else if |parts| == 1 {
      assert Spacings(parts[1..]) == [];
    }
  }

  lemma PartsHaveNoBars(raw: string)
    ensures forall i :: 0 <= i < |Split(raw)| ==> '|' !in Split(raw)[i]
  {
    SplitHasNoBars(raw);
    forall i | 0 <= i < |Split(raw)| ensures '|' !in Split(raw)[i] {
      assert Split(raw)[i] in Split(raw);
    }
  }

  /** A normalised key is its words, lower case, in their parts, cut to length;
      only a raw key with no words at all is kept as it stands. */
  lemma KeyIsItsWords(raw: string)
    ensures var words := Capped(Rendered(KeyWords(raw)), MAX_KEY);
            NormalizeKey(raw) == if words != [] then words else Capped(Lower(Strip(raw)), MAX_KEY)
  {
    PartsHaveNoBars(raw);
    CleanPartsAreWords(Split(raw));
    JoinedIsRendered(KeyWords(raw));
  }

  lemma RenderedIsThere(parts: seq<seq<string>>)
    requires parts != [] && parts[0] != [] && forall i :: 0 <= i < |parts[0]| ==> parts[0][i] != []
    ensures Rendered(parts) != []
  {
    SpacedIsThere(parts[0]);
  }

  lemma {:induction false} PartWordsAreThere(parts: seq<string>)
    ensures forall i :: 0 <= i < |PartWords(parts)| ==>
              PartWords(parts)[i] != [] && forall k :: 0 <= k < |PartWords(parts)[i]| ==> PartWords(parts)[i][k] != []
  {
    if parts != [] {
      PartWordsAreThere(parts[1..]);
    }
  }

  /** Formatting does not matter: raw keys with the same words in the same parts
      are one key, whatever their case, spacing and punctuation. */
  lemma SameWordsSameKey(raw: string, other: string)
    requires KeyWords(raw) == KeyWords(other) != []
    ensures NormalizeKey(raw) == NormalizeKey(other)
  {
    KeyIsItsWords(raw);
    KeyIsItsWords(other);
    PartWordsAreThere(Split(raw));
    RenderedIsThere(KeyWords(raw));
  }

  /** One letter in either case, or one and the same character. */
  predicate SameLetter(c: char, d: char) {
    || c == d
    || ('A' <= c <= 'Z' && d as int == c as int + 32)
    || ('A' <= d <= 'Z' && c as int == d as int + 32)
  }

  predicate SameButCase(a: string, b: string) {
    |a| == |b| && forall i :: 0 <= i < |a| ==> SameLetter(a[i], b[i])
  }

  lemma {:induction false} SplitInEitherCase(a: string, b: string)
    requires SameButCase(a, b)
    ensures |Split(a)| == |Split(b)| && forall i :: 0 <= i < |Split(a)| ==> SameButCase(Split(a)[i], Split(b)[i])
  {
    if a != [] {
      assert SameLetter(a[0], b[0]);
      SplitInEitherCase(a[1..], b[1..]);
    }
  }

  lemma LowerInEitherCase(a: string, b: string)
    requires SameButCase(a, b)
    ensures Lower(a) == Lower(b)
  {
    forall i | 0 <= i < |a| ensures Lower(a)[i] == Lower(b)[i] {
      assert SameLetter(a[i], b[i]);
    }
  }

  lemma {:induction false} WordsInEitherCase(parts: seq<string>, others: seq<string>)
    requires |parts| == |others| && forall i :: 0 <= i < |parts| ==> SameButCase(parts[i], others[i])
    ensures PartWords(parts) == PartWords(others)
  {
    if parts != [] {
      LowerInEitherCase(parts[0], others[0]);
      WordsInEitherCase(parts[1..], others[1..]);
    }
  }

  /** Case never matters: a key written with other capitals is the same key. */
  lemma CaseDoesNotMatter(raw: string, other: string)
    requires SameButCase(raw, other)
    ensures NormalizeKey(raw) == NormalizeKey(other)
  {
    SplitInEitherCase(raw, other);
    WordsInEitherCase(Split(raw), Split(other));
    WordsAreContent(raw);
    if KeyWords(raw) != [] {
      SameWordsSameKey(raw, other);
    } else {
      forall i | 0 <= i < |raw| ensures raw[i] == other[i] {
        assert raw[i] in raw && SameLetter(raw[i], other[i]);
        assert !IsContent(LowerChar(raw[i]));
      }
      assert raw == other;
    }
  }

  // --- the words back from the key ---------------------------------------------------------------------

  /** A run of letters and digits. */
  predicate IsWord(word: string) {
    word != [] && forall i :: 0 <= i < |word| ==> IsContent(word[i])
  }

  /** Some words, as one part of a key has them. */
  predicate AreWords(words: seq<string>) {
    words != [] && forall i :: 0 <= i < |words| ==> IsWord(words[i])
  }

  predicate AreParts(parts: seq<seq<string>>) {
    forall i :: 0 <= i < |parts| ==> AreWords(parts[i])
  }

  lemma {:induction false} RunsAreWords(s: string)
    ensures forall i :: 0 <= i < |Runs(s)| ==> IsWord(Runs(s)[i])
  {
    if s != [] {
      RunsAreWords(s[1..]);
    }
  }

  lemma {:induction false} PartWordsAreParts(parts: seq<string>)
    ensures AreParts(PartWords(parts))
  {
    if parts != [] {
      PartWordsAreParts(parts[1..]);
      RunsAreWords(Lower(parts[0]));
    }
  }

  /** A word, and then nothing or something that is not of it. */
  lemma {:induction false} RunsOfWord(word: string, rest: string)
    requires IsWord(word) && (rest == [] || !IsContent(rest[0]))
    ensures Runs(word + rest) == [word] + Runs(rest)
  {
    var whole := word + rest;
    assert whole[1..] == word[1..] + rest;
    if |word| == 1 {
      assert whole[1..] == rest && whole[0] == word[0] && word == [word[0]];
    } else {
      RunsOfWord(word[1..], rest);
      assert whole[1] == word[1] && word == [word[0]] + word[1..];
      assert ([word[1..]] + Runs(rest))[1..] == Runs(rest);
    }
  }

  /** Text with nothing in it that lower case or a bar would change. */
  predicate Plain(s: string) {
    forall i :: 0 <= i < |s| ==> IsContent(s[i]) || s[i] == ' '
  }

  lemma PlainIsLower(s: string)
    requires Plain(s)
    ensures Lower(s) == s && '|' !in s
  {
  }

  lemma {:induction false} SpacedIsPlain(words: seq<string>)
    requires AreWords(words)
    ensures Plain(Spaced(words))
    decreases |words|
  {
    assert IsWord(words[0]);
    if |words| > 1 {
      assert AreWords(words[1..]);
      SpacedIsPlain(words[1..]);
    }
  }

  lemma WordThenRuns(word: string, text: string, words: seq<string>)
    requires IsWord(word) && Runs(text) == words
    ensures Runs(word + (" " + text)) == [word] + words
  {
    RunsOfWord(word, " " + text);
    assert (" " + text)[1..] == text;
  }

  /** One word in front of a text whose words are known. */
  lemma OneWordMore(word: string, more: string, rest: string, words: seq<string>, last: seq<string>)
    requires IsWord(word) && Runs(more + rest) == words + last
    ensures Runs(word + " " + more + rest) == [word] + words + last
  {
    WordThenRuns(word, more + rest, words + last);
    assert word + " " + more + rest == word + (" " + (more + rest));
    assert [word] + words + last == [word] + (words + last);
  }

  lemma {:induction false} RunsOfSpaced(words: seq<string>, rest: string)
    requires AreWords(words) && (rest == [] || !IsContent(rest[0]))
    ensures Runs(Spaced(words) + rest) == words + Runs(rest)
    decreases |words|
  {
    assert IsWord(words[0]);
    if |words| == 1 {
      RunsOfWord(words[0], rest);
      assert words == [words[0]];
    } else {
      assert AreWords(words[1..]);
      RunsOfSpaced(words[1..], rest);
      OneWordMore(words[0], Spaced(words[1..]), rest, words[1..], Runs(rest));
      assert words == [words[0]] + words[1..];
    }
  }

  /** One part of a key, a space before it or after it or not, has its words. */
  lemma PartReadsBack(words: seq<string>, before: string, after: string)
    requires AreWords(words) && before in {"", " "} && after in {"", " "}
    ensures Runs(Lower(before + Spaced(words) + after)) == words
    ensures '|' !in before + Spaced(words) + after
  {
    var text := before + Spaced(words) + after;
    RunsOfSpaced(words, after);
    SpacedIsPlain(words);
    PlainIsLower(text);
    assert Runs(after) == [];
    assert words + [] == words;
    if before == " " {
      assert text[1..] == Spaced(words) + after;
    } else {
      assert text == Spaced(words) + after;
    }
  }

  lemma {:induction false} SplitAtBar(a: string, b: string)
    requires '|' !in a
    ensures Split(a + "|" + b) == [a] + Split(b)
  {
    var whole := a + "|" + b;
    if a == [] {
      assert whole[1..] == b;
    } else {
      assert whole[1..] == a[1..] + "|" + b;
      SplitAtBar(a[1..], b);
      assert a == [a[0]] + a[1..];
      assert ([a[1..]] + Split(b))[1..] == Split(b);
    }
  }

  lemma {:induction false} SplitWithoutBars(s: string)
    requires '|' !in s
    ensures Split(s) == [s]
  {
    if s != [] {
      assert s == [s[0]] + s[1..];
      SplitWithoutBars(s[1..]);
      assert [s[1..]][1..] == [];
    }
  }

  lemma OnePart(s: string)
    requires Runs(Lower(s)) != []
    ensures PartWords([s]) == [Runs(Lower(s))]
  {
    assert [s][1..] == [];
  }

  lemma FirstPart(s: string, rest: seq<string>)
    requires Runs(Lower(s)) != []
    ensures PartWords([s] + rest) == [Runs(Lower(s))] + PartWords(rest)
  {
    assert ([s] + rest)[1..] == rest;
  }

  /** One part in front of a text whose parts are known. */
  lemma PartThenText(part: string, words: seq<string>, text: string, rest: seq<seq<string>>)
    requires '|' !in part && Runs(Lower(part)) == words && words != [] && KeyWords(text) == rest
    ensures KeyWords(part + "|" + text) == [words] + rest
  {
    SplitAtBar(part, text);
    FirstPart(part, Split(text));
  }

  lemma Barred(before: string, spaced: string, text: string)
    ensures before + (spaced + " | " + text) == (before + spaced + " ") + "|" + (" " + text)
  {
  }

  /** A key says what its words are: reading it back gives the words it was
      made from. */
  lemma {:induction false} WordsReadBack(parts: seq<seq<string>>, before: string)
    requires parts != [] && AreParts(parts) && before in {"", " "}
    ensures KeyWords(before + Rendered(parts)) == parts
    decreases |parts|
  {
    assert AreWords(parts[0]);
    if |parts| == 1 {
      PartReadsBack(parts[0], before, "");
      var text := before + Spaced(parts[0]);
      assert text + "" == text;
      SplitWithoutBars(text);
      OnePart(text);
      assert parts == [parts[0]];
    } else {
      var rest := parts[1..];
      assert AreParts(rest);
      WordsReadBack(rest, " ");
      PartReadsBack(parts[0], before, " ");
      PartThenText(before + Spaced(parts[0]) + " ", parts[0], " " + Rendered(rest), rest);
      Barred(before, Spaced(parts[0]), Rendered(rest));
      assert parts == [parts[0]] + rest;
    }
  }

  /** What is kept of a raw key is not cut. */
  predicate Fits(raw: string) {
    |Rendered(KeyWords(raw))| <= MAX_KEY
  }

  lemma KeyOfWords(raw: string)
    requires KeyWords(raw) != []
    ensures NormalizeKey(raw) == Capped(Rendered(KeyWords(raw)), MAX_KEY) != []
  {
    KeyIsItsWords(raw);
    PartWordsAreThere(Split(raw));
    RenderedIsThere(KeyWords(raw));
  }

  /** And nothing else matters: raw keys that are not cut are one key exactly
      when they have the same words in the same parts. */
  lemma KeysAreTheirWords(raw: string, other: string)
    requires KeyWords(raw) != [] && KeyWords(other) != [] && Fits(raw) && Fits(other)
    ensures NormalizeKey(raw) == NormalizeKey(other) <==> KeyWords(raw) == KeyWords(other)
  {
    KeyOfWords(raw);
    KeyOfWords(other);
    PartWordsAreParts(Split(raw));
    PartWordsAreParts(Split(other));
    WordsReadBack(KeyWords(raw), "");
    WordsReadBack(KeyWords(other), "");
    assert "" + Rendered(KeyWords(raw)) == Rendered(KeyWords(raw));
    assert "" + Rendered(KeyWords(other)) == Rendered(KeyWords(other));
  }

  /** There are words exactly when there is a letter or a digit. */
  lemma WordsAreContent(raw: string)
    ensures KeyWords(raw) != [] <==> HasContent(raw)
  {
    PartsHaveNoBars(raw);
    CleanPartsAreWords(Split(raw));
    if HasContent(raw) {
      KeyOfContent(raw, ' ');
    } else {
      KeyOfNoContent(raw);
    }
  }

  /** A key made of words starts with a letter or a digit. */
  lemma KeyStartsWithContent(raw: string)
    requires HasContent(raw)
    ensures NormalizeKey(raw) != [] && IsContent(NormalizeKey(raw)[0])
  {
    WordsAreContent(raw);
    KeyOfWords(raw);
    PartWordsAreParts(Split(raw));
    var words := KeyWords(raw)[0];
    assert AreWords(words) && IsWord(words[0]);
    assert Spaced(words)[0] == words[0][0];
    assert Rendered(KeyWords(raw))[0] == Spaced(words)[0];
  }
}
