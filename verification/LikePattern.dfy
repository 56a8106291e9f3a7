/**
 The search pattern of the administration lists, against the LIKE predicate of section
 8.5 of ISO/IEC 9075:1992 with PostgreSQL's default escape character, the backslash
 (section 9.7.1 of the PostgreSQL documentation).
 */
module LikePattern {

  const METACHARACTERS: set<char> := {'\\', '%', '_'}

  // `containsPattern`: every metacharacter is escaped, the whole stands between percents.
  function Escaped(c: char): string {
    if c in METACHARACTERS then ['\\', c] else [c]
  }

  function Escape(value: string): string {
    if value == [] then [] else Escaped(value[0]) + Escape(value[1..])
  }

  function ContainsPattern(value: string): string {
    "%" + Escape(value) + "%"
  }

  // A percent matches any text, an underscore any one character, an escaped character
  // itself; a pattern that ends inside an escape matches nothing.
  predicate Like(text: string, pattern: string)
    decreases |text| + |pattern|
  {
    if pattern == [] then text == []
    else if pattern[0] == '%' then Like(text, pattern[1..]) || (text != [] && Like(text[1..], pattern))
    else if text == [] then false
    else if pattern[0] == '_' then Like(text[1..], pattern[1..])
    else if pattern[0] == '\\' then |pattern| > 1 && pattern[1] == text[0] && Like(text[1..], pattern[2..])
    else pattern[0] == text[0] && Like(text[1..], pattern[1..])
  }

  ghost predicate Contains(text: string, value: string) {
    exists i :: 0 <= i <= |text| && value <= text[i..]
  }

  lemma EscapedIsLiteral(c: char, rest: string, text: string)
    ensures Like(text, Escaped(c) + rest) <==> text != [] && text[0] == c && Like(text[1..], rest)
  {
    assert (Escaped(c) + rest)[|Escaped(c)|..] == rest;
  }

  lemma PrefixStep(value: string, text: string)
    requires value != []
    ensures value <= text <==> text != [] && value[0] == text[0] && value[1..] <= text[1..]
    ensures value <= text ==> text[1..][|value| - 1..] == text[|value|..]
  {
    if text != [] && value[0] == text[0] && value[1..] <= text[1..] {
      assert value == [value[0]] + value[1..] && text == [text[0]] + text[1..];
    }
  }

  lemma {:induction false} EscapedMatchesItself(value: string, rest: string, text: string)
    ensures Like(text, Escape(value) + rest) <==> value <= text && Like(text[|value|..], rest)
  {
    if value == [] {
      assert Escape(value) + rest == rest && text[0..] == text;
    } else {
      assert Escape(value) + rest == Escaped(value[0]) + (Escape(value[1..]) + rest);
      EscapedIsLiteral(value[0], Escape(value[1..]) + rest, text);
      PrefixStep(value, text);
      if text != [] {
        EscapedMatchesItself(value[1..], rest, text[1..]);
      }
    }
  }

  lemma {:induction false} PercentMatchesAll(text: string)
    ensures Like(text, "%")
  {
    if text != [] {
      PercentMatchesAll(text[1..]);
    }
  }

  lemma {:induction false} PercentSkips(text: string, pattern: string)
    ensures Like(text, "%" + pattern) <==> exists i :: 0 <= i <= |text| && Like(text[i..], pattern)
  {
    assert ("%" + pattern)[1..] == pattern;
    assert text[0..] == text;
    if text != [] {
      PercentSkips(text[1..], pattern);
      assert forall i {:trigger text[i..]} :: 1 <= i <= |text| ==> text[i..] == text[1..][i - 1..];
      if i :| 0 <= i <= |text| && Like(text[i..], pattern) {
        assert i > 0 ==> Like(text[1..][i - 1..], pattern);
      }
      if j :| 0 <= j <= |text[1..]| && Like(text[1..][j..], pattern) {
        assert text[1..][j..] == text[j + 1..];
      }
    }
  }

  // The pattern for a value finds exactly the texts that contain it, whatever
  // backslashes, percents and underscores the value holds.
  lemma MatchesExactlySubstrings(value: string, text: string)
    ensures Like(text, ContainsPattern(value)) <==> Contains(text, value)
  {
    assert ContainsPattern(value) == "%" + (Escape(value) + "%");
    PercentSkips(text, Escape(value) + "%");
    forall i | 0 <= i <= |text|
      ensures Like(text[i..], Escape(value) + "%") <==> value <= text[i..]
    {
      EscapedMatchesItself(value, "%", text[i..]);
      if value <= text[i..] { PercentMatchesAll(text[i..][|value|..]); }
    }
  }

  // ----- ILIKE -----

  function Folded(fold: char -> char, text: string): (r: string)
    ensures |r| == |text| && forall i :: 0 <= i < |text| ==> r[i] == fold(text[i])
  {
    seq(|text|, i requires 0 <= i < |text| => fold(text[i]))
  }

  // Case folding leaves the metacharacters alone and makes no new ones.
  ghost predicate KeepsMetacharacters(fold: char -> char) {
    forall c :: (c in METACHARACTERS ==> fold(c) == c) && (fold(c) in METACHARACTERS ==> c in METACHARACTERS)
  }

  predicate ILike(fold: char -> char, text: string, pattern: string) {
    Like(Folded(fold, text), Folded(fold, pattern))
  }

  lemma FoldedAppend(fold: char -> char, a: string, b: string)
    ensures Folded(fold, a + b) == Folded(fold, a) + Folded(fold, b)
  {
  }

  lemma {:induction false} FoldedEscape(fold: char -> char, value: string)
    requires KeepsMetacharacters(fold)
    ensures Folded(fold, Escape(value)) == Escape(Folded(fold, value))
  {
    if value != [] {
      FoldedEscape(fold, value[1..]);
      FoldedAppend(fold, Escaped(value[0]), Escape(value[1..]));
      assert fold('\\') == '\\' by { assert '\\' in METACHARACTERS; }
      assert Folded(fold, Escaped(value[0])) == Escaped(fold(value[0]));
      assert Folded(fold, value)[1..] == Folded(fold, value[1..]);
    }
  }

  // Without regard to case: the folded text contains the folded value.
  lemma MatchesUpToCase(fold: char -> char, value: string, text: string)
    requires KeepsMetacharacters(fold)
    ensures ILike(fold, text, ContainsPattern(value)) <==> Contains(Folded(fold, text), Folded(fold, value))
  {
    assert fold('%') == '%' by { assert '%' in METACHARACTERS; }
    assert Folded(fold, "%") == "%";
    FoldedAppend(fold, "%" + Escape(value), "%");
    FoldedAppend(fold, "%", Escape(value));
    FoldedEscape(fold, value);
    assert Folded(fold, ContainsPattern(value)) == ContainsPattern(Folded(fold, value));
    MatchesExactlySubstrings(Folded(fold, value), Folded(fold, text));
  }
}
