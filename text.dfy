/** Character and string helpers shared by the chunking engine, the
    suggestion post-processor and the viewer: Python's notion of whitespace,
    str.strip, ASCII case mapping and str.replace. */
module Text {

  datatype Option<+T> = None | Some(value: T)

  datatype Result<+T, +E> = Ok(value: T) | Err(error: E)

  /** Python's str.isspace, which is also what the regex class \s matches in a
      str pattern: the ASCII controls TAB..CR and FS..US, SPACE, and the
      Unicode separators below. */
  predicate IsSpace(c: char) {
    ('\U{0009}' <= c <= '\U{000D}') || ('\U{001C}' <= c <= '\U{0020}') ||
    c == '\U{0085}' || c == '\U{00A0}' || c == '\U{1680}' ||
    ('\U{2000}' <= c <= '\U{200A}') || c == '\U{2028}' || c == '\U{2029}' ||
    c == '\U{202F}' || c == '\U{205F}' || c == '\U{3000}'
  }

  predicate IsUpperAscii(c: char) { 'A' <= c <= 'Z' }

  predicate IsLowerAscii(c: char) { 'a' <= c <= 'z' }

  predicate IsDigitAscii(c: char) { '0' <= c <= '9' }

  /** The regex class \w, restricted to ASCII. */
  predicate IsWordChar(c: char) {
    IsUpperAscii(c) || IsLowerAscii(c) || IsDigitAscii(c) || c == '_'
  }

  function LowerChar(c: char): char {
    if IsUpperAscii(c) then (c as int + 32) as char else c
  }

  function UpperChar(c: char): char {
    if IsLowerAscii(c) then (c as int - 32) as char else c
  }

  /** str.lower on ASCII letters. */
  function Lower(s: string): (r: string)
    ensures |r| == |s|
    ensures forall i :: 0 <= i < |s| ==> r[i] == LowerChar(s[i])
  {
    if s == [] then [] else [LowerChar(s[0])] + Lower(s[1..])
  }

  /** str.upper on ASCII letters. */
  function Upper(s: string): (r: string)
    ensures |r| == |s|
    ensures forall i :: 0 <= i < |s| ==> r[i] == UpperChar(s[i])
  {
    if s == [] then [] else [UpperChar(s[0])] + Upper(s[1..])
  }

  /** Every character of s is whitespace. */
  predicate AllSpace(s: string) {
    forall i :: 0 <= i < |s| ==> IsSpace(s[i])
  }

  /** s is empty or starts and ends with a non-space character. */
  predicate Trimmed(s: string) {
    s == [] || (!IsSpace(s[0]) && !IsSpace(s[|s| - 1]))
  }

  /** s with its leading whitespace removed (str.lstrip). */
  function StripLeft(s: string): (r: string)
    ensures |r| <= |s|
  {
    if s != [] && IsSpace(s[0]) then StripLeft(s[1..]) else s
  }

  /** s with its trailing whitespace removed (str.rstrip). */
  function StripRight(s: string): (r: string)
    ensures |r| <= |s|
  {
    if s != [] && IsSpace(s[|s| - 1]) then StripRight(s[..|s| - 1]) else s
  }

  /** lstrip removes a prefix of whitespace and keeps a suffix that is empty
      or starts with a non-space character. */
  lemma {:induction false} StripLeftShape(s: string)
    ensures var r := StripLeft(s);
      r == s[|s| - |r|..] && AllSpace(s[..|s| - |r|]) && (r == [] || !IsSpace(r[0]))
  {
    if s != [] && IsSpace(s[0]) {
      StripLeftShape(s[1..]);
      var r := StripLeft(s[1..]);
      assert s[1..][|s| - 1 - |r|..] == s[|s| - |r|..];
      forall k | 0 <= k < |s| - |r| ensures IsSpace(s[k]) {
        if k > 0 {
          assert s[k] == s[1..][..|s| - 1 - |r|][k - 1];
        }
      }
    }
  }

  /** rstrip removes a suffix of whitespace and keeps a prefix that is empty
      or ends with a non-space character. */
  lemma {:induction false} StripRightShape(s: string)
    ensures var r := StripRight(s);
      r == s[..|r|] && AllSpace(s[|r|..]) && (r == [] || !IsSpace(r[|r| - 1]))
  {
    if s != [] && IsSpace(s[|s| - 1]) {
      StripRightShape(s[..|s| - 1]);
      var r := StripRight(s[..|s| - 1]);
      assert s[..|s| - 1][..|r|] == s[..|r|];
      forall k | |r| <= k < |s| ensures IsSpace(s[k]) {
        if k < |s| - 1 {
          assert s[k] == s[..|s| - 1][|r|..][k - |r|];
        }
      }
    }
  }

  /** lstrip removes exactly a whitespace prefix that is followed by a
      non-space character or by nothing. */
  lemma {:induction false} StripLeftAfterSpaces(w: string, s: string)
    requires AllSpace(w) && (s == [] || !IsSpace(s[0]))
    ensures StripLeft(w + s) == s
  {
    if w != [] {
      assert (w + s)[1..] == w[1..] + s;
      StripLeftAfterSpaces(w[1..], s);
    } else {
      assert w + s == s;
    }
  }

  /** The number of leading whitespace characters of s. */
  function LeadLen(s: string): (n: nat)
    ensures n <= |s|
  {
    |s| - |StripLeft(s)|
  }

  /** str.strip. */
  function Strip(s: string): (r: string)
    ensures |r| <= |s|
  {
    StripRight(StripLeft(s))
  }

  /** Strip keeps the substring that neither starts nor ends with
      whitespace, and what it removes on either side is whitespace. */
  lemma {:induction false} StripShape(s: string)
    ensures var r := Strip(s);
      Trimmed(r) && LeadLen(s) + |r| <= |s| && r == s[LeadLen(s)..LeadLen(s) + |r|] &&
      AllSpace(s[..LeadLen(s)]) && AllSpace(s[LeadLen(s) + |r|..])
  {
    StripSlice(s);
    StripOutside(s);
  }

  /** What Strip returns is trimmed. */
  lemma {:induction false} StripTrimmed(s: string)
    ensures Trimmed(Strip(s))
  {
    StripSlice(s);
  }

  lemma {:induction false} StripSlice(s: string)
    ensures var r := Strip(s);
      Trimmed(r) && LeadLen(s) + |r| <= |s| && r == s[LeadLen(s)..LeadLen(s) + |r|]
  {
    var l, r, i := StripLeft(s), Strip(s), LeadLen(s);
    StripLeftShape(s);
    StripRightShape(l);
    assert l == s[i..] && r == l[..|r|];
    assert s[i..][..|r|] == s[i..i + |r|];
    if r != [] {
      assert r[0] == l[0] && !IsSpace(l[0]);
    }
  }

  lemma {:induction false} StripOutside(s: string)
    ensures AllSpace(s[..LeadLen(s)]) && AllSpace(s[LeadLen(s) + |Strip(s)|..])
  {
    var l, r := StripLeft(s), Strip(s);
    StripLeftShape(s);
    StripRightShape(l);
    assert s[LeadLen(s) + |r|..] == l[|r|..];
  }

  /** Strip leaves a string unchanged exactly when it is already trimmed. */
  lemma {:induction false} StripFixedIffTrimmed(s: string)
    ensures Strip(s) == s <==> Trimmed(s)
  {
    if Trimmed(s) && s != [] {
      assert StripLeft(s) == s;
      assert StripRight(s) == s;
    } else if s == [] {
      assert StripLeft(s) == s;
    }
  }

  /** A string with a non-space character does not strip to the empty string. */
  lemma {:induction false} StripNonEmpty(s: string, k: nat)
    requires k < |s| && !IsSpace(s[k])
    ensures Strip(s) != []
  {
    var i := LeadLen(s);
    StripShape(s);
    assert s[..i] + Strip(s) + s[i + |Strip(s)|..] == s;
  }

  /** Every character of Strip(s) occurs in s. */
  lemma {:induction false} StripChars(s: string)
    ensures forall c :: c in Strip(s) ==> c in s
  {
    var r, i := Strip(s), LeadLen(s);
    StripSlice(s);
    forall c | c in r ensures c in s {
      var k :| 0 <= k < |r| && r[k] == c;
      assert s[i + k] == c;
    }
  }

  /** Does pat occur in s at position i? */
  predicate OccursAt(s: string, pat: string, i: nat) {
    i + |pat| <= |s| && s[i..i + |pat|] == pat
  }

  /** Does pat occur anywhere in s? */
  predicate Contains(s: string, pat: string) {
    exists i :: 0 <= i <= |s| - |pat| && OccursAt(s, pat, i)
  }

  /** str.replace(pat, rep): occurrences are found left to right and do not
      overlap. */
  function ReplaceAll(s: string, pat: string, rep: string): string
    requires pat != []
    decreases |s|
  {
    if s == [] then []
    else if OccursAt(s, pat, 0) then rep + ReplaceAll(s[|pat|..], pat, rep)
    else [s[0]] + ReplaceAll(s[1..], pat, rep)
  }

  /** str.replace brings in no character other than those of the replacement. */
  lemma {:induction false} ReplaceAllChars(s: string, pat: string, rep: string)
    requires pat != []
    ensures forall c :: c in ReplaceAll(s, pat, rep) ==> c in s || c in rep
    decreases |s|
  {
    if s != [] {
      if OccursAt(s, pat, 0) {
        ReplaceAllChars(s[|pat|..], pat, rep);
      } else {
        ReplaceAllChars(s[1..], pat, rep);
      }
    }
  }

  /** Replacing a pattern that does not occur changes nothing. */
  lemma {:induction false} ReplaceAbsent(s: string, pat: string, rep: string)
    requires pat != [] && !Contains(s, pat)
    ensures ReplaceAll(s, pat, rep) == s
  {
    if s != [] {
      assert !OccursAt(s, pat, 0);
      if Contains(s[1..], pat) {
        var i :| 0 <= i <= |s[1..]| - |pat| && OccursAt(s[1..], pat, i);
        assert s[1..][i..i + |pat|] == s[i + 1..i + 1 + |pat|];
        assert OccursAt(s, pat, i + 1);
      }
      ReplaceAbsent(s[1..], pat, rep);
    }
  }

  /** If what str.replace produced starts with w, and w does not contain the
      first character of the replacement, then no replacement happened inside
      that prefix: the input starts with w too. */
  lemma {:induction false} ReplacePrefix(t: string, pat: string, rep: string, w: string)
    requires pat != [] && rep != [] && rep[0] !in w
    requires |w| <= |ReplaceAll(t, pat, rep)| && ReplaceAll(t, pat, rep)[..|w|] == w
    ensures |w| <= |t| && t[..|w|] == w
  {
    if w != [] {
      assert ReplaceAll(t, pat, rep)[0] == w[0];
      assert !OccursAt(t, pat, 0);
      ReplacePrefix(t[1..], pat, rep, w[1..]);
    }
  }

  /** When str.replace keeps the first character, no occurrence of the
      pattern starts at that character in the result. */
  lemma {:induction false} NoOccurrenceAfterKept(s: string, pat: string, rep: string)
    requires pat != [] && rep != [] && rep[0] !in pat
    requires s != [] && !OccursAt(s, pat, 0)
    ensures !OccursAt(ReplaceAll(s, pat, rep), pat, 0)
  {
    var r, tail := ReplaceAll(s, pat, rep), ReplaceAll(s[1..], pat, rep);
    assert r == [s[0]] + tail;
    if OccursAt(r, pat, 0) {
      assert tail[..|pat| - 1] == pat[1..];
      ReplacePrefix(s[1..], pat, rep, pat[1..]);
    }
  }

  /** After str.replace no occurrence of the pattern is left, provided the
      pattern and the replacement do not share their first characters. */
  lemma {:induction false} ReplaceRemovesAll(s: string, pat: string, rep: string)
    requires pat != [] && rep != [] && pat[0] !in rep && rep[0] !in pat
    ensures !Contains(ReplaceAll(s, pat, rep), pat)
    decreases |s|
  {
    if s != [] {
      if OccursAt(s, pat, 0) {
        var tail := ReplaceAll(s[|pat|..], pat, rep);
        ReplaceRemovesAll(s[|pat|..], pat, rep);
        assert ReplaceAll(s, pat, rep) == rep + tail;
        forall i | 0 <= i <= |rep + tail| - |pat| ensures !OccursAt(rep + tail, pat, i) {
          if i >= |rep| {
            NoOccurrenceInTail(rep, tail, pat, i);
          } else {
            assert (rep + tail)[i] == rep[i];
          }
        }
      } else {
        var tail := ReplaceAll(s[1..], pat, rep);
        ReplaceRemovesAll(s[1..], pat, rep);
        assert ReplaceAll(s, pat, rep) == [s[0]] + tail;
        NoOccurrenceAfterKept(s, pat, rep);
        forall i | 1 <= i <= |[s[0]] + tail| - |pat| ensures !OccursAt([s[0]] + tail, pat, i) {
          NoOccurrenceInTail([s[0]], tail, pat, i);
        }
      }
    }
  }

  /** An occurrence that starts after a prefix x would be an occurrence in
      what follows x. */
  lemma {:induction false} NoOccurrenceInTail(x: string, tail: string, pat: string, i: nat)
    requires |x| <= i && !Contains(tail, pat)
    ensures !OccursAt(x + tail, pat, i)
  {
    if OccursAt(x + tail, pat, i) {
      assert (x + tail)[i..i + |pat|] == tail[i - |x|..i - |x| + |pat|];
      assert OccursAt(tail, pat, i - |x|);
    }
  }

  /** A substring of a string that does not contain pat does not contain it
      either. */
  lemma {:induction false} NoContainsSlice(s: string, pat: string, a: nat, b: nat)
    requires a <= b <= |s| && !Contains(s, pat)
    ensures !Contains(s[a..b], pat)
  {
    if Contains(s[a..b], pat) {
      var i :| 0 <= i <= |s[a..b]| - |pat| && OccursAt(s[a..b], pat, i);
      forall m | 0 <= m < |pat| ensures s[a + i..a + i + |pat|][m] == pat[m] {
        assert pat[m] == s[a..b][i..i + |pat|][m];
      }
      assert OccursAt(s, pat, a + i);
    }
  }

  /** Strip cannot bring in a pattern the text does not contain. */
  lemma {:induction false} StripKeepsAbsent(s: string, pat: string)
    requires !Contains(s, pat)
    ensures !Contains(Strip(s), pat)
  {
    var i := LeadLen(s);
    StripSlice(s);
    NoContainsSlice(s, pat, i, i + |Strip(s)|);
  }

  /** If the replacement starts with a non-space character, str.replace
      keeps some non-space character of a text that has one; j is where. */
  lemma {:induction false} ReplaceKeepsNonSpace(s: string, pat: string, rep: string, k: nat)
    returns (j: nat)
    requires pat != [] && rep != [] && !IsSpace(rep[0])
    requires k < |s| && !IsSpace(s[k])
    ensures j < |ReplaceAll(s, pat, rep)| && !IsSpace(ReplaceAll(s, pat, rep)[j])
    decreases |s|
  {
    if OccursAt(s, pat, 0) || k == 0 {
      j := 0;
    } else {
      var j' := ReplaceKeepsNonSpace(s[1..], pat, rep, k - 1);
      j := j' + 1;
    }
  }
}
