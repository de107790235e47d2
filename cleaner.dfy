/** The text cleaner of the chunking engine: a fixed pipeline of regular
    expression rewrites, each written here as a scanner over the string.
    Steps, in order: collapse whitespace, drop [digits] citations, repair
    the mis-encoded apostrophe and quotes, shorten runs of three or more dots
    to an ellipsis, strip. */
module Cleaner {
  import opened Text

  /** No whitespace character other than the plain space occurs in s. */
  predicate OnlyPlainSpaces(s: string) {
    forall c :: c in s && IsSpace(c) ==> c == ' '
  }

  /** Two plain spaces stand side by side at position i. */
  predicate DoubleSpaceAt(s: string, i: nat) {
    i + 2 <= |s| && s[i] == ' ' && s[i + 1] == ' '
  }

  predicate NoDoubleSpace(s: string) {
    forall i :: 0 <= i < |s| ==> !DoubleSpaceAt(s, i)
  }

  /** re.sub(r'\s+', ' ', s): every maximal whitespace run becomes one space. */
  function CollapseSpaces(s: string): string
    decreases |s|
  {
    if s == [] then []
    else if IsSpace(s[0]) then " " + CollapseSpaces(StripLeft(s))
    else [s[0]] + CollapseSpaces(s[1..])
  }

  /** After collapsing, the only whitespace is the plain space, never two in
      a row; the first character is kept, or becomes a space if it was one. */
  lemma {:induction false} CollapseSpacesShape(s: string)
    ensures var r := CollapseSpaces(s);
      OnlyPlainSpaces(r) && NoDoubleSpace(r) &&
      (s != [] ==> r != [] && (if IsSpace(s[0]) then r[0] == ' ' else r[0] == s[0]))
    decreases |s|
  {
    if s != [] {
      var x, rest := if IsSpace(s[0]) then " " else [s[0]],
                     if IsSpace(s[0]) then StripLeft(s) else s[1..];
      var tail := CollapseSpaces(rest);
      CollapseSpacesShape(rest);
      StripLeftShape(s);
      assert CollapseSpaces(s) == x + tail;
      forall i | 0 <= i < |x + tail| ensures !DoubleSpaceAt(x + tail, i) {
        if i >= 1 {
          assert DoubleSpaceAt(x + tail, i) ==> DoubleSpaceAt(tail, i - 1);
        }
      }
    }
  }

  /** Length of the run of ASCII digits at the start of s. */
  function DigitRun(s: string): (n: nat)
    ensures n <= |s|
    ensures forall i :: 0 <= i < n ==> IsDigitAscii(s[i])
    ensures n < |s| ==> !IsDigitAscii(s[n])
  {
    if s != [] && IsDigitAscii(s[0]) then 1 + DigitRun(s[1..]) else 0
  }

  /** s starts with a citation marker: '[', one or more digits, ']'. */
  predicate CitationAt(s: string) {
    |s| >= 3 && s[0] == '[' && DigitRun(s[1..]) >= 1 &&
    DigitRun(s[1..]) + 1 < |s| && s[DigitRun(s[1..]) + 1] == ']'
  }

  /** re.sub(r'\[\d+\]', '', s): citation markers are removed left to right;
      the scan resumes right after each removed marker. */
  function RemoveCitations(s: string): string
    decreases |s|
  {
    if s == [] then []
    else if CitationAt(s) then RemoveCitations(s[DigitRun(s[1..]) + 2..])
    else [s[0]] + RemoveCitations(s[1..])
  }

  /** Removing citations only deletes characters. */
  lemma {:induction false} RemoveCitationsChars(s: string)
    ensures forall c :: c in RemoveCitations(s) ==> c in s
    decreases |s|
  {
    if s != [] {
      if CitationAt(s) {
        RemoveCitationsChars(s[DigitRun(s[1..]) + 2..]);
      } else {
        RemoveCitationsChars(s[1..]);
      }
    }
  }

  /** Text without any citation marker is left as it is. */
  lemma {:induction false} RemoveCitationsNoMarker(s: string)
    requires forall i :: 0 <= i < |s| ==> !CitationAt(s[i..])
    ensures RemoveCitations(s) == s
  {
    if s != [] {
      assert !CitationAt(s[0..]);
      assert s[0..] == s;
      forall i | 0 <= i < |s[1..]| ensures !CitationAt(s[1..][i..]) {
        assert s[1..][i..] == s[i + 1..];
      }
      RemoveCitationsNoMarker(s[1..]);
    }
  }

  /** The mis-encoded right single quote (UTF-8 read as Windows-1252). */
  const MojibakeApostrophe: string := "\U{00E2}\U{20AC}\U{2122}"
  /** The mis-encoded left double quote. */
  const MojibakeLeftQuote: string := "\U{00E2}\U{20AC}\U{0153}"
  /** The first two characters shared by every mis-encoded quote. */
  const MojibakeQuotePrefix: string := "\U{00E2}\U{20AC}"

  /** re.sub(r'â€™', "'", s). */
  function FixApostrophes(s: string): string {
    ReplaceAll(s, MojibakeApostrophe, "'")
  }

  /** No mis-encoded apostrophe survives, and the only character brought in
      is the plain apostrophe. */
  lemma {:induction false} FixApostrophesShape(s: string)
    ensures !Contains(FixApostrophes(s), MojibakeApostrophe)
    ensures forall c :: c in FixApostrophes(s) ==> c in s || c == '\''
  {
    ReplaceRemovesAll(s, MojibakeApostrophe, "'");
    ReplaceAllChars(s, MojibakeApostrophe, "'");
  }

  /** re.sub(r'â€œ|â€', '"', s): at each position the three-character
      alternative is tried first. */
  function FixQuotes(s: string): string
    decreases |s|
  {
    if s == [] then []
    else if OccursAt(s, MojibakeLeftQuote, 0) then "\"" + FixQuotes(s[3..])
    else if OccursAt(s, MojibakeQuotePrefix, 0) then "\"" + FixQuotes(s[2..])
    else [s[0]] + FixQuotes(s[1..])
  }

  /** Repairing quotes only brings in the plain double quote; the first
      character is kept or replaced by that quote. */
  lemma {:induction false} FixQuotesChars(s: string)
    ensures forall c :: c in FixQuotes(s) ==> c in s || c == '"'
    ensures s != [] ==> FixQuotes(s) != [] && (FixQuotes(s)[0] == '"' || FixQuotes(s)[0] == s[0])
    decreases |s|
  {
    if s != [] {
      if OccursAt(s, MojibakeLeftQuote, 0) {
        FixQuotesChars(s[3..]);
      } else if OccursAt(s, MojibakeQuotePrefix, 0) {
        FixQuotesChars(s[2..]);
      } else {
        FixQuotesChars(s[1..]);
      }
    }
  }

  /** No mis-encoded quote prefix survives FixQuotes. */
  lemma {:induction false} FixQuotesRemovesAll(s: string)
    ensures !Contains(FixQuotes(s), MojibakeQuotePrefix)
    decreases |s|
  {
    if s != [] {
      if OccursAt(s, MojibakeLeftQuote, 0) {
        FixQuotesRemovesAll(s[3..]);
        NoPairAcross("\"", FixQuotes(s[3..]), MojibakeQuotePrefix);
      } else if OccursAt(s, MojibakeQuotePrefix, 0) {
        FixQuotesRemovesAll(s[2..]);
        NoPairAcross("\"", FixQuotes(s[2..]), MojibakeQuotePrefix);
      } else {
        var tail := FixQuotes(s[1..]);
        FixQuotesRemovesAll(s[1..]);
        FixQuotesChars(s[1..]);
        if |s| >= 2 {
          PairAt(s, MojibakeQuotePrefix);
        }
        NoPairAcross([s[0]], tail, MojibakeQuotePrefix);
      }
    }
  }

  /** A two-character pattern sits at the start of s when its two
      characters do. */
  lemma {:induction false} PairAt(s: string, pat: string)
    requires |s| >= 2 && |pat| == 2
    ensures s[0] == pat[0] && s[1] == pat[1] ==> OccursAt(s, pat, 0)
  {
    assert s[0] == pat[0] && s[1] == pat[1] ==> s[0..2] == pat;
  }

  /** A two-character pattern absent from tail occurs in [c] + tail only
      where c and the first character of tail spell it. */
  lemma {:induction false} NoPairAcross(x: string, tail: string, pat: string)
    requires |x| == 1 && |pat| == 2 && !Contains(tail, pat)
    requires !(x[0] == pat[0] && tail != [] && tail[0] == pat[1])
    ensures !Contains(x + tail, pat)
  {
    var r := x + tail;
    forall i | 0 <= i <= |r| - 2 ensures !OccursAt(r, pat, i) {
      if i >= 1 {
        assert r[i..i + 2] == tail[i - 1..i + 1];
        assert !OccursAt(tail, pat, i - 1);
      }
    }
  }

  /** Length of the run of '.' at the start of s. */
  function DotRun(s: string): (n: nat)
    ensures n <= |s|
    ensures forall i :: 0 <= i < n ==> s[i] == '.'
    ensures n < |s| ==> s[n] != '.'
  {
    if s != [] && s[0] == '.' then 1 + DotRun(s[1..]) else 0
  }

  /** Four dots stand side by side at position i. */
  predicate FourDotsAt(s: string, i: nat) {
    i + 4 <= |s| && s[i] == '.' && s[i + 1] == '.' && s[i + 2] == '.' && s[i + 3] == '.'
  }

  predicate NoFourDots(s: string) {
    forall i :: 0 <= i < |s| ==> !FourDotsAt(s, i)
  }

  /** re.sub(r'\.{3,}', '...', s): every run of three or more dots becomes
      exactly three; shorter runs stay. */
  function NormalizeEllipses(s: string): string
    decreases |s|
  {
    if s == [] then []
    else if s[0] == '.' then
      var k := DotRun(s);
      (if k >= 3 then "..." else s[..k]) + NormalizeEllipses(s[k..])
    else [s[0]] + NormalizeEllipses(s[1..])
  }

  /** After normalising, no four dots stand in a row; no character is
      introduced and the first one is kept. */
  lemma {:induction false} NormalizeEllipsesShape(s: string)
    ensures var r := NormalizeEllipses(s);
      NoFourDots(r) && (forall c :: c in r ==> c in s) && (s != [] ==> r != [] && r[0] == s[0])
  {
    NormalizeEllipsesChars(s);
    NormalizeEllipsesNoFourDots(s);
  }

  lemma {:induction false} NormalizeEllipsesChars(s: string)
    ensures var r := NormalizeEllipses(s);
      (forall c :: c in r ==> c in s) && (s != [] ==> r != [] && r[0] == s[0])
    decreases |s|
  {
    if s != [] {
      var k := if s[0] == '.' then DotRun(s) else 1;
      var head := if s[0] != '.' then [s[0]] else if k >= 3 then "..." else s[..k];
      var tail := NormalizeEllipses(s[k..]);
      NormalizeEllipsesChars(s[k..]);
      assert NormalizeEllipses(s) == head + tail;
      assert forall c :: c in head ==> c in s;
    }
  }

  lemma {:induction false} NormalizeEllipsesNoFourDots(s: string)
    ensures NoFourDots(NormalizeEllipses(s))
    decreases |s|
  {
    if s != [] {
      var k := if s[0] == '.' then DotRun(s) else 1;
      var head := if s[0] != '.' then [s[0]] else if k >= 3 then "..." else s[..k];
      var tail := NormalizeEllipses(s[k..]);
      NormalizeEllipsesNoFourDots(s[k..]);
      NormalizeEllipsesChars(s[k..]);
      assert NormalizeEllipses(s) == head + tail;
      forall i | 0 <= i < |head| + |tail| ensures !FourDotsAt(head + tail, i) {
        if i >= |head| {
          assert FourDotsAt(head + tail, i) ==> FourDotsAt(tail, i - |head|);
        } else if s[0] == '.' && |tail| > 0 {
          assert (head + tail)[|head|] == tail[0] == s[k];
        }
      }
    }
  }

  /** A substring of a string without four dots in a row has none either. */
  lemma {:induction false} NoFourDotsSlice(s: string, lo: nat, hi: nat)
    requires lo <= hi <= |s| && NoFourDots(s)
    ensures NoFourDots(s[lo..hi])
  {
    forall i | 0 <= i < hi - lo ensures !FourDotsAt(s[lo..hi], i) {
      assert FourDotsAt(s[lo..hi], i) ==> FourDotsAt(s, lo + i);
    }
  }

  /** Stripping keeps a text free of four dots in a row. */
  lemma {:induction false} NoFourDotsStrip(s: string)
    requires NoFourDots(s)
    ensures NoFourDots(Strip(s))
  {
    StripSlice(s);
    NoFourDotsSlice(s, LeadLen(s), LeadLen(s) + |Strip(s)|);
  }

  /** The whole cleaning pipeline. Its output is stripped, has no whitespace
      other than plain spaces (so no newline), and no four dots in a row. */
  function Clean(text: string): (r: string)
    ensures Trimmed(r)
    ensures OnlyPlainSpaces(r)
    ensures NoFourDots(r)
  {
    var collapsed := CollapseSpaces(text);
    var uncited := RemoveCitations(collapsed);
    var apostrophes := FixApostrophes(uncited);
    var quotes := FixQuotes(apostrophes);
    var dotted := NormalizeEllipses(quotes);
    var r := Strip(dotted);
    assert OnlyPlainSpaces(dotted) by {
      CollapseSpacesShape(text);
      RemoveCitationsChars(collapsed);
      PlainSpacesCarry(collapsed, uncited, ' ');
      FixApostrophesShape(uncited);
      PlainSpacesCarry(uncited, apostrophes, '\'');
      FixQuotesChars(apostrophes);
      PlainSpacesCarry(apostrophes, quotes, '"');
      NormalizeEllipsesShape(quotes);
      PlainSpacesCarry(quotes, dotted, ' ');
    }
    assert NoFourDots(r) by {
      NormalizeEllipsesShape(quotes);
      NoFourDotsStrip(dotted);
    }
    StripChars(dotted);
    StripTrimmed(dotted);
    r
  }

  /** A step that brings in no whitespace other than the plain space keeps
      the text free of other whitespace. */
  lemma {:induction false} PlainSpacesCarry(a: string, b: string, extra: char)
    requires OnlyPlainSpaces(a) && (IsSpace(extra) ==> extra == ' ')
    requires forall c :: c in b ==> c in a || c == extra
    ensures OnlyPlainSpaces(b)
  {
  }

  /** Collapsing changes nothing exactly when the text already has only
      single plain spaces. */
  lemma {:induction false} CollapseFixedIff(s: string)
    ensures CollapseSpaces(s) == s <==> OnlyPlainSpaces(s) && NoDoubleSpace(s)
    decreases |s|
  {
    CollapseSpacesShape(s);
    if s != [] && OnlyPlainSpaces(s) && NoDoubleSpace(s) {
      assert OnlyPlainSpaces(s[1..]);
      assert NoDoubleSpace(s[1..]) by {
        forall i | 0 <= i < |s[1..]| ensures !DoubleSpaceAt(s[1..], i) {
          assert DoubleSpaceAt(s[1..], i) ==> DoubleSpaceAt(s, i + 1);
        }
      }
      CollapseFixedIff(s[1..]);
      if IsSpace(s[0]) {
        assert !DoubleSpaceAt(s, 0);
        assert |s| > 1 ==> s[1] in s;
        assert StripLeft(s[1..]) == s[1..];
      }
    }
  }

  /** Repairing quotes changes nothing in text without the character 'â'. */
  lemma {:induction false} FixQuotesAbsent(s: string)
    requires '\U{00E2}' !in s
    ensures FixQuotes(s) == s
  {
    if s != [] {
      assert s[0] != '\U{00E2}';
      FixQuotesAbsent(s[1..]);
    }
  }

  /** Repairing apostrophes changes nothing in text without the character 'â'. */
  lemma {:induction false} FixApostrophesAbsent(s: string)
    requires '\U{00E2}' !in s
    ensures FixApostrophes(s) == s
  {
    forall i | 0 <= i <= |s| - 3 ensures !OccursAt(s, MojibakeApostrophe, i) {
      assert s[i..i + 3][0] == s[i] != '\U{00E2}';
    }
    ReplaceAbsent(s, MojibakeApostrophe, "'");
  }

  /** Normalising ellipses changes nothing exactly when no four dots stand in
      a row. */
  lemma {:induction false} NormalizeEllipsesFixedIff(s: string)
    ensures NormalizeEllipses(s) == s <==> NoFourDots(s)
    decreases |s|
  {
    NormalizeEllipsesShape(s);
    if s != [] && NoFourDots(s) {
      var k := if s[0] == '.' then DotRun(s) else 1;
      if s[0] == '.' {
        assert k <= 3 by {
          if k > 3 { assert FourDotsAt(s, 0); }
        }
        assert k == 3 ==> s[..k] == "...";
      }
      NoFourDotsSlice(s, k, |s|);
      assert s[k..|s|] == s[k..];
      NormalizeEllipsesFixedIff(s[k..]);
      assert s == s[..k] + s[k..];
    }
  }

  /** Cleaning is not idempotent: citation markers are removed after
      whitespace has been collapsed, so the spaces around a marker meet. */
  lemma {:induction false} CleanNotIdempotent()
    ensures Clean("a [1] b") == "a  b"
    ensures Clean("a  b") == "a b"
  {
    CleanCitationExample();
    CleanDoubleSpaceExample();
  }

  lemma {:induction false} CleanCitationExample()
    ensures Clean("a [1] b") == "a  b"
  {
    CollapseKeepsCitation();
    CitationExample();
    QuietCitationTail();
    CleanPlainTail("a [1] b", "a  b");
  }

  lemma {:induction false} QuietCitationTail()
    ensures Trimmed("a  b") && '\U{00E2}' !in "a  b" && '.' !in "a  b"
  {
    QuietTail("a  b");
  }

  lemma {:induction false} CollapseKeepsCitation()
    ensures CollapseSpaces("a [1] b") == "a [1] b"
  {
    assert OnlyPlainSpaces("a [1] b") && NoDoubleSpace("a [1] b");
    CollapseFixedIff("a [1] b");
  }

  lemma {:induction false} CitationExample()
    ensures RemoveCitations("a [1] b") == "a  b"
  {
    RemoveCitationsAbsent(" b");
    assert DigitRun("1] b") == 1;
    assert "[1] b"[3..] == " b";
    assert RemoveCitations("[1] b") == " b";
    assert " [1] b"[1..] == "[1] b";
    assert RemoveCitations(" [1] b") == "  b";
    assert "a [1] b"[1..] == " [1] b";
  }

  lemma {:induction false} CleanDoubleSpaceExample()
    ensures Clean("a  b") == "a b"
  {
    CollapseExample();
    RemoveCitationsAbsent("a b");
    QuietTail("a b");
    CleanPlainTail("a  b", "a b");
  }

  lemma {:induction false} CollapseExample()
    ensures CollapseSpaces("a  b") == "a b"
  {
    LeadingSpacesExample();
    assert CollapseSpaces("b") == "b";
    assert "a  b"[1..] == "  b";
  }

  lemma {:induction false} LeadingSpacesExample()
    ensures StripLeft("  b") == "b"
  {
    StripLeftAfterSpaces("  ", "b");
    assert "  b" == "  " + "b";
  }

  /** Text without an opening bracket has no citation to remove. */
  lemma {:induction false} RemoveCitationsAbsent(s: string)
    requires '[' !in s
    ensures RemoveCitations(s) == s
    decreases |s|
  {
    if s != [] {
      RemoveCitationsAbsent(s[1..]);
    }
  }

  /** A marker built around another marker survives: the inner one is
      removed and the outer brackets close around the remaining digit. */
  lemma {:induction false} NestedCitationSurvives()
    ensures Clean("[1[2]]") == "[1]"
  {
    CollapseKeepsNested();
    NestedExample();
    QuietNestedTail();
    CleanPlainTail("[1[2]]", "[1]");
  }

  lemma {:induction false} QuietNestedTail()
    ensures Trimmed("[1]") && '\U{00E2}' !in "[1]" && '.' !in "[1]"
  {
    QuietTail("[1]");
  }

  lemma {:induction false} CollapseKeepsNested()
    ensures CollapseSpaces("[1[2]]") == "[1[2]]"
  {
    assert OnlyPlainSpaces("[1[2]]") && NoDoubleSpace("[1[2]]");
    CollapseFixedIff("[1[2]]");
  }

  lemma {:induction false} NestedExample()
    ensures RemoveCitations("[1[2]]") == "[1]"
  {
    RemoveCitationsAbsent("]");
    assert DigitRun("2]]") == 1;
    assert "[2]]"[3..] == "]";
    assert RemoveCitations("[2]]") == "]";
    assert "1[2]]"[1..] == "[2]]";
    assert RemoveCitations("1[2]]") == "1]";
    assert DigitRun("1[2]]") == 1;
    assert "[1[2]]"[1..] == "1[2]]";
  }

  /** Text of ASCII letters, digits, brackets and inner plain spaces is
      left alone by the steps after citation removal. */
  lemma {:induction false} QuietTail(u: string)
    requires u != [] && u[0] != ' ' && u[|u| - 1] != ' '
    requires forall i :: 0 <= i < |u| ==> u[i] == ' ' || u[i] == '[' || u[i] == ']' || IsWordChar(u[i])
    ensures Trimmed(u) && '\U{00E2}' !in u && '.' !in u
  {
  }

  /** When collapsing and citation removal leave trimmed text with no 'â'
      and no dot, the remaining steps change nothing. */
  lemma {:induction false} CleanPlainTail(s: string, u: string)
    requires RemoveCitations(CollapseSpaces(s)) == u
    requires Trimmed(u) && '\U{00E2}' !in u && '.' !in u
    ensures Clean(s) == u
  {
    FixApostrophesAbsent(u);
    FixQuotesAbsent(u);
    assert NoFourDots(u);
    NormalizeEllipsesFixedIff(u);
    StripFixedIffTrimmed(u);
  }
}
