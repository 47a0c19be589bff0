/** Quoting an original message under a reply, and reading the quotation back. */
module ReplyQuote {
  import opened Options

  const QUOTE_LIMIT := 5000

  /** The characters `trim` strips. */
  predicate IsBlankChar(c: char) {
    c in {' ', '\t', '\n', '\r', '\0', '\U{0B}'}
  }

  predicate IsBlank(s: string) {
    forall i | 0 <= i < |s| :: IsBlankChar(s[i])
  }

  function TrimRight(s: string): (r: string)
    ensures r <= s && IsBlank(s[|r|..])
    ensures r == [] ==> IsBlank(s)
    ensures r != [] ==> !IsBlankChar(r[|r| - 1])
  {
    if s != [] && IsBlankChar(s[|s| - 1]) then
      var r := TrimRight(s[..|s| - 1]);
      assert s[|r|..] == s[..|s| - 1][|r|..] + [s[|s| - 1]];
      r
    else s
  }

  function Cut(s: string): string {
    if |s| > QUOTE_LIMIT then s[..QUOTE_LIMIT] else s
  }

  /** Length of the line break `s` starts with: CRLF, LF or CR, else 0. */
  function BreakLength(s: string): (n: nat)
    ensures n <= |s|
  {
    if |s| >= 2 && s[0] == '\r' && s[1] == '\n' then 2
    else if |s| >= 1 && (s[0] == '\n' || s[0] == '\r') then 1
    else 0
  }

  function SplitLines(s: string): (lines: seq<string>)
    ensures |lines| >= 1
    decreases |s|
  {
    if s == [] then [""]
    else if BreakLength(s) > 0 then [""] + SplitLines(s[BreakLength(s)..])
    else
      var rest := SplitLines(s[1..]);
      [[s[0]] + rest[0]] + rest[1..]
  }

  function Join(lines: seq<string>): string
    requires |lines| >= 1
    decreases |lines|
  {
    if |lines| == 1 then lines[0] else lines[0] + "\n" + Join(lines[1..])
  }

  function PrefixAll(lines: seq<string>): (quoted: seq<string>)
    ensures |quoted| == |lines| && forall i | 0 <= i < |lines| :: quoted[i] == "> " + lines[i]
  {
    if lines == [] then [] else ["> " + lines[0]] + PrefixAll(lines[1..])
  }

  function Quote(original: string): string {
    Join(PrefixAll(SplitLines(Cut(original))))
  }

  function AppendQuote(userBody: Option<string>, original: Option<string>, intro: string): Option<string> {
    if original.None? || IsBlank(original.value) then userBody
    else
      var block := intro + Quote(original.value);
      if userBody.None? || IsBlank(userBody.value) then Some(block)
      else Some(TrimRight(userBody.value) + "\n\n" + block)
  }

  // ----- reading a quotation back -----

  /** The text with every line break written as LF. */
  function Normalize(s: string): string
    decreases |s|
  {
    if s == [] then ""
    else if BreakLength(s) > 0 then "\n" + Normalize(s[BreakLength(s)..])
    else [s[0]] + Normalize(s[1..])
  }

  function StripAll(quoted: seq<string>): (lines: seq<string>)
    requires forall i | 0 <= i < |quoted| :: |quoted[i]| >= 2
    ensures |lines| == |quoted| && forall i | 0 <= i < |lines| :: lines[i] == quoted[i][2..]
  {
    if quoted == [] then [] else [quoted[0][2..]] + StripAll(quoted[1..])
  }

  predicate OneLine(s: string) {
    '\n' !in s && '\r' !in s
  }

  lemma {:induction false} SplitGivesLines(s: string)
    ensures forall i | 0 <= i < |SplitLines(s)| :: OneLine(SplitLines(s)[i])
    decreases |s|
  {
    if s != [] {
      SplitGivesLines(s[if BreakLength(s) > 0 then BreakLength(s) else 1..]);
    }
  }

  lemma {:induction false} JoinAfterSplit(s: string)
    ensures Join(SplitLines(s)) == Normalize(s)
    decreases |s|
  {
    if s == [] {
    } else if BreakLength(s) > 0 {
      JoinAfterSplit(s[BreakLength(s)..]);
    } else {
      JoinAfterSplit(s[1..]);
      var rest := SplitLines(s[1..]);
      if |rest| > 1 {
        assert SplitLines(s)[1..] == rest[1..];
      }
    }
  }

  /** A line followed by a text that is empty or starts with LF splits off whole. */
  lemma {:induction false} SplitLineThen(line: string, tail: string)
    requires OneLine(line)
    ensures SplitLines(line) == [line]
    ensures SplitLines(line + "\n" + tail) == [line] + SplitLines(tail)
    decreases |line|
  {
    var s := line + "\n" + tail;
    if line == [] {
      assert s == "\n" + tail && s[1..] == tail;
    } else {
      SplitLineThen(line[1..], tail);
      assert s[1..] == line[1..] + "\n" + tail;
      assert s[0] == line[0] && line[0] in line;
      assert [line[0]] + line[1..] == line;
    }
  }

  lemma {:induction false} SplitAfterJoin(lines: seq<string>)
    requires |lines| >= 1 && forall i | 0 <= i < |lines| :: OneLine(lines[i])
    ensures SplitLines(Join(lines)) == lines
    decreases |lines|
  {
    if |lines| == 1 {
      SplitLineThen(lines[0], "");
    } else {
      SplitAfterJoin(lines[1..]);
      SplitLineThen(lines[0], Join(lines[1..]));
    }
  }

  /** The text with each CRLF replaced by LF. */
  function CrLfToLf(s: string): string {
    if |s| >= 2 && s[0] == '\r' && s[1] == '\n' then "\n" + CrLfToLf(s[2..])
    else if s == [] then ""
    else [s[0]] + CrLfToLf(s[1..])
  }

  /** The text with each remaining CR replaced by LF. */
  function CrToLf(s: string): string {
    if s == [] then "" else [if s[0] == '\r' then '\n' else s[0]] + CrToLf(s[1..])
  }

  /** A CRLF is one line break, and so is an LF or a CR on its own. */
  lemma {:induction false} NormalizeInTwoPasses(s: string)
    ensures Normalize(s) == CrToLf(CrLfToLf(s))
    decreases |s|
  {
    if |s| >= 2 && s[0] == '\r' && s[1] == '\n' {
      NormalizeInTwoPasses(s[2..]);
      assert CrLfToLf(s)[1..] == CrLfToLf(s[2..]);
    } else if s != [] {
      NormalizeInTwoPasses(s[1..]);
      assert CrLfToLf(s)[1..] == CrLfToLf(s[1..]);
    }
  }

  /** Every quoted line starts with "> ", the lines correspond one to one, and stripping the prefix
      gives back the first 5000 characters of the original with its line breaks written as LF. */
  lemma QuoteIsInvertible(original: string)
    ensures var quoted := SplitLines(Quote(original));
      && |quoted| == |SplitLines(Cut(original))|
      && (forall i | 0 <= i < |quoted| :: "> " <= quoted[i])
      && Join(StripAll(quoted)) == Normalize(Cut(original)) == CrToLf(CrLfToLf(original[..Min(5000, |original|)]))
  {
    NormalizeInTwoPasses(Cut(original));
    assert original[..|original|] == original;
    var lines := SplitLines(Cut(original));
    SplitGivesLines(Cut(original));
    SplitAfterJoin(PrefixAll(lines));
    assert StripAll(PrefixAll(lines)) == lines;
    JoinAfterSplit(Cut(original));
  }

  /** Two originals have the same quotation exactly when they agree up to line breaks within the limit. */
  lemma QuotesAgreeIffTextsDo(a: string, b: string)
    ensures Quote(a) == Quote(b) <==>
        CrToLf(CrLfToLf(a[..Min(5000, |a|)])) == CrToLf(CrLfToLf(b[..Min(5000, |b|)]))
  {
    QuoteIsInvertible(a);
    QuoteIsInvertible(b);
    if Normalize(Cut(a)) == Normalize(Cut(b)) {
      SplitNormalized(Cut(a));
      SplitNormalized(Cut(b));
    }
  }

  lemma SplitNormalized(s: string)
    ensures SplitLines(Normalize(s)) == SplitLines(s)
  {
    SplitGivesLines(s);
    JoinAfterSplit(s);
    SplitAfterJoin(SplitLines(s));
  }

  /** The reply keeps both texts: the user's body up to trailing blanks is a prefix of it, and the
      quotation of the original, which `QuoteIsInvertible` reads back, is a suffix. */
  lemma ReplyKeepsBothTexts(userBody: Option<string>, original: Option<string>, intro: string)
    ensures var r := AppendQuote(userBody, original, intro);
      && (original.None? || IsBlank(original.value) ==> r == userBody)
      && (original.Some? && !IsBlank(original.value) ==>
            && r.Some? && |Quote(original.value)| <= |r.value|
            && r.value[|r.value| - |Quote(original.value)|..] == Quote(original.value)
            && (userBody.None? || IsBlank(userBody.value) ==> r.value == intro + Quote(original.value))
            && (userBody.Some? && !IsBlank(userBody.value) ==>
                  && TrimRight(userBody.value) + "\n\n" + intro <= r.value
                  && TrimRight(userBody.value) <= userBody.value
                  && (var kept := |TrimRight(userBody.value)|;
                      && kept > 0 && userBody.value[kept - 1] !in {' ', '\t', '\n', '\r', '\0', '\U{0B}'}
                      && forall i | kept <= i < |userBody.value| ::
                           userBody.value[i] in {' ', '\t', '\n', '\r', '\0', '\U{0B}'})))
  {
  }
}
