/**
 * Transcript normalisation shared by the conversational loop and the
 * arm-action command matcher: whitespace collapsing and lowercasing
 * (`Normalize`, identical in both executables) and removal of trailing
 * punctuation (`TrimPunctuation`).  Each `char` stands for one byte of the
 * source's `std::string`; character classes are those of the "C" locale.
 */
module Text {

  /** `std::isspace` in the "C" locale: space, \t, \n, \v, \f, \r. */
  predicate IsSpace(c: char) {
    c == ' ' || c == '\t' || c == '\n' || c == '\r' || c == 11 as char || c == 12 as char
  }

  predicate IsUpper(c: char) {
    'A' <= c <= 'Z'
  }

  /** `std::tolower` in the "C" locale: only ASCII capitals change. */
  function Lower(c: char): (r: char)
    ensures !IsUpper(r)
    ensures IsSpace(r) <==> IsSpace(c)
    ensures !IsUpper(c) ==> r == c
  {
    if IsUpper(c) then (c as int + 32) as char else c
  }

  // ---------------------------------------------------------------------
  // Normalize

  /** The state of the normalising scan: text emitted so far, and whether
      the last emitted character was a (collapsed) space, or nothing has
      been emitted yet. */
  datatype Scan = Scan(out: string, lastSpace: bool)

  /** The scan after consuming all of `s`, one character at a time. */
  function ScanSpaces(s: string): Scan
  {
    if s == [] then Scan([], true)
    else
      var st := ScanSpaces(s[..|s| - 1]);
      var c := s[|s| - 1];
      if IsSpace(c) then
        (if st.lastSpace then st else Scan(st.out + [' '], true))
      else
        Scan(st.out + [Lower(c)], false)
  }

  /** The normalised text: the scan's output without a trailing space. */
  function Normalized(s: string): string
  {
    var out := ScanSpaces(s).out;
    if out != [] && out[|out| - 1] == ' ' then out[..|out| - 1] else out
  }

  /** Text in normal form: lowercase, ' ' the only whitespace, no leading,
      trailing or doubled space. */
  predicate IsNormalForm(t: string) {
    && (forall i :: 0 <= i < |t| ==> !IsUpper(t[i]) && (IsSpace(t[i]) ==> t[i] == ' '))
    && (t != [] ==> t[0] != ' ' && t[|t| - 1] != ' ')
    && (forall i :: 0 <= i < |t| - 1 ==> !(t[i] == ' ' && t[i + 1] == ' '))
  }

  /** Collapses runs of whitespace to one space, trims, lowercases. */
  method Normalize(input: string) returns (out: string)
    ensures out == Normalized(input)
  {
    out := [];
    var lastSpace := true;
    for i := 0 to |input|
      invariant ScanSpaces(input[..i]) == Scan(out, lastSpace)
    {
      assert input[..i + 1][..i] == input[..i];
      var ch := input[i];
      if IsSpace(ch) {
        if !lastSpace {
          out := out + [' '];
          lastSpace := true;
        }
      } else {
        out := out + [Lower(ch)];
        lastSpace := false;
      }
    }
    assert input[..|input|] == input;
    if |out| > 0 && out[|out| - 1] == ' ' {
      out := out[..|out| - 1];
    }
  }

  /** What the scan keeps true at every step. */
  lemma {:induction false} ScanShape(s: string)
    ensures var st := ScanSpaces(s);
      && (forall i :: 0 <= i < |st.out| ==> !IsUpper(st.out[i]) && (IsSpace(st.out[i]) ==> st.out[i] == ' '))
      && (st.out != [] ==> st.out[0] != ' ')
      && (forall i :: 0 <= i < |st.out| - 1 ==> !(st.out[i] == ' ' && st.out[i + 1] == ' '))
      && (st.lastSpace <==> (st.out == [] || st.out[|st.out| - 1] == ' '))
  {
    if s != [] {
      ScanShape(s[..|s| - 1]);
    }
  }

  /** `Normalize` always produces text in normal form. */
  lemma NormalizedIsNormalForm(s: string)
    ensures IsNormalForm(Normalized(s))
  {
    ScanShape(s);
  }

  /** Scanning a prefix of text in normal form reproduces the prefix. */
  lemma {:induction false} ScanOfNormalForm(t: string, k: nat)
    requires IsNormalForm(t) && k <= |t|
    ensures ScanSpaces(t[..k]) == Scan(t[..k], k == 0 || t[k - 1] == ' ')
  {
    if k > 0 {
      ScanOfNormalForm(t, k - 1);
      assert t[..k][..k - 1] == t[..k - 1];
      assert t[..k - 1] + [t[k - 1]] == t[..k];
    }
  }

  /** Text already in normal form is left unchanged. */
  lemma NormalizedFixesNormalForm(t: string)
    requires IsNormalForm(t)
    ensures Normalized(t) == t
  {
    ScanOfNormalForm(t, |t|);
    assert t[..|t|] == t;
  }

  /** `Normalize` is idempotent. */
  lemma NormalizeIdempotent(s: string)
    ensures Normalized(Normalized(s)) == Normalized(s)
  {
    NormalizedIsNormalForm(s);
    NormalizedFixesNormalForm(Normalized(s));
  }

  /** The non-whitespace characters of `s`, lowercased, in order. */
  function Letters(s: string): string
  {
    if s == [] then []
    else Letters(s[..|s| - 1]) + (if IsSpace(s[|s| - 1]) then [] else [Lower(s[|s| - 1])])
  }

  lemma {:induction false} ScanKeepsLetters(s: string)
    ensures Letters(ScanSpaces(s).out) == Letters(s)
  {
    if s != [] {
      var p := s[..|s| - 1];
      var c := s[|s| - 1];
      var st := ScanSpaces(p);
      ScanKeepsLetters(p);
      if IsSpace(c) {
        if !st.lastSpace {
          assert (st.out + [' '])[..|st.out|] == st.out;
        }
      } else {
        assert (st.out + [Lower(c)])[..|st.out|] == st.out;
      }
    }
  }

  /** Normalising drops only whitespace: the other characters survive,
      lowercased and in order. */
  lemma NormalizeKeepsLetters(s: string)
    ensures Letters(Normalized(s)) == Letters(s)
  {
    ScanKeepsLetters(s);
  }

  // ---------------------------------------------------------------------
  // TrimPunctuation

  /** The characters `TrimPunctuation` strips from the end. */
  predicate IsTrailingPunct(c: char) {
    c == '.' || c == ',' || c == '!' || c == '?' || c == ';' || c == ':'
  }

  /** `s` with its maximal run of trailing punctuation removed. */
  function PunctTrimmed(s: string): string
  {
    if s != [] && IsTrailingPunct(s[|s| - 1]) then PunctTrimmed(s[..|s| - 1]) else s
  }

  /** Strips trailing `. , ! ? ; :` by moving the end index backwards. */
  method TrimPunctuation(input: string) returns (r: string)
    ensures r == PunctTrimmed(input)
  {
    var end := |input|;
    assert input[..end] == input;
    while end > 0
      invariant 0 <= end <= |input|
      invariant PunctTrimmed(input[..end]) == PunctTrimmed(input)
    {
      var ch := input[end - 1];
      if IsTrailingPunct(ch) {
        assert input[..end][..end - 1] == input[..end - 1];
        end := end - 1;
      } else {
        break;
      }
    }
    r := input[..end];
  }

  /** The trimmed text is a prefix of the input that does not end in
      punctuation, and everything removed is punctuation: exactly the
      maximal trailing run goes. */
  lemma {:induction false} PunctTrimmedSpec(s: string)
    ensures var r := PunctTrimmed(s);
      && r <= s
      && (r == [] || !IsTrailingPunct(r[|r| - 1]))
      && (forall i :: |r| <= i < |s| ==> IsTrailingPunct(s[i]))
  {
    if s != [] && IsTrailingPunct(s[|s| - 1]) {
      PunctTrimmedSpec(s[..|s| - 1]);
    }
  }

  /** Trimming twice trims no more than trimming once. */
  lemma TrimPunctuationIdempotent(s: string)
    ensures PunctTrimmed(PunctTrimmed(s)) == PunctTrimmed(s)
  {
    PunctTrimmedSpec(s);
  }

  /** Punctuation inside the text is kept. */
  lemma TrimKeepsInnerPunctuation()
    ensures PunctTrimmed("stop. now.") == "stop. now"
  {
    assert "stop. now."[..9] == "stop. now";
  }

  // ---------------------------------------------------------------------
  // Substring search

  /** `s.find(p) != npos`. */
  predicate Contains(s: string, p: string)
    decreases |s|
  {
    p <= s || (s != [] && Contains(s[1..], p))
  }
}
