/**
 * The hand-written JSON helpers of the conversational executable:
 * `EscapeJson` (string escaping as in section 7 of RFC 8259),
 * `BuildMessagesJson` (the chat message array) and
 * `ExtractContentFromResponse` (finds the first `"content":` and decodes
 * the string after it; `\uXXXX` is not decoded).
 */
module Json {
  import opened Wrappers

  // ---------------------------------------------------------------------
  // EscapeJson

  /** Lowercase hexadecimal digit, as `%x` prints it. */
  function HexDigit(d: nat): (c: char)
    requires d < 16
    ensures ('0' <= c <= '9') || ('a' <= c <= 'f')
  {
    if d < 10 then ('0' as int + d) as char else ('a' as int + d - 10) as char
  }

  /** The escape the source emits for one character. */
  function EscapeChar(c: char): string
  {
    if c == '"' then ['\\', '"']
    else if c == '\\' then ['\\', '\\']
    else if c == 8 as char then ['\\', 'b']
    else if c == 12 as char then ['\\', 'f']
    else if c == '\n' then ['\\', 'n']
    else if c == '\r' then ['\\', 'r']
    else if c == '\t' then ['\\', 't']
    else if (c as int) < 0x20 then ['\\', 'u', '0', '0', HexDigit(c as int / 16), HexDigit(c as int % 16)]
    else [c]
  }

  /** The escaped form of a whole string, character by character. */
  function Escaped(s: string): string
  {
    if s == [] then [] else EscapeChar(s[0]) + Escaped(s[1..])
  }

  lemma {:induction false} EscapedAppend(a: string, b: string)
    ensures Escaped(a + b) == Escaped(a) + Escaped(b)
  {
    if a != [] {
      assert (a + b)[0] == a[0];
      assert (a + b)[1..] == a[1..] + b;
      EscapedAppend(a[1..], b);
    } else {
      assert a + b == b;
    }
  }

  /** Escapes `"`, `\`, the named control characters and every other byte
      below 0x20 (as `\u00xx`); other bytes pass through unchanged. */
  method EscapeJson(input: string) returns (output: string)
    ensures output == Escaped(input)
  {
    output := [];
    for i := 0 to |input|
      invariant output == Escaped(input[..i])
    {
      var ch := input[i];
      var piece: string;
      if ch == '"' {
        piece := "\\\"";
      } else if ch == '\\' {
        piece := "\\\\";
      } else if ch == 8 as char {
        piece := "\\b";
      } else if ch == 12 as char {
        piece := "\\f";
      } else if ch == '\n' {
        piece := "\\n";
      } else if ch == '\r' {
        piece := "\\r";
      } else if ch == '\t' {
        piece := "\\t";
      } else if (ch as int) < 0x20 {
        piece := "\\u00" + [HexDigit(ch as int / 16), HexDigit(ch as int % 16)];
      } else {
        piece := [ch];
      }
      assert piece == EscapeChar(ch);
      EscapedSnoc(input, i);
      output := output + piece;
    }
    assert input[..|input|] == input;
  }

  lemma EscapedSnoc(input: string, i: nat)
    requires i < |input|
    ensures Escaped(input[..i + 1]) == Escaped(input[..i]) + EscapeChar(input[i])
  {
    assert input[..i + 1] == input[..i] + [input[i]];
    EscapedAppend(input[..i], [input[i]]);
  }

  /** No escaped string contains a byte below 0x20. */
  lemma {:induction false} EscapedHasNoControl(s: string)
    ensures forall i :: 0 <= i < |Escaped(s)| ==> Escaped(s)[i] as int >= 0x20
  {
    if s != [] {
      EscapedHasNoControl(s[1..]);
    }
  }

  /** A character that may stand unescaped inside a JSON string. */
  predicate IsUnescaped(c: char) {
    c as int >= 0x20 && c != '"' && c != '\\'
  }

  predicate IsHexDigit(c: char) {
    ('0' <= c <= '9') || ('a' <= c <= 'f') || ('A' <= c <= 'F')
  }

  /** The body of a JSON string (section 7 of RFC 8259): unescaped
      characters, two-character escapes, and `\u` with four hex digits. */
  predicate IsJsonStringBody(t: string)
    decreases |t|
  {
    if t == [] then true
    else if IsUnescaped(t[0]) then IsJsonStringBody(t[1..])
    else if t[0] == '\\' && |t| >= 2 && t[1] in "\"\\/bfnrt" then IsJsonStringBody(t[2..])
    else if t[0] == '\\' && |t| >= 6 && t[1] == 'u'
      && IsHexDigit(t[2]) && IsHexDigit(t[3]) && IsHexDigit(t[4]) && IsHexDigit(t[5])
    then IsJsonStringBody(t[6..])
    else false
  }

  /** One character's escape followed by a valid body is a valid body. */
  lemma EscapeCharThenBody(c: char, t: string)
    requires IsJsonStringBody(t)
    ensures IsJsonStringBody(EscapeChar(c) + t)
  {
    var e := EscapeChar(c);
    if |e| == 2 {
      assert (e + t)[2..] == t;
    } else if |e| == 6 {
      assert (e + t)[6..] == t;
    } else {
      assert (e + t)[1..] == t;
    }
  }

  /** Every escaped string is a well-formed JSON string body: each `"` and
      `\` of the input comes out behind a backslash. */
  lemma {:induction false} EscapedIsJsonStringBody(s: string)
    ensures IsJsonStringBody(Escaped(s))
  {
    if s != [] {
      EscapedIsJsonStringBody(s[1..]);
      EscapeCharThenBody(s[0], Escaped(s[1..]));
    }
  }

  // ---------------------------------------------------------------------
  // ExtractContentFromResponse

  /** The field the decoder looks for. */
  const Marker: string := "\"content\":"

  /** `p` occurs in `s` at index `i`. */
  predicate OccursAt(s: string, p: string, i: int) {
    0 <= i && i + |p| <= |s| && s[i..i + |p|] == p
  }

  /** `std::string::find(p, from)`: the first occurrence at or after `from`. */
  function Find(s: string, p: string, from: nat): (r: Option<nat>)
    decreases |s| - from
    ensures r.Some? ==> from <= r.value && OccursAt(s, p, r.value)
  {
    if from + |p| > |s| then None
    else if s[from..from + |p|] == p then Some(from)
    else Find(s, p, from + 1)
  }

  /** `Find` returns the first occurrence, and `None` only when there is none. */
  lemma {:induction false} FindIsFirst(s: string, p: string, from: nat)
    decreases |s| - from
    ensures var r := Find(s, p, from);
      && (r.Some? ==> forall j :: from <= j < r.value ==> !OccursAt(s, p, j))
      && (r.None? ==> forall j :: from <= j ==> !OccursAt(s, p, j))
  {
    if from + |p| <= |s| && s[from..from + |p|] != p {
      FindIsFirst(s, p, from + 1);
    }
  }

  /** The whitespace the decoder skips after the marker. */
  predicate IsJsonSpace(c: char) {
    c == ' ' || c == '\t' || c == '\n' || c == '\r'
  }

  /** The first index at or after `pos` that is not whitespace, or `|s|`. */
  function SkipJsonSpace(s: string, pos: nat): (r: nat)
    requires pos <= |s|
    decreases |s| - pos
    ensures pos <= r <= |s|
    ensures r < |s| ==> !IsJsonSpace(s[r])
  {
    if pos < |s| && IsJsonSpace(s[pos]) then SkipJsonSpace(s, pos + 1) else pos
  }

  /** Everything `SkipJsonSpace` passes over is whitespace. */
  lemma {:induction false} SkipJsonSpaceSkipsSpace(s: string, pos: nat)
    requires pos <= |s|
    decreases |s| - pos
    ensures forall j :: pos <= j < SkipJsonSpace(s, pos) ==> IsJsonSpace(s[j])
  {
    if pos < |s| && IsJsonSpace(s[pos]) {
      SkipJsonSpaceSkipsSpace(s, pos + 1);
    }
  }

  /** The character an escape `\x` stands for; unknown escapes give `x`. */
  function Unescape(x: char): char
  {
    if x == 'n' then '\n'
    else if x == 'r' then '\r'
    else if x == 't' then '\t'
    else if x == 'b' then 8 as char
    else if x == 'f' then 12 as char
    else x
  }

  /** Decodes a string body up to the first unescaped `"` (or the end).
      A backslash that is the very last character is kept as it is. */
  function DecodeString(t: string): string
    decreases |t|
  {
    if t == [] then []
    else if t[0] == '"' then []
    else if t[0] == '\\' && |t| >= 2 then [Unescape(t[1])] + DecodeString(t[2..])
    else [t[0]] + DecodeString(t[1..])
  }

  /** The content of the value starting at `pos`: "" unless it is a
      quoted string. */
  function ValueContent(json: string, pos: nat): string
    requires pos <= |json|
  {
    if pos == |json| then ""
    else if json[pos] == 'n' then ""
    else if json[pos] != '"' then ""
    else DecodeString(json[pos + 1..])
  }

  /** What `ExtractContentFromResponse` returns for a response. */
  function ExtractedContent(json: string): string
  {
    match Find(json, Marker, 0)
    case None => ""
    case Some(k) => ValueContent(json, SkipJsonSpace(json, k + |Marker|))
  }

  /** One step of the decoding loop. */
  lemma DecodeStep(json: string, pos: nat)
    requires pos < |json| && json[pos] != '"'
    ensures DecodeString(json[pos..]) ==
      if json[pos] == '\\' && pos + 1 < |json| then [Unescape(json[pos + 1])] + DecodeString(json[pos + 2..])
      else [json[pos]] + DecodeString(json[pos + 1..])
  {
    assert json[pos..][1..] == json[pos + 1..];
    if pos + 1 < |json| {
      assert json[pos..][2..] == json[pos + 2..];
    }
  }

  /** One pass of the decoding loop keeps what is decoded so far followed
      by the decoding of the rest equal to the whole. */
  lemma DecodeAdvance(json: string, pos: nat, content: string, whole: string)
    requires pos < |json| && json[pos] != '"'
    requires content + DecodeString(json[pos..]) == whole
    ensures var escape := json[pos] == '\\' && pos + 1 < |json|;
      var c := if escape then Unescape(json[pos + 1]) else json[pos];
      var next := if escape then pos + 2 else pos + 1;
      (content + [c]) + DecodeString(json[next..]) == whole
  {
    DecodeStep(json, pos);
    if json[pos] == '\\' && pos + 1 < |json| {
      assert content + ([Unescape(json[pos + 1])] + DecodeString(json[pos + 2..])) == whole;
    } else {
      assert content + ([json[pos]] + DecodeString(json[pos + 1..])) == whole;
    }
  }

  /** The decoding loop: copies characters up to the first unescaped `"`,
      replacing each escape pair by the character it stands for. */
  method DecodeQuoted(json: string, start: nat) returns (content: string)
    requires start <= |json|
    ensures content == DecodeString(json[start..])
  {
    var pos := start;
    content := [];
    while pos < |json|
      invariant start <= pos <= |json|
      invariant content + DecodeString(json[pos..]) == DecodeString(json[start..])
    {
      var ch := json[pos];
      if ch == '"' {
        assert json[pos..][0] == '"';
        break;
      }
      DecodeAdvance(json, pos, content, DecodeString(json[start..]));
      if ch == '\\' && pos + 1 < |json| {
        content := content + [Unescape(json[pos + 1])];
        pos := pos + 2;
      } else {
        content := content + [ch];
        pos := pos + 1;
      }
    }
    assert DecodeString(json[pos..]) == [];
  }

  /** Finds the first `"content":`, skips whitespace, and decodes the
      quoted string that follows; anything else gives "". */
  method ExtractContentFromResponse(json: string) returns (content: string)
    ensures content == ExtractedContent(json)
  {
    var found := Find(json, Marker, 0);
    if found.None? {
      return "";
    }
    var pos := found.value + |Marker|;
    ghost var valueStart := SkipJsonSpace(json, pos);
    assert ExtractedContent(json) == ValueContent(json, valueStart);
    while pos < |json| && IsJsonSpace(json[pos])
      invariant found.value + |Marker| <= pos <= |json|
      invariant valueStart == SkipJsonSpace(json, pos)
    {
      pos := pos + 1;
    }
    assert pos == valueStart;
    if pos >= |json| {
      return "";
    }
    if json[pos] == 'n' {
      return "";
    }
    if json[pos] != '"' {
      return "";
    }
    content := DecodeQuoted(json, pos + 1);
  }

  /** Without the marker the decoder returns "". */
  lemma ExtractWithoutMarker(json: string)
    requires forall j :: !OccursAt(json, Marker, j)
    ensures ExtractedContent(json) == ""
  {
    FindIsFirst(json, Marker, 0);
  }

  /** After the first marker, only whitespace, a `null` (a value starting
      with `n`), or any other value that is not a quoted string make the
      decoder return "". */
  lemma ExtractNotQuoted(json: string, k: nat)
    requires OccursAt(json, Marker, k) && forall j :: 0 <= j < k ==> !OccursAt(json, Marker, j)
    ensures var pos := SkipJsonSpace(json, k + |Marker|);
      (pos == |json| || json[pos] != '"') ==> ExtractedContent(json) == ""
  {
    FindIsFirst(json, Marker, 0);
    assert Find(json, Marker, 0) == Some(k);
  }

  /** Characters the escaper and the decoder agree on: all but the
      control bytes that are escaped as `\u00xx`. */
  predicate RoundTrips(c: char) {
    c as int >= 0x20 || c == 8 as char || c == 12 as char || c == '\n' || c == '\r' || c == '\t'
  }

  /** Decoding one escaped character that round-trips gives it back. */
  lemma DecodeEscapedChar(c: char, tail: string)
    requires RoundTrips(c)
    ensures DecodeString(EscapeChar(c) + tail) == [c] + DecodeString(tail)
  {
    var e := EscapeChar(c);
    if |e| == 2 {
      assert (e + tail)[0] == '\\' && (e + tail)[2..] == tail;
    } else {
      assert (e + tail)[0] == c && (e + tail)[1..] == tail;
    }
  }

  /** Decoding an escaped string, closed by a quote, gives it back. */
  lemma {:induction false} DecodeEscaped(s: string, rest: string)
    requires forall i :: 0 <= i < |s| ==> RoundTrips(s[i])
    ensures DecodeString(Escaped(s) + "\"" + rest) == s
  {
    if s != [] {
      var tail := Escaped(s[1..]) + "\"" + rest;
      assert Escaped(s) + "\"" + rest == EscapeChar(s[0]) + tail;
      DecodeEscaped(s[1..], rest);
      DecodeEscapedChar(s[0], tail);
    } else {
      assert Escaped(s) + "\"" + rest == ['"'] + rest;
    }
  }

  /** A response that starts with the marker and a quote is decoded from
      just after the quote. */
  lemma ExtractAfterMarker(json: string)
    requires |json| > |Marker| && json[..|Marker|] == Marker && json[|Marker|] == '"'
    ensures ExtractedContent(json) == DecodeString(json[|Marker| + 1..])
  {
    assert json[0..|Marker|] == Marker;
    assert Find(json, Marker, 0) == Some(0);
  }

  /** Round trip: the decoder recovers any string the escaper wrote into a
      `"content":` field, as long as it holds no control byte that needs a
      `\u` escape. */
  lemma ExtractAfterEscape(s: string)
    requires forall i :: 0 <= i < |s| ==> RoundTrips(s[i])
    ensures ExtractedContent(Marker + "\"" + Escaped(s) + "\"") == s
  {
    var e := Escaped(s);
    QuotedAfter(Marker, e);
    ExtractAfterMarker(Marker + "\"" + e + "\"");
    DecodeEscaped(s, []);
  }

  /** Where the parts of `p"e"` stand. */
  lemma QuotedAfter(p: string, e: string)
    ensures var json := p + "\"" + e + "\"";
      && |json| > |p| && json[..|p|] == p && json[|p|] == '"'
      && json[|p| + 1..] == e + "\"" + []
  {
    var json := p + "\"" + e + "\"";
    assert json == p + ("\"" + (e + "\""));
  }

  // ---------------------------------------------------------------------
  // BuildMessagesJson

  /** One chat turn. */
  datatype ChatMessage = ChatMessage(role: string, content: string)

  /** One message object; the role is written as it is, the content escaped. */
  function MessageJson(m: ChatMessage): string
  {
    "{\"role\":\"" + m.role + "\",\"content\":\"" + Escaped(m.content) + "\"}"
  }

  /** `xs` separated by `sep`. */
  function Join(xs: seq<string>, sep: string): string
  {
    if xs == [] then []
    else if |xs| == 1 then xs[0]
    else xs[0] + sep + Join(xs[1..], sep)
  }

  lemma {:induction false} JoinSnoc(xs: seq<string>, y: string, sep: string)
    requires xs != []
    ensures Join(xs + [y], sep) == Join(xs, sep) + sep + y
  {
    if |xs| == 1 {
      assert (xs + [y])[1..] == [y];
    } else {
      assert (xs + [y])[1..] == xs[1..] + [y];
      JoinSnoc(xs[1..], y, sep);
    }
  }

  /** The message objects, in order. */
  function Objects(ms: seq<ChatMessage>): (objs: seq<string>)
    ensures |objs| == |ms|
    ensures forall i :: 0 <= i < |ms| ==> objs[i] == MessageJson(ms[i])
  {
    seq(|ms|, i requires 0 <= i < |ms| => MessageJson(ms[i]))
  }

  /** The JSON array of the messages. */
  function MessagesJson(ms: seq<ChatMessage>): string
  {
    "[" + Join(Objects(ms), ",") + "]"
  }

  /** Writes `[`, the message objects separated by `,`, then `]`. */
  method BuildMessagesJson(messages: seq<ChatMessage>) returns (json: string)
    ensures json == MessagesJson(messages)
  {
    ghost var objs := Objects(messages);
    json := "[";
    for i := 0 to |messages|
      invariant json == "[" + Join(objs[..i], ",")
    {
      var content := EscapeJson(messages[i].content);
      var obj := "{\"role\":\"" + messages[i].role + "\",\"content\":\"" + content + "\"}";
      assert obj == objs[i];
      JoinStep(json, objs, i);
      if i > 0 {
        json := json + ",";
      }
      json := json + obj;
    }
    assert objs[..|messages|] == objs;
    json := json + "]";
  }

  /** Appending the next element, after a comma unless it is the first,
      extends the joined prefix by one. */
  lemma JoinStep(json: string, xs: seq<string>, i: nat)
    requires i < |xs| && json == "[" + Join(xs[..i], ",")
    ensures (if i > 0 then json + "," else json) + xs[i] == "[" + Join(xs[..i + 1], ",")
  {
    assert xs[..i + 1] == xs[..i] + [xs[i]];
    if i > 0 {
      JoinSnoc(xs[..i], xs[i], ",");
    } else {
      assert xs[..1] == [xs[0]];
    }
  }

  /** Where the `i`-th element starts in `Join(xs, sep)`. */
  function Offset(xs: seq<string>, sep: string, i: nat): nat
    requires i <= |xs|
  {
    if i == 0 then 0 else |xs[0]| + |sep| + Offset(xs[1..], sep, i - 1)
  }

  /** A slice of the right part of a concatenation. */
  lemma SliceRight(a: string, b: string, k: nat, m: nat)
    requires k <= m <= |b|
    ensures (a + b)[|a| + k..|a| + m] == b[k..m]
  {
  }

  /** The `i`-th element stands at its offset. */
  lemma {:induction false} JoinElementAt(xs: seq<string>, sep: string, i: nat)
    requires i < |xs|
    ensures Offset(xs, sep, i) + |xs[i]| <= |Join(xs, sep)|
    ensures Join(xs, sep)[Offset(xs, sep, i)..Offset(xs, sep, i) + |xs[i]|] == xs[i]
  {
    if i == 0 {
      if |xs| > 1 {
        assert Join(xs, sep) == xs[0] + (sep + Join(xs[1..], sep));
      }
    } else {
      var rest := Join(xs[1..], sep);
      assert Join(xs, sep) == (xs[0] + sep) + rest;
      JoinElementAt(xs[1..], sep, i - 1);
      var o := Offset(xs[1..], sep, i - 1);
      SliceRight(xs[0] + sep, rest, o, o + |xs[i]|);
    }
  }

  /** Every element but the first comes right after a separator. */
  lemma {:induction false} JoinSeparatorBefore(xs: seq<string>, sep: string, i: nat)
    requires 0 < i < |xs|
    ensures |sep| <= Offset(xs, sep, i) <= |Join(xs, sep)|
    ensures Join(xs, sep)[Offset(xs, sep, i) - |sep|..Offset(xs, sep, i)] == sep
  {
    var rest := Join(xs[1..], sep);
    assert Join(xs, sep) == xs[0] + (sep + rest);
    if i == 1 {
      assert Offset(xs, sep, i) == |xs[0]| + |sep|;
      SliceRight(xs[0], sep + rest, 0, |sep|);
      assert (sep + rest)[0..|sep|] == sep;
    } else {
      JoinSeparatorBefore(xs[1..], sep, i - 1);
      var o := Offset(xs[1..], sep, i - 1);
      assert Offset(xs, sep, i) == |xs[0] + sep| + o;
      assert Join(xs, sep) == (xs[0] + sep) + rest;
      SliceRight(xs[0] + sep, rest, o - |sep|, o);
      assert rest[o - |sep|..o] == sep;
    }
  }

  /** The last element ends the joined string. */
  lemma {:induction false} JoinEndsWithLast(xs: seq<string>, sep: string)
    requires xs != []
    ensures |Join(xs, sep)| == Offset(xs, sep, |xs| - 1) + |xs[|xs| - 1]|
  {
    if |xs| > 1 {
      JoinEndsWithLast(xs[1..], sep);
    }
  }

  /** An empty list is written as "[]". */
  lemma EmptyMessagesJson()
    ensures MessagesJson([]) == "[]"
  {
  }

  /** Where the parts of `[body]` stand. */
  lemma Bracketed(body: string, o: nat, n: nat)
    requires o + n <= |body|
    ensures var json := "[" + body + "]";
      && |json| == |body| + 2 && json[0] == '[' && json[|json| - 1] == ']'
      && json[1 + o..1 + o + n] == body[o..o + n]
      && (o > 0 ==> json[o] == body[o - 1])
  {
    var json := "[" + body + "]";
    assert json == "[" + (body + "]");
    SliceRight("[", body + "]", o, o + n);
    assert (body + "]")[o..o + n] == body[o..o + n];
  }

  /** The array is bracketed. */
  lemma MessagesJsonBrackets(ms: seq<ChatMessage>)
    ensures var json := MessagesJson(ms);
      |json| >= 2 && json[0] == '[' && json[|json| - 1] == ']'
  {
    Bracketed(Join(Objects(ms), ","), 0, 0);
  }

  /** The `i`-th element of a bracketed, comma-separated list stands at
      its offset. */
  lemma ListElementAt(xs: seq<string>, i: nat)
    requires i < |xs|
    ensures var json := "[" + Join(xs, ",") + "]";
      var o := 1 + Offset(xs, ",", i);
      o + |xs[i]| < |json| && json[o..o + |xs[i]|] == xs[i]
  {
    JoinElementAt(xs, ",", i);
    Bracketed(Join(xs, ","), Offset(xs, ",", i), |xs[i]|);
  }

  /** Every element of the list but the first comes after a comma. */
  lemma ListCommaBefore(xs: seq<string>, i: nat)
    requires 0 < i < |xs|
    ensures var json := "[" + Join(xs, ",") + "]";
      var o := 1 + Offset(xs, ",", i);
      o <= |json| && json[o - 1] == ','
  {
    var body := Join(xs, ",");
    var o := Offset(xs, ",", i);
    JoinSeparatorBefore(xs, ",", i);
    Bracketed(body, o, 0);
    assert body[o - 1] == body[o - 1..o][0];
  }

  /** The last element of the list is followed by the closing bracket
      alone. */
  lemma ListEnd(xs: seq<string>)
    requires xs != []
    ensures var json := "[" + Join(xs, ",") + "]";
      |json| == 1 + Offset(xs, ",", |xs| - 1) + |xs[|xs| - 1]| + 1
  {
    JoinEndsWithLast(xs, ",");
  }

  /** The `i`-th message's object (`Objects(ms)[i]` is `MessageJson(ms[i])`)
      stands at its offset, after a comma unless it is the first; the last
      one is followed by the closing bracket alone. */
  lemma MessagesJsonLayout(ms: seq<ChatMessage>, i: nat)
    requires i < |ms|
    ensures var json := MessagesJson(ms);
      var obj := Objects(ms)[i];
      var o := 1 + Offset(Objects(ms), ",", i);
      && o + |obj| < |json|
      && json[o..o + |obj|] == obj
      && (i > 0 ==> json[o - 1] == ',')
      && (i == |ms| - 1 ==> |json| == o + |obj| + 1)
  {
    ListElementAt(Objects(ms), i);
    if i > 0 {
      ListCommaBefore(Objects(ms), i);
    }
    if i == |ms| - 1 {
      ListEnd(Objects(ms));
    }
  }
}
