/** Scalars on one line of a Sigma rule, src/autosiem/sigma.py: how the exporter quotes them, and
    how the importer strips comments, splits `key: value` and reads the value back. A subset of
    the flow scalars of YAML 1.2.2 (section 7.3), decoded per section 7 of RFC 8259. */
module SigmaScalar {
  import opened Common
  import opened Detection
  import Decimal

  /** What Python knows about Unicode text beyond ASCII, left abstract. */
  datatype Chars = Chars(
    lower: string -> string,
    otherDigits: string -> bool,
    otherInt: string -> Option<int>,
    isFloat: string -> bool)

  // ----- small string functions -----

  predicate IsSpace(c: char) {
    var n := c as int;
    9 <= n <= 13 || 28 <= n <= 32 || n == 0x85 || n == 0xA0 || n == 0x1680 || 0x2000 <= n <= 0x200A
    || n == 0x2028 || n == 0x2029 || n == 0x202F || n == 0x205F || n == 0x3000
  }

  function LStrip(s: string): string {
    if s != "" && IsSpace(s[0]) then LStrip(s[1..]) else s
  }

  function RStrip(s: string): string {
    if s != "" && IsSpace(s[|s| - 1]) then RStrip(s[..|s| - 1]) else s
  }

  function Strip(s: string): string {
    RStrip(LStrip(s))
  }

  /** `s.replace(c, d)` for a single character. */
  function Escaped(s: string): string {
    if s == "" then ""
    else (if s[0] == '\\' then "\\\\" else if s[0] == '"' then "\\\"" else [s[0]]) + Escaped(s[1..])
  }

  /** `s.replace("''", "'")` */
  function Unpair(s: string): string {
    if |s| >= 2 && s[0] == '\'' && s[1] == '\'' then ['\''] + Unpair(s[2..])
    else if s == "" then ""
    else [s[0]] + Unpair(s[1..])
  }

  predicate Contains(s: string, c: char) {
    exists i :: 0 <= i < |s| && s[i] == c
  }

  predicate ContainsPair(s: string, c: char, d: char) {
    exists i :: 0 <= i < |s| - 1 && s[i] == c && s[i + 1] == d
  }

  predicate HasControl(s: string) {
    exists i :: 0 <= i < |s| && s[i] as int < 0x20
  }

  // ----- writing -----

  predicate IsDigits(chars: Chars, text: string) {
    (text != "" && Decimal.AllDigits(text)) || chars.otherDigits(text)
  }

  const WORDS: set<string> := {"true", "false", "yes", "no", "null", "none", "~"}
  const SPECIAL_FIRST: string := "-?[]{}#&*!|>'\"%@\\"

  predicate NeedsQuoting(chars: Chars, text: string) {
    || text == ""
    || text != Strip(text)
    || IsDigits(chars, text) || chars.isFloat(text)
    || chars.lower(text) in WORDS
    || text[0] in SPECIAL_FIRST
    || Contains(text, ':') || Contains(text, '#')
    || ContainsPair(text, '[', ']') || ContainsPair(text, '{', '}')
  }

  function QuotedText(text: string): string {
    if Contains(text, '\\') && !Contains(text, '\'') then "'" + text + "'"
    else "\"" + Escaped(text) + "\""
  }

  function YamlText(chars: Chars, text: string): string {
    if NeedsQuoting(chars, text) then QuotedText(text) else text
  }

  function YamlScalar(chars: Chars, v: Value): string
    requires !v.List?
  {
    match v
    case Null => "null"
    case Bool(b) => if b then "true" else "false"
    case Num(n) => if n < 0 then "-" + Decimal.Show(-n) else Decimal.Show(n)
    case Str(s) => YamlText(chars, s)
  }

  // ----- reading a value -----

  /** The body of a JSON string. `\u` escapes, which the exporter never writes, are not decoded. */
  function JsonBody(s: string): Option<string> {
    if s == "" then Some("")
    else if s[0] as int < 0x20 || s[0] == '"' then None
    else if s[0] == '\\' then
      if |s| < 2 then None
      else
        var rest := JsonBody(s[2..]);
        var c := match s[1]
          case '"' => Some('"')
          case '\\' => Some('\\')
          case '/' => Some('/')
          case 'b' => Some('\U{8}')
          case 'f' => Some('\U{c}')
          case 'n' => Some('\n')
          case 'r' => Some('\r')
          case 't' => Some('\t')
          case _ => None;
        if c.None? || rest.None? then None else Some([c.value] + rest.value)
    else
      match JsonBody(s[1..])
      case None => None
      case Some(rest) => Some([s[0]] + rest)
  }

  /** A value read back: one of ours, a floating-point number, or an inline list. */
  datatype Parsed = Val(v: Value) | FloatVal(text: string) | InlineList(text: string)

  predicate Wrapped(text: string, first: char, last: char) {
    |text| >= 2 && text[0] == first && text[|text| - 1] == last
  }

  function Inner(text: string): string
    requires |text| >= 2
  {
    text[1..|text| - 1]
  }

  function ParseScalar(chars: Chars, raw: string): Parsed {
    var text := Strip(raw);
    if text == "" then Val(Null)
    else if Wrapped(text, '"', '"') then
      var decoded := JsonBody(Inner(text));
      Val(Str(if decoded.Some? then decoded.value else Inner(text)))
    else if Wrapped(text, '\'', '\'') then Val(Str(Unpair(Inner(text))))
    else if text[0] == '[' && text[|text| - 1] == ']' then InlineList(text)
    else
      var word := chars.lower(text);
      if word in {"true", "yes"} then Val(Bool(true))
      else if word in {"false", "no"} then Val(Bool(false))
      else if word in {"null", "~", "none"} then Val(Null)
      else if IsDigits(chars, text) then
        if Decimal.AllDigits(text) then Val(Num(Decimal.Read(text)))
        else if chars.otherInt(text).Some? then Val(Num(chars.otherInt(text).value))
        else Val(Str(text))
      else if chars.isFloat(text) then FloatVal(text)
      else Val(Str(text))
  }

  // ----- scanning a line -----

  datatype Scan = Scan(quote: Option<char>, escaped: bool)

  const START := Scan(None, false)

  function Advance(st: Scan, c: char): Scan {
    if st.escaped then st.(escaped := false)
    else if st.quote == Some('"') && c == '\\' then st.(escaped := true)
    else if c == '"' || c == '\'' then
      if st.quote.None? then st.(quote := Some(c))
      else if st.quote == Some(c) then st.(quote := None)
      else st
    else st
  }

  function After(st: Scan, text: string): Scan
    decreases |text|
  {
    if text == "" then st else After(Advance(st, text[0]), text[1..])
  }

  predicate Hit(st: Scan, c: char, target: char) {
    !st.escaped && st.quote.None? && c == target
  }

  /** Position of the first `target` outside quotes, or the length. */
  function Find(st: Scan, text: string, target: char): (n: nat)
    requires target == '#' || target == ':'
    ensures n <= |text|
    decreases |text|
  {
    if text == "" || Hit(st, text[0], target) then 0 else 1 + Find(Advance(st, text[0]), text[1..], target)
  }

  function StripTrailingComment(line: string): string {
    line[..Find(START, line, '#')]
  }

  function SplitMapping(text: string): (string, string) {
    var i := Find(START, text, ':');
    if i == |text| then (Strip(text), "") else (Strip(text[..i]), Strip(text[i + 1..]))
  }

  // ----- the scanners -----

  lemma {:induction false} FindStep(st: Scan, text: string, i: nat, target: char)
    requires (target == '#' || target == ':') && i < |text|
    requires !Hit(st, text[i], target)
    ensures Find(st, text[i..], target) == 1 + Find(Advance(st, text[i]), text[i + 1..], target)
  {
    assert text[i..][0] == text[i] && text[i..][1..] == text[i + 1..];
  }

  method StripCommentOf(line: string) returns (r: string)
    ensures r == StripTrailingComment(line)
  {
    var inQuotes: Option<char>, escaped := None, false;
    var i := 0;
    while i < |line|
      invariant 0 <= i <= |line|
      invariant Find(START, line, '#') == i + Find(Scan(inQuotes, escaped), line[i..], '#')
    {
      var ch := line[i];
      if !escaped && ch == '#' && inQuotes.None? {
        return line[..i];
      }
      FindStep(Scan(inQuotes, escaped), line, i, '#');
      if escaped {
        escaped := false;
      } else if inQuotes == Some('"') && ch == '\\' {
        escaped := true;
      } else if ch == '"' || ch == '\'' {
        if inQuotes.None? {
          inQuotes := Some(ch);
        } else if inQuotes == Some(ch) {
          inQuotes := None;
        }
      }
      i := i + 1;
    }
    r := line;
  }

  method SplitMappingOf(text: string) returns (key: string, value: string)
    ensures (key, value) == SplitMapping(text)
  {
    var inQuotes: Option<char>, escaped := None, false;
    var i := 0;
    while i < |text|
      invariant 0 <= i <= |text|
      invariant Find(START, text, ':') == i + Find(Scan(inQuotes, escaped), text[i..], ':')
    {
      var ch := text[i];
      if !escaped && ch == ':' && inQuotes.None? {
        return Strip(text[..i]), Strip(text[i + 1..]);
      }
      FindStep(Scan(inQuotes, escaped), text, i, ':');
      if escaped {
        escaped := false;
      } else if inQuotes == Some('"') && ch == '\\' {
        escaped := true;
      } else if ch == '"' || ch == '\'' {
        if inQuotes.None? {
          inQuotes := Some(ch);
        } else if inQuotes == Some(ch) {
          inQuotes := None;
        }
      }
      i := i + 1;
    }
    return Strip(text), "";
  }

  // ----- facts about scanning -----

  lemma {:induction false} FindAppend(st: Scan, a: string, b: string, target: char)
    requires target == '#' || target == ':'
    requires Find(st, a, target) == |a|
    ensures Find(st, a + b, target) == |a| + Find(After(st, a), b, target)
    ensures After(st, a + b) == After(After(st, a), b)
    decreases |a|
  {
    if a == "" {
      assert a + b == b;
    } else {
      assert (a + b)[1..] == a[1..] + b;
      FindAppend(Advance(st, a[0]), a[1..], b, target);
    }
  }

  lemma {:induction false} FindAbsent(st: Scan, text: string, target: char)
    requires (target == '#' || target == ':') && !Contains(text, target)
    ensures Find(st, text, target) == |text|
    decreases |text|
  {
    if text != "" {
      assert !Contains(text[1..], target) by {
        assert forall i :: 0 <= i < |text[1..]| ==> text[1..][i] == text[i + 1];
      }
      FindAbsent(Advance(st, text[0]), text[1..], target);
    }
  }

  lemma {:induction false} UnquotedState(text: string)
    requires !Contains(text, '"') && !Contains(text, '\'')
    ensures After(START, text) == START
  {
    if text != "" {
      assert text[0] != '"' && text[0] != '\'';
      assert forall i :: 0 <= i < |text[1..]| ==> text[1..][i] == text[i + 1];
      assert !Contains(text[1..], '"') && !Contains(text[1..], '\'');
      UnquotedState(text[1..]);
    }
  }

  lemma {:induction false} InsideSingle(text: string, target: char)
    requires (target == '#' || target == ':') && !Contains(text, '\'')
    ensures Find(Scan(Some('\''), false), text, target) == |text|
    ensures After(Scan(Some('\''), false), text) == Scan(Some('\''), false)
  {
    if text != "" {
      assert text[0] != '\'';
      assert forall i :: 0 <= i < |text[1..]| ==> text[1..][i] == text[i + 1];
      assert !Contains(text[1..], '\'');
      InsideSingle(text[1..], target);
    }
  }

  lemma {:induction false} InsideDouble(text: string, target: char)
    requires target == '#' || target == ':'
    ensures Find(Scan(Some('"'), false), Escaped(text), target) == |Escaped(text)|
    ensures After(Scan(Some('"'), false), Escaped(text)) == Scan(Some('"'), false)
  {
    if text != "" {
      InsideDouble(text[1..], target);
      var st := Scan(Some('"'), false);
      var head := Escaped(text)[..|Escaped(text)| - |Escaped(text[1..])|];
      assert Escaped(text) == head + Escaped(text[1..]);
      if text[0] == '\\' || text[0] == '"' {
        assert head == ['\\', text[0]];
        assert head[1..] == [text[0]] && head[1..][1..] == "";
        assert Advance(st, '\\') == Scan(Some('"'), true) && Advance(Scan(Some('"'), true), text[0]) == st;
        assert After(Scan(Some('"'), true), [text[0]]) == After(st, [text[0]][1..]);
        assert Find(st, head, target) == 2 && After(st, head) == st;
      } else {
        assert head == [text[0]] && head[1..] == "";
        assert Find(st, head, target) == 1 && After(st, head) == st;
      }
      FindAppend(st, head, Escaped(text[1..]), target);
    }
  }

  /** Neither a comment mark nor a colon of a written scalar is seen outside quotes. */
  lemma {:induction false} ScalarHides(chars: Chars, s: string, target: char)
    requires target == '#' || target == ':'
    ensures Find(START, YamlText(chars, s), target) == |YamlText(chars, s)|
  {
    var text := YamlText(chars, s);
    if !NeedsQuoting(chars, s) {
      FindAbsent(START, text, target);
    } else if Contains(s, '\\') && !Contains(s, '\'') {
      InsideSingle(s, target);
      QuoteWraps('\'', s, target);
    } else {
      InsideDouble(s, target);
      QuoteWraps('"', Escaped(s), target);
    }
  }

  lemma {:induction false} QuoteWraps(q: char, body: string, target: char)
    requires (q == '"' || q == '\'') && (target == '#' || target == ':')
    requires Find(Scan(Some(q), false), body, target) == |body|
    requires After(Scan(Some(q), false), body) == Scan(Some(q), false)
    ensures Find(START, [q] + body + [q], target) == |body| + 2
  {
    var whole := [q] + body + [q];
    assert whole[1..] == body + [q];
    assert Advance(START, q) == Scan(Some(q), false);
    FindAppend(Scan(Some(q), false), body, [q], target);
    assert [q][1..] == "";
    assert Find(Scan(Some(q), false), [q], target) == 1;
  }

  // ----- facts about strings -----

  lemma StripQuoted(q: char, body: string)
    requires !IsSpace(q)
    ensures Strip([q] + body + [q]) == [q] + body + [q]
  {
  }

  lemma {:induction false} UnpairAlone(s: string)
    requires !Contains(s, '\'')
    ensures Unpair(s) == s
  {
    if s != "" {
      assert s[0] != '\'';
      assert forall i :: 0 <= i < |s[1..]| ==> s[1..][i] == s[i + 1];
      assert !Contains(s[1..], '\'');
      UnpairAlone(s[1..]);
    }
  }

  lemma {:induction false} DecodeEscaped(s: string)
    ensures JsonBody(Escaped(s)) == if HasControl(s) then None else Some(s)
  {
    if s != "" {
      DecodeEscaped(s[1..]);
      var rest := Escaped(s[1..]);
      assert HasControl(s) <==> s[0] as int < 0x20 || HasControl(s[1..]) by {
        assert forall i :: 0 < i < |s| ==> s[i] == s[1..][i - 1];
      }
      if s[0] == '\\' || s[0] == '"' {
        assert Escaped(s) == ['\\', s[0]] + rest;
        assert Escaped(s)[2..] == rest && Escaped(s)[0] == '\\' && Escaped(s)[1] == s[0];
        assert s[0] as int >= 0x20;
        if JsonBody(rest).Some? { assert [s[0]] + s[1..] == s; }
      } else {
        assert Escaped(s) == [s[0]] + rest;
        assert Escaped(s)[1..] == rest && Escaped(s)[0] == s[0];
        if JsonBody(rest).Some? { assert [s[0]] + s[1..] == s; }
      }
    }
  }

  lemma {:induction false} EscapedSame(s: string)
    ensures |Escaped(s)| >= |s|
    ensures Escaped(s) == s <==> !Contains(s, '\\') && !Contains(s, '"')
  {
    if s != "" {
      EscapedSame(s[1..]);
      assert forall c :: Contains(s, c) <==> s[0] == c || Contains(s[1..], c) by {
        forall c ensures Contains(s, c) <==> s[0] == c || Contains(s[1..], c) {
          assert forall i :: 0 < i < |s| ==> s[i] == s[1..][i - 1];
        }
      }
      if s[0] == '\\' || s[0] == '"' {
        assert |Escaped(s)| == 2 + |Escaped(s[1..])|;
      } else {
        assert Escaped(s) == [s[0]] + Escaped(s[1..]);
        assert Escaped(s)[1..] == Escaped(s[1..]);
      }
    }
  }

  // ----- the round trips -----

  /** Control characters inside a double-quoted scalar that also needs escapes: strict JSON
      refuses them, and the fallback leaves the escapes in. */
  predicate Unreadable(chars: Chars, s: string) {
    && NeedsQuoting(chars, s)
    && !(Contains(s, '\\') && !Contains(s, '\''))
    && HasControl(s)
    && (Contains(s, '\\') || Contains(s, '"'))
  }

  lemma {:induction false} DoubleQuotedReads(chars: Chars, s: string)
    ensures ParseScalar(chars, "\"" + Escaped(s) + "\"") == Val(Str(s))
       <==> !HasControl(s) || (!Contains(s, '\\') && !Contains(s, '"'))
  {
    var text := "\"" + Escaped(s) + "\"";
    StripQuoted('"', Escaped(s));
    assert text == ['"'] + Escaped(s) + ['"'];
    assert Inner(text) == Escaped(s);
    DecodeEscaped(s);
    EscapedSame(s);
  }

  lemma SingleQuotedReads(chars: Chars, s: string)
    requires !Contains(s, '\'')
    ensures ParseScalar(chars, "'" + s + "'") == Val(Str(s))
  {
    var text := "'" + s + "'";
    StripQuoted('\'', s);
    assert text == ['\''] + s + ['\''];
    assert Inner(text) == s;
    UnpairAlone(s);
  }

  /** Writing a string and reading it back gives the string, except exactly when it is unreadable. */
  lemma ScalarRoundTripIff(chars: Chars, s: string)
    ensures ParseScalar(chars, YamlScalar(chars, Str(s))) == Val(Str(s)) <==> !Unreadable(chars, s)
  {
    if NeedsQuoting(chars, s) {
      if Contains(s, '\\') && !Contains(s, '\'') {
        SingleQuotedReads(chars, s);
      } else {
        DoubleQuotedReads(chars, s);
      }
    } else {
      assert s[0] != '"' && s[0] != '\'' && s[0] != '[' by {
        assert '"' in SPECIAL_FIRST && '\'' in SPECIAL_FIRST && '[' in SPECIAL_FIRST;
      }
    }
  }

  /** The round trip the exporter promises: every string without control characters. */
  lemma ScalarRoundTrip(chars: Chars, s: string)
    requires !HasControl(s)
    ensures ParseScalar(chars, YamlScalar(chars, Str(s))) == Val(Str(s))
  {
    ScalarRoundTripIff(chars, s);
  }

  /** A field name as the exporter writes it: visible at the start of a line, without quotes,
      colons or comment marks. */
  predicate PlainKey(key: string) {
    && key != "" && Strip(key) == key
    && !Contains(key, ':') && !Contains(key, '#') && !Contains(key, '"') && !Contains(key, '\'')
  }

  lemma {:induction false} StripNoChange(s: string)
    requires s != "" && Strip(s) == s
    ensures !IsSpace(s[0]) && !IsSpace(s[|s| - 1]) && LStrip(s) == s && RStrip(s) == s
  {
    LStripLength(s);
    RStripLength(LStrip(s));
  }

  lemma {:induction false} LStripLength(s: string)
    ensures |LStrip(s)| <= |s| && (|LStrip(s)| == |s| ==> LStrip(s) == s)
    ensures LStrip(s) != "" ==> !IsSpace(LStrip(s)[0])
  {
    if s != "" && IsSpace(s[0]) { LStripLength(s[1..]); }
  }

  lemma {:induction false} RStripLength(s: string)
    ensures |RStrip(s)| <= |s| && (|RStrip(s)| == |s| ==> RStrip(s) == s)
    ensures RStrip(s) != "" ==> !IsSpace(RStrip(s)[|RStrip(s)| - 1])
  {
    if s != "" && IsSpace(s[|s| - 1]) { RStripLength(s[..|s| - 1]); }
  }

  lemma ScalarIsStripped(chars: Chars, s: string)
    ensures var text := YamlText(chars, s);
      text != "" && Strip(text) == text && !IsSpace(text[0]) && !IsSpace(text[|text| - 1])
  {
    if NeedsQuoting(chars, s) {
      if Contains(s, '\\') && !Contains(s, '\'') {
        StripQuoted('\'', s);
        assert YamlText(chars, s) == ['\''] + s + ['\''];
      } else {
        StripQuoted('"', Escaped(s));
        assert YamlText(chars, s) == ['"'] + Escaped(s) + ['"'];
      }
    } else {
      StripNoChange(s);
    }
  }

  lemma KeyHasNoMark(key: string, c: char)
    requires !Contains(key, c) && c != ':' && c != ' '
    ensures !Contains(key + ": ", c)
  {
    var head := key + ": ";
    assert head[|key|] == ':' && head[|key| + 1] == ' ';
    assert forall i :: 0 <= i < |key| ==> head[i] == key[i];
  }

  lemma LineKeepsScalar(chars: Chars, key: string, s: string)
    requires PlainKey(key)
    ensures var line := key + ": " + YamlText(chars, s);
      RStrip(StripTrailingComment(line)) == line
  {
    var head, text := key + ": ", YamlText(chars, s);
    ScalarIsStripped(chars, s);
    KeyHasNoMark(key, '#');
    KeyHasNoMark(key, '"');
    KeyHasNoMark(key, '\'');
    FindAbsent(START, head, '#');
    UnquotedState(head);
    ScalarHides(chars, s, '#');
    FindAppend(START, head, text, '#');
    assert (head + text)[|head + text| - 1] == text[|text| - 1];
  }

  lemma SpaceBefore(text: string)
    requires text != "" && Strip(text) == text
    ensures Strip(" " + text) == text
  {
    StripNoChange(text);
    assert (" " + text)[1..] == text;
  }

  lemma LineSplits(chars: Chars, key: string, s: string)
    requires PlainKey(key)
    ensures SplitMapping(key + ": " + YamlText(chars, s)) == (key, YamlText(chars, s))
  {
    var text := YamlText(chars, s);
    var tail := ": " + text;
    var line := key + ": " + text;
    assert line == key + tail;
    FindAbsent(START, key, ':');
    UnquotedState(key);
    FindAppend(START, key, tail, ':');
    ColonFirst(text);
    assert line[..|key|] == key && line[|key| + 1..] == " " + text;
    ScalarIsStripped(chars, s);
    SpaceBefore(text);
    SplitsAt(line, |key|);
  }

  lemma {:induction false} ColonFirst(text: string)
    ensures Find(START, ": " + text, ':') == 0
  {
  }

  lemma {:induction false} SplitsAt(line: string, at: nat)
    requires at < |line| && Find(START, line, ':') == at
    ensures SplitMapping(line) == (Strip(line[..at]), Strip(line[at + 1..]))
  {
  }

  /** A written line `key: scalar` survives comment stripping whole, and splits back into exactly
      that key and scalar. */
  lemma LineRoundTrip(chars: Chars, key: string, s: string)
    requires PlainKey(key)
    ensures var line := key + ": " + YamlText(chars, s);
      RStrip(StripTrailingComment(line)) == line && SplitMapping(line) == (key, YamlText(chars, s))
  {
    LineKeepsScalar(chars, key, s);
    LineSplits(chars, key, s);
  }

  /** A scalar on its own, as a list item, is never mistaken for `key: value`. */
  lemma ItemRoundTrip(chars: Chars, s: string)
    ensures SplitMapping(YamlText(chars, s)) == (YamlText(chars, s), "")
    ensures StripTrailingComment(YamlText(chars, s)) == YamlText(chars, s)
  {
    ScalarHides(chars, s, ':');
    ScalarHides(chars, s, '#');
    ScalarIsStripped(chars, s);
  }

  // ----- the other scalars -----

  function Signed(n: nat): string {
    "-" + Decimal.Show(n)
  }

  /** ASCII text behaves as Python says: digits and words are their own lower case, and a sign before
      digits makes neither digits nor a floating-point number. */
  ghost predicate AsciiSensible(chars: Chars) {
    && (forall n: nat ::
      chars.lower(Signed(n)) == Signed(n) && !chars.otherDigits(Signed(n)) && !chars.isFloat(Signed(n)))
    && (forall n: nat :: chars.lower(Decimal.Show(n)) == Decimal.Show(n))
    && chars.lower("true") == "true" && chars.lower("false") == "false" && chars.lower("null") == "null"
  }

  lemma NumberRoundTrip(chars: Chars, n: nat)
    requires AsciiSensible(chars)
    ensures ParseScalar(chars, Decimal.Show(n)) == Val(Num(n))
  {
    var s := Decimal.Show(n);
    Decimal.ReadShow(n);
    assert Decimal.IsDigit(s[0]) && Decimal.IsDigit(s[|s| - 1]);
    assert Strip(s) == s;
    assert chars.lower(s) == s;
    DigitsAreNoWord(s);
  }

  lemma WordRoundTrip(chars: Chars, v: Value)
    requires AsciiSensible(chars) && (v.Null? || v.Bool?)
    ensures ParseScalar(chars, YamlScalar(chars, v)) == Val(v)
  {
    match v
    case Null => assert Strip("null") == "null";
    case Bool(b) => if b { assert Strip("true") == "true"; } else { assert Strip("false") == "false"; }
  }

  /** Which other scalars survive: null, Booleans and numbers that are not negative. */
  lemma OtherScalarsRoundTrip(chars: Chars, v: Value)
    requires AsciiSensible(chars) && (v.Null? || v.Bool? || (v.Num? && v.n >= 0))
    ensures ParseScalar(chars, YamlScalar(chars, v)) == Val(v)
  {
    if v.Num? { NumberRoundTrip(chars, v.n); } else { WordRoundTrip(chars, v); }
  }

  lemma DigitsAreNoWord(s: string)
    requires s != "" && Decimal.IsDigit(s[0])
    ensures s !in WORDS
  {
  }

  /** Every negative integer comes back as a string: the reader takes a number for digits only. */
  lemma SignedReads(chars: Chars, n: nat)
    requires AsciiSensible(chars)
    ensures ParseScalar(chars, Signed(n)) == Val(Str(Signed(n)))
  {
    SignedIsPlain(n);
    PlainTextReads(chars, Signed(n));
  }

  lemma NegativeNumberBecomesText(chars: Chars, n: int)
    requires AsciiSensible(chars) && n < 0
    ensures ParseScalar(chars, YamlScalar(chars, Num(n))) == Val(Str(Signed(-n)))
  {
    SignedReads(chars, -n);
  }

  /** A sign and digits: nothing to strip, no quotes, no list, no word, and not all digits. */
  lemma SignedIsPlain(n: nat)
    ensures var text := Signed(n);
      && |text| > 1 && text[0] == '-' && Decimal.IsDigit(text[1]) && Strip(text) == text && !Decimal.AllDigits(text)
  {
    var digits, text := Decimal.Show(n), Signed(n);
    assert text[0] == '-' && text[1] == digits[0] && text[|text| - 1] == digits[|digits| - 1];
    assert !IsSpace(text[0]) && !IsSpace(text[|text| - 1]);
    assert LStrip(text) == text && RStrip(text) == text;
    assert !Decimal.IsDigit(text[0]);
  }

  lemma PlainTextReads(chars: Chars, text: string)
    requires |text| > 1 && text[0] == '-' && Decimal.IsDigit(text[1]) && Strip(text) == text && !Decimal.AllDigits(text)
    requires chars.lower(text) == text && !chars.otherDigits(text) && !chars.isFloat(text)
    ensures ParseScalar(chars, text) == Val(Str(text))
  {
  }

  /** An integer is read back as it was written if and only if it is not negative. */
  lemma IntegerReadBackIff(chars: Chars, n: int)
    requires AsciiSensible(chars)
    ensures ParseScalar(chars, YamlScalar(chars, Num(n))) == Val(Num(n)) <==> n >= 0
  {
    if n >= 0 { OtherScalarsRoundTrip(chars, Num(n)); } else { NegativeNumberBecomesText(chars, n); }
  }
}
