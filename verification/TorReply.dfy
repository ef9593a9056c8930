/** Parsing replies of the Tor control port (section 2.1.1 of the Tor control-spec). */
module TorReply {

  /** Length of the longest prefix without a stop character. */
  function Span(s: string, stops: set<char>): (n: nat)
    ensures n <= |s|
    ensures forall i :: 0 <= i < n ==> s[i] !in stops
    ensures n < |s| ==> s[n] in stops
  {
    if s == [] || s[0] in stops then 0 else 1 + Span(s[1..], stops)
  }

  /** Position of the closing quote, or the length of `s` if there is none; `escaped` says whether the first
      character follows a backslash that escapes it. */
  function QuoteSpan(s: string, escaped: bool): (n: nat)
    ensures n <= |s|
    ensures n < |s| ==> s[n] == '"'
  {
    if s == [] || (!escaped && s[0] == '"') then 0
    else 1 + QuoteSpan(s[1..], s[0] == '\\' && !escaped)
  }

  /** Every backslash is followed by the character it escapes. */
  predicate Balanced(v: string) {
    if v == [] then true
    else if v[0] == '\\' then |v| >= 2 && Balanced(v[2..])
    else Balanced(v[1..])
  }

  predicate IsOctal(c: char) {
    '0' <= c <= '7'
  }

  /** How many digits an octal escape at the start of `v` takes: up to three, but two if it begins with 4 to 7. */
  function OctalLen(v: string): (n: nat)
    requires v != [] && IsOctal(v[0])
    ensures 1 <= n <= 3 && n <= |v|
    ensures forall i :: 0 <= i < n ==> IsOctal(v[i])
    ensures n == 3 ==> v[0] <= '3'
    ensures n < 3 && n < |v| && IsOctal(v[n]) ==> n == 2 && v[0] > '3'
  {
    if |v| < 2 || !IsOctal(v[1]) then 1
    else if |v| < 3 || !IsOctal(v[2]) || v[0] > '3' then 2
    else 3
  }

  function Digit(c: char): (r: nat)
    requires IsOctal(c)
    ensures r < 8
  {
    c as int - '0' as int
  }

  function Octal(digits: string): nat
    requires forall i :: 0 <= i < |digits| ==> IsOctal(digits[i])
  {
    if digits == [] then 0
    else 8 * Octal(digits[..|digits| - 1]) + Digit(digits[|digits| - 1])
  }

  /** An octal escape always denotes a byte. */
  lemma {:induction false} OctalIsByte(v: string)
    requires v != [] && IsOctal(v[0])
    ensures Octal(v[..OctalLen(v)]) < 256
  {
    var d := v[..OctalLen(v)];
    assert d[..|d| - 1][..0] == [];
    if |d| == 3 {
      assert d[..2][..1] == d[..1];
      assert Octal(d[..1]) == Digit(d[0]) <= 3;
      assert Octal(d[..2]) == 8 * Octal(d[..1]) + Digit(d[1]);
    } else if |d| == 2 {
      assert Octal(d[..1]) == Digit(d[0]);
    }
  }

  /** The character an escape stands for, given the text after the backslash, and how much of it is used. */
  function Escaped(v: string): (char, nat)
    requires v != []
  {
    if v[0] == 'n' then ('\n', 1)
    else if v[0] == 't' then ('\t', 1)
    else if v[0] == 'r' then ('\r', 1)
    else if IsOctal(v[0]) then
      OctalIsByte(v);
      (Octal(v[..OctalLen(v)]) as char, OctalLen(v))
    else (v[0], 1)
  }

  lemma {:induction false} BalancedAfterEscape(v: string)
    requires v != [] && Balanced(v) && v[0] == '\\'
    ensures Escaped(v[1..]).1 < |v| && Balanced(v[1 + Escaped(v[1..]).1..])
  {
    if IsOctal(v[1]) {
      var n := OctalLen(v[1..]);
      if n >= 2 {
        assert v[2] == v[1..][1] && IsOctal(v[2]);
        assert v[2..][1..] == v[3..];
        assert Balanced(v[3..]);
        if n == 3 {
          assert v[3] == v[1..][2] && IsOctal(v[3]);
          assert v[3..][1..] == v[4..];
        }
      }
    }
  }

  /** The text of a quoted string. */
  function Unescape(v: string): string
    requires Balanced(v)
    decreases |v|
  {
    if v == [] then []
    else if v[0] == '\\' then
      BalancedAfterEscape(v);
      var (c, n) := Escaped(v[1..]);
      [c] + Unescape(v[1 + n..])
    else [v[0]] + Unescape(v[1..])
  }

  /** The scan for the closing quote guarantees what the unescaping relies on. */
  lemma {:induction false} QuotedIsBalanced(s: string)
    requires QuoteSpan(s, false) < |s|
    ensures Balanced(s[..QuoteSpan(s, false)])
    decreases |s|
  {
    var n := QuoteSpan(s, false);
    if n > 0 {
      var v := s[..n];
      if s[0] == '\\' {
        assert |s| >= 2 && n == 2 + QuoteSpan(s[1..][1..], false);
        assert s[1..][1..] == s[2..];
        QuotedIsBalanced(s[2..]);
        assert v[2..] == s[2..][..n - 2];
      } else {
        QuotedIsBalanced(s[1..]);
        assert v[1..] == s[1..][..n - 1];
      }
    }
  }

  function SkipSpace(s: string): string {
    if s != [] && s[0] == ' ' then s[1..] else s
  }

  datatype Parsed = UnexpectedEnd | Parsed(text: string, rest: string)

  /** A quoted value, from after its opening quote. */
  function ParseQuoted(s: string): (r: Parsed)
    ensures r.Parsed? ==> |r.rest| < |s|
  {
    var q := QuoteSpan(s, false);
    if q == |s| then UnexpectedEnd
    else
      QuotedIsBalanced(s);
      Parsed.Parsed(Unescape(s[..q]), s[q + 1..])
  }

  /** A value, from after the equals sign. */
  function ParseValue(s: string): (r: Parsed)
    ensures r.Parsed? ==> |r.rest| <= |s|
  {
    if s != [] && s[0] == '"' then ParseQuoted(s[1..])
    else Parsed.Parsed(s[..Span(s, {' '})], s[Span(s, {' '})..])
  }

  datatype Entry = NoEntry | Entry(key: string, value: string, rest: string)

  /** The first key and value of a line: `key=value`, or a bare keyword standing for itself. */
  function ParseEntry(s: string): (r: Entry)
    requires s != []
    ensures r.Entry? ==> |r.rest| < |s|
  {
    var k := Span(s, {'=', ' '});
    if k == |s| then NoEntry
    else if s[k] == ' ' then Entry.Entry(s[..k], s[..k], s[k + 1..])
    else
      match ParseValue(s[k + 1..])
      case UnexpectedEnd => NoEntry
      case Parsed(value, rest) => Entry.Entry(s[..k], value, SkipSpace(rest))
  }

  /** The mapping parsed from `s` on top of `m`; empty if the line ends unexpectedly. */
  function Parse(s: string, m: map<string, string>): map<string, string>
    decreases |s|
  {
    if s == [] then m
    else match ParseEntry(s)
      case NoEntry => map[]
      case Entry(key, value, rest) => Parse(rest, m[key := value])
  }

  // ----- the loops -----

  lemma {:induction false} SpanAt(s: string, ptr: nat, stops: set<char>)
    requires ptr <= |s|
    ensures Span(s[ptr..], stops) == if ptr == |s| || s[ptr] in stops then 0 else 1 + Span(s[ptr + 1..], stops)
  {
    if ptr < |s| {
      assert s[ptr..][1..] == s[ptr + 1..];
    }
  }

  method ReadUntil(s: string, start: nat, stops: set<char>) returns (text: string, ptr: nat)
    requires start <= |s|
    ensures ptr == start + Span(s[start..], stops) && text == s[start..ptr]
  {
    hide Span;
    text, ptr := [], start;
    SpanAt(s, ptr, stops);
    while ptr < |s| && s[ptr] !in stops
      invariant start <= ptr <= |s| && text == s[start..ptr]
      invariant start + Span(s[start..], stops) == ptr + Span(s[ptr..], stops)
      invariant ptr == |s| || s[ptr] in stops ==> Span(s[ptr..], stops) == 0
    {
      SpanAt(s, ptr, stops);
      SpanAt(s, ptr + 1, stops);
      text := text + [s[ptr]];
      ptr := ptr + 1;
    }
  }

  lemma {:induction false} QuoteSpanAt(s: string, ptr: nat, escapeNext: bool)
    requires ptr <= |s|
    ensures QuoteSpan(s[ptr..], escapeNext)
         == if ptr == |s| || (!escapeNext && s[ptr] == '"') then 0
            else 1 + QuoteSpan(s[ptr + 1..], s[ptr] == '\\' && !escapeNext)
  {
    if ptr < |s| {
      assert s[ptr..][1..] == s[ptr + 1..];
    }
  }

  method ReadQuoted(s: string, start: nat) returns (value: string, ptr: nat)
    requires start <= |s|
    ensures ptr == start + QuoteSpan(s[start..], false) && value == s[start..ptr]
  {
    hide QuoteSpan;
    value, ptr := [], start;
    var escapeNext := false;
    QuoteSpanAt(s, ptr, false);
    while ptr < |s| && (escapeNext || s[ptr] != '"')
      invariant start <= ptr <= |s| && value == s[start..ptr]
      invariant start + QuoteSpan(s[start..], false) == ptr + QuoteSpan(s[ptr..], escapeNext)
      invariant ptr == |s| || (!escapeNext && s[ptr] == '"') ==> QuoteSpan(s[ptr..], escapeNext) == 0
    {
      QuoteSpanAt(s, ptr, escapeNext);
      QuoteSpanAt(s, ptr + 1, s[ptr] == '\\' && !escapeNext);
      escapeNext := s[ptr] == '\\' && !escapeNext;
      value := value + [s[ptr]];
      ptr := ptr + 1;
    }
  }

  /** The escape after a backslash: `i` is the position after it. */
  method ReadEscape(value: string, i: nat) returns (c: char, j: nat)
    requires i < |value|
    ensures (c, j) == Escaped(value[i..])
  {
    ghost var rest := value[i..];
    c, j := value[i], 1;
    if c == 'n' {
      c := '\n';
    } else if c == 't' {
      c := '\t';
    } else if c == 'r' {
      c := '\r';
    } else if '0' <= c <= '7' {
      while j < 3 && i + j < |value| && '0' <= value[i + j] <= '7'
        invariant 1 <= j <= 3 && i + j <= |value|
        invariant forall k :: 0 <= k < j ==> IsOctal(rest[k])
      {
        assert rest[j] == value[i + j];
        j := j + 1;
      }
      assert j < 3 && i + j < |value| ==> rest[j] == value[i + j];
      if j == 3 && c > '3' {
        j := j - 1;
      }
      assert j == OctalLen(rest);
      OctalIsByte(rest);
      assert value[i..i + j] == rest[..j];
      c := Octal(value[i..i + j]) as char;
    }
  }

  lemma {:induction false} EscapeStep(v: string)
    requires Balanced(v) && v != [] && v[0] == '\\'
    ensures |v| >= 2
    ensures var (c, n) := Escaped(v[1..]);
            1 + n <= |v| && Balanced(v[1 + n..]) && Unescape(v) == [c] + Unescape(v[1 + n..])
  {
    BalancedAfterEscape(v);
  }

  lemma {:induction false} PlainStep(v: string)
    requires Balanced(v) && v != [] && v[0] != '\\'
    ensures Balanced(v[1..]) && Unescape(v) == [v[0]] + Unescape(v[1..])
  {
  }

  /** The unescape loop; every index it reads is within `value`. */
  method UnescapeValue(value: string) returns (r: string)
    requires Balanced(value)
    ensures r == Unescape(value)
  {
    hide Escaped, Balanced, Unescape;
    r := [];
    var i: nat := 0;
    assert value[0..] == value;
    while i < |value|
      invariant i <= |value| && Balanced(value[i..])
      invariant r + Unescape(value[i..]) == Unescape(value)
    {
      ghost var rest := value[i..];
      if value[i] == '\\' {
        EscapeStep(rest);
        assert rest[1..] == value[i + 1..];
        var c, j := ReadEscape(value, i + 1);
        assert rest[1 + j..] == value[i + 1 + j..];
        r := r + [c];
        i := i + 1 + j;
      } else {
        PlainStep(rest);
        assert rest[1..] == value[i + 1..];
        r := r + [value[i]];
        i := i + 1;
      }
    }
    NothingToUnescape(value[i..]);
  }

  lemma {:induction false} NothingToUnescape(v: string)
    requires v == []
    ensures Balanced(v) && Unescape(v) == []
  {
  }

  lemma {:induction false} SuffixParts(s: string, a: nat, b: nat)
    requires a <= b <= |s|
    ensures s[a..][..b - a] == s[a..b] && s[a..][b - a..] == s[b..]
  {
  }

  /** What lies between the quotes, when the closing quote is at `ptr`. */
  lemma {:induction false} QuotedParts(s: string, start: nat, ptr: nat)
    requires start <= |s| && ptr == start + QuoteSpan(s[start..], false) < |s|
    ensures Balanced(s[start..ptr])
    ensures ParseQuoted(s[start..]) == Parsed.Parsed(Unescape(s[start..ptr]), s[ptr + 1..])
  {
    hide Unescape, Balanced;
    SuffixParts(s, start, ptr);
    SuffixParts(s, start, ptr + 1);
    QuotedIsBalanced(s[start..]);
  }

  /** Reads the value after the opening quote. */
  method ReadQuotedValue(s: string, start: nat) returns (ok: bool, value: string, ptr: nat)
    requires start <= |s|
    ensures ptr <= |s|
    ensures ParseQuoted(s[start..]) == if ok then Parsed.Parsed(value, s[ptr..]) else UnexpectedEnd
  {
    value, ptr := ReadQuoted(s, start);
    if ptr == |s| {
      return false, value, ptr;
    }
    QuotedParts(s, start, ptr);
    hide Unescape, Balanced, ParseQuoted, QuoteSpan;
    value := UnescapeValue(value);
    return true, value, ptr + 1;
  }

  lemma {:induction false} QuotedStart(s: string, start: nat)
    requires start < |s| && s[start] == '"'
    ensures ParseValue(s[start..]) == ParseQuoted(s[start + 1..])
  {
    hide ParseQuoted, Span;
    SuffixParts(s, start, start + 1);
  }

  lemma {:induction false} PlainParts(s: string, start: nat, ptr: nat)
    requires start <= |s| && (start < |s| ==> s[start] != '"')
    requires ptr == start + Span(s[start..], {' '})
    ensures ParseValue(s[start..]) == Parsed.Parsed(s[start..ptr], s[ptr..])
  {
    hide ParseQuoted, Span;
    SuffixParts(s, start, ptr);
  }

  /** Reads the value that starts at `start`. */
  method ReadValue(s: string, start: nat) returns (ok: bool, value: string, ptr: nat)
    requires start <= |s|
    ensures ptr <= |s|
    ensures ParseValue(s[start..]) == if ok then Parsed.Parsed(value, s[ptr..]) else UnexpectedEnd
  {
    hide ParseValue, ParseQuoted, Span;
    if start < |s| && s[start] == '"' {
      QuotedStart(s, start);
      ok, value, ptr := ReadQuotedValue(s, start + 1);
    } else {
      value, ptr := ReadUntil(s, start, {' '});
      PlainParts(s, start, ptr);
      ok := true;
    }
  }

  /** Reads one `key=value` or keyword that starts at `start`, and a space after it. */
  method ReadEntry(s: string, start: nat) returns (ok: bool, key: string, value: string, ptr: nat)
    requires start < |s|
    ensures ptr <= |s|
    ensures ParseEntry(s[start..]) == if ok then Entry.Entry(key, value, s[ptr..]) else NoEntry
  {
    hide ParseValue;
    ghost var rest := s[start..];
    key, ptr := ReadUntil(s, start, {'=', ' '});
    assert key == rest[..ptr - start];
    if ptr == |s| {
      return false, key, [], ptr;
    }
    assert s[ptr] == rest[ptr - start] && s[ptr + 1..] == rest[ptr - start + 1..];
    if s[ptr] == ' ' {
      return true, key, key, ptr + 1;
    }
    ok, value, ptr := ReadValue(s, ptr + 1);
    ghost var after := s[ptr..];
    if ptr < |s| && s[ptr] == ' ' {
      ptr := ptr + 1;
    }
    assert s[ptr..] == SkipSpace(after);
  }

  /** `parse_tor_reply_mapping` */
  method ParseTorReplyMapping(s: string) returns (mapping: map<string, string>)
    ensures mapping == Parse(s, map[])
  {
    hide ParseEntry;
    mapping := map[];
    var ptr: nat := 0;
    assert s[0..] == s;
    while ptr < |s|
      invariant ptr <= |s| && Parse(s[ptr..], mapping) == Parse(s, map[])
      decreases |s| - ptr
    {
      var ok, key, value, next := ReadEntry(s, ptr);
      if !ok {
        return map[];
      }
      mapping := mapping[key := value];
      ptr := next;
    }
  }

  /** `split_tor_reply_line`: the reply type and the rest of the line. */
  method SplitTorReplyLine(s: string) returns (kind: string, rest: string)
    ensures ' ' !in kind
    ensures s == kind + (if |kind| < |s| then " " else "") + rest
  {
    var ptr: nat;
    kind, ptr := ReadUntil(s, 0, {' '});
    assert s[0..] == s;
    if ptr < |s| {
      ptr := ptr + 1;
    }
    rest := s[ptr..];
  }

  // ----- what each escape means -----

  /** A backslash with what it escapes, followed by `rest`, reads as the character `c` followed by the rest. */
  ghost predicate ReadsAs(escape: string, c: char, rest: string) {
    var v := ['\\'] + escape + rest;
    Balanced(v) && Balanced(rest) && Unescape(v) == [c] + Unescape(rest)
  }

  lemma {:induction false} ReadEscaped(escape: string, rest: string, c: char)
    requires escape != [] && Balanced(['\\'] + escape + rest) && Escaped(escape + rest) == (c, |escape|)
    ensures ReadsAs(escape, c, rest)
  {
    var v := ['\\'] + escape + rest;
    assert v[1..] == escape + rest && v[1 + |escape|..] == rest;
    BalancedAfterEscape(v);
  }

  /** Letters and other characters: `n`, `t` and `r` are control characters, the rest stand for themselves. */
  lemma {:induction false} LetterEscapes(c: char, rest: string)
    requires Balanced(rest) && !IsOctal(c)
    ensures ReadsAs([c], if c == 'n' then '\n' else if c == 't' then '\t' else if c == 'r' then '\r' else c, rest)
  {
    var v := ['\\'] + [c] + rest;
    assert v[2..] == rest;
    ReadEscaped([c], rest, if c == 'n' then '\n' else if c == 't' then '\t' else if c == 'r' then '\r' else c);
  }

  /** The value of one to three octal digits. */
  function OctalValue(digits: string): nat
    requires 1 <= |digits| <= 3 && forall i :: 0 <= i < |digits| ==> IsOctal(digits[i])
  {
    match |digits|
    case 1 => Digit(digits[0])
    case 2 => 8 * Digit(digits[0]) + Digit(digits[1])
    case _ => 64 * Digit(digits[0]) + 8 * Digit(digits[1]) + Digit(digits[2])
  }

  lemma {:induction false} OctalIsValue(digits: string)
    requires 1 <= |digits| <= 3 && forall i :: 0 <= i < |digits| ==> IsOctal(digits[i])
    ensures Octal(digits) == OctalValue(digits)
  {
    assert digits[..1][..0] == [];
    assert Octal(digits[..1]) == Digit(digits[0]);
    if |digits| >= 2 {
      assert digits[..2][..1] == digits[..1];
      assert Octal(digits[..2]) == 8 * Octal(digits[..1]) + Digit(digits[1]);
    }
    assert digits[..|digits|] == digits;
  }

  /** Digits that are read together: as many as there are, up to three, but only two after a leading 4 to 7. */
  ghost predicate ReadTogether(digits: string, rest: string) {
    && 1 <= |digits| <= 3 && (forall i :: 0 <= i < |digits| ==> IsOctal(digits[i]))
    && (|digits| == 3 ==> digits[0] <= '3')
    && (rest != [] && IsOctal(rest[0]) ==> |digits| == 3 || (|digits| == 2 && digits[0] > '3'))
  }

  lemma {:induction false} DigitsBalance(digits: string, rest: string)
    requires Balanced(rest) && forall i :: 0 <= i < |digits| ==> IsOctal(digits[i])
    ensures Balanced(digits + rest)
  {
    if digits == [] {
      assert digits + rest == rest;
    } else {
      assert (digits + rest)[1..] == digits[1..] + rest;
      DigitsBalance(digits[1..], rest);
    }
  }

  lemma {:induction false} OctalEscapes(digits: string, rest: string)
    requires Balanced(rest) && ReadTogether(digits, rest)
    ensures OctalValue(digits) < 256 && ReadsAs(digits, OctalValue(digits) as char, rest)
  {
    OctalEscaped(digits, rest);
    hide Escaped, OctalValue;
    var v := ['\\'] + digits + rest;
    assert v[2..] == digits[1..] + rest;
    DigitsBalance(digits[1..], rest);
    ReadEscaped(digits, rest, OctalValue(digits) as char);
  }

  lemma {:induction false} OctalEscaped(digits: string, rest: string)
    requires ReadTogether(digits, rest)
    ensures OctalValue(digits) < 256 && Escaped(digits + rest) == (OctalValue(digits) as char, |digits|)
  {
    var all := digits + rest;
    assert all[0] == digits[0];
    assert OctalLen(all) == |digits|;
    assert all[..|digits|] == digits;
    OctalIsValue(digits);
    OctalIsByte(all);
    hide Octal, OctalValue, OctalLen;
  }

  // ----- what was written is what is read -----

  /** A value with backslash and quote escaped. */
  function Escape(v: string): string {
    if v == [] then []
    else (if v[0] == '\\' || v[0] == '"' then ['\\', v[0]] else [v[0]]) + Escape(v[1..])
  }

  lemma {:induction false} UnescapeEscape(v: string)
    ensures Balanced(Escape(v)) && Unescape(Escape(v)) == v
  {
    if v != [] {
      UnescapeEscape(v[1..]);
      var e := Escape(v);
      if v[0] == '\\' || v[0] == '"' {
        assert e[2..] == Escape(v[1..]);
        assert e[1..][0] == v[0] && !IsOctal(v[0]);
        assert Escaped(e[1..]) == (v[0], 1);
      } else {
        assert e[1..] == Escape(v[1..]);
      }
    }
  }

  /** The scan stops at the quote that follows an escaped value. */
  lemma {:induction false} ScanStopsAfter(v: string, rest: string)
    ensures QuoteSpan(Escape(v) + ['"'] + rest, false) == |Escape(v)|
  {
    var s := Escape(v) + ['"'] + rest;
    if v != [] {
      ScanStopsAfter(v[1..], rest);
      var t := Escape(v[1..]) + ['"'] + rest;
      if v[0] == '\\' || v[0] == '"' {
        assert s[1..][1..] == t;
      } else {
        assert s[1..] == t;
      }
    }
  }

  /** One part of a reply line as Tor writes it. */
  datatype Item = Quoted(key: string, value: string) | Plain(key: string, value: string) | Keyword(key: string)

  predicate Free(s: string, stops: set<char>) {
    forall i :: 0 <= i < |s| ==> s[i] !in stops
  }

  predicate Writable(item: Item) {
    && Free(item.key, {'=', ' '})
    && (item.Plain? ==> Free(item.value, {' '}) && (item.value != [] ==> item.value[0] != '"'))
    && (item.Keyword? ==> item.key != [])
  }

  /** What follows the equals sign. */
  function WriteValue(item: Item): string
    requires !item.Keyword?
  {
    if item.Quoted? then ['"'] + Escape(item.value) + ['"'] else item.value
  }

  function Write(item: Item): string {
    if item.Keyword? then item.key else item.key + (['='] + WriteValue(item))
  }

  function ValueOf(item: Item): string {
    if item.Keyword? then item.key else item.value
  }

  function WriteLine(items: seq<Item>): string {
    if items == [] then []
    else if |items| == 1 then Write(items[0])
    else Write(items[0]) + [' '] + WriteLine(items[1..])
  }

  function MapOf(items: seq<Item>, m: map<string, string>): map<string, string> {
    if items == [] then m else MapOf(items[1..], m[items[0].key := ValueOf(items[0])])
  }

  lemma {:induction false} SpanOf(s: string, rest: string, stops: set<char>)
    requires Free(s, stops) && (rest != [] ==> rest[0] in stops)
    ensures Span(s + rest, stops) == |s|
  {
    assert forall i :: 0 <= i < |s| ==> (s + rest)[i] == s[i];
    if rest != [] {
      assert (s + rest)[|s|] == rest[0];
    }
  }

  lemma {:induction false} QuotedIsReadBack(v: string, rest: string)
    ensures ParseQuoted(Escape(v) + ['"'] + rest) == Parsed.Parsed(v, rest)
  {
    var body := Escape(v) + ['"'] + rest;
    ScanStopsAfter(v, rest);
    UnescapeEscape(v);
    assert body[..|Escape(v)|] == Escape(v);
    assert body[|Escape(v)| + 1..] == rest;
  }

  /** A value followed by a space and more, or by nothing, is read back as written. */
  lemma {:induction false} ValueIsReadBack(item: Item, rest: string)
    requires Writable(item) && !item.Keyword? && (rest != [] ==> rest[0] == ' ')
    ensures ParseValue(WriteValue(item) + rest) == Parsed.Parsed(item.value, rest)
  {
    hide ParseQuoted, Escape;
    if item.Quoted? {
      QuotedIsReadBack(item.value, rest);
      assert (WriteValue(item) + rest)[1..] == Escape(item.value) + ['"'] + rest;
    } else {
      SpanOf(item.value, rest, {' '});
      assert (item.value + rest)[..|item.value|] == item.value;
      assert (item.value + rest)[|item.value|..] == rest;
    }
  }

  lemma {:induction false} WriteIsKeyAndValue(item: Item, rest: string)
    requires !item.Keyword?
    ensures Write(item) + rest == item.key + (['='] + (WriteValue(item) + rest))
  {
    hide WriteValue;
  }

  lemma {:induction false} KeyIsReadBack(key: string, t: string)
    requires Free(key, {'=', ' '})
    ensures var s := key + (['='] + t);
            Span(s, {'=', ' '}) == |key| < |s| && s[..|key|] == key && s[|key|] == '=' && s[|key| + 1..] == t
  {
    SpanOf(key, ['='] + t, {'=', ' '});
  }

  lemma {:induction false} KeywordIsReadBack(key: string, rest: string)
    requires Free(key, {'=', ' '}) && rest != [] && rest[0] == ' '
    ensures ParseEntry(key + rest) == Entry.Entry(key, key, rest[1..])
  {
    SpanOf(key, rest, {'=', ' '});
    assert (key + rest)[..|key|] == key && (key + rest)[|key| + 1..] == rest[1..];
  }

  lemma {:induction false} EntryIsReadBack(item: Item, rest: string)
    requires Writable(item) && (rest != [] ==> rest[0] == ' ')
    requires item.Keyword? ==> rest != []
    ensures Write(item) + rest != []
    ensures ParseEntry(Write(item) + rest) == Entry.Entry(item.key, ValueOf(item), SkipSpace(rest))
  {
    hide ParseValue, Escape, Span, WriteValue;
    if item.Keyword? {
      KeywordIsReadBack(item.key, rest);
    } else {
      WriteIsKeyAndValue(item, rest);
      KeyIsReadBack(item.key, WriteValue(item) + rest);
      ValueIsReadBack(item, rest);
    }
  }

  /** Parsing takes off the first item and goes on with the rest. */
  lemma {:induction false} ParseOne(item: Item, rest: string, m: map<string, string>)
    requires Writable(item) && (rest != [] ==> rest[0] == ' ')
    requires item.Keyword? ==> rest != []
    ensures Parse(Write(item) + rest, m) == Parse(SkipSpace(rest), m[item.key := ValueOf(item)])
  {
    EntryIsReadBack(item, rest);
    hide ParseEntry, Write, Writable, SkipSpace;
  }

  lemma {:induction false} LastItem(item: Item, m: map<string, string>)
    requires Writable(item)
    ensures Parse(Write(item), m) == if item.Keyword? then map[] else m[item.key := ValueOf(item)]
  {
    if item.Keyword? {
      LastKeyword(item);
    } else {
      ParseOne(item, [], m);
      assert Write(item) + [] == Write(item);
    }
    hide ParseEntry, Write, Writable;
  }

  lemma {:induction false} WriteFirst(items: seq<Item>)
    requires |items| > 1
    ensures WriteLine(items) == Write(items[0]) + ([' '] + WriteLine(items[1..]))
    ensures SkipSpace([' '] + WriteLine(items[1..])) == WriteLine(items[1..])
  {
    hide Write;
    assert Write(items[0]) + [' '] + WriteLine(items[1..]) == Write(items[0]) + ([' '] + WriteLine(items[1..]));
  }

  /** Round trip: every line of items is parsed back into its mapping, unless its last item is a keyword,
      in which case nothing is left of the line. */
  lemma {:induction false} LineIsReadBack(items: seq<Item>, m: map<string, string>)
    requires items != [] && forall i :: 0 <= i < |items| ==> Writable(items[i])
    ensures Parse(WriteLine(items), m) == if items[|items| - 1].Keyword? then map[] else MapOf(items, m)
  {
    hide Parse, Write, Writable, SkipSpace;
    var item := items[0];
    var m' := m[item.key := ValueOf(item)];
    assert MapOf(items, m) == MapOf(items[1..], m');
    if |items| == 1 {
      LastItem(item, m);
      assert items[1..] == [];
    } else {
      WriteFirst(items);
      ParseOne(item, [' '] + WriteLine(items[1..]), m);
      LineIsReadBack(items[1..], m');
    }
  }

  lemma {:induction false} LastKeyword(item: Item)
    requires Writable(item) && item.Keyword?
    ensures Write(item) != [] && ParseEntry(Write(item)) == NoEntry
  {
    SpanOf(item.key, [], {'=', ' '});
    assert item.key + [] == item.key;
  }
}
