/** The JSON text Python's `json.dumps` produces with its default settings
    (`ensure_ascii=True`, separators `", "` and `": "`, keys in insertion
    order), for the kinds of values a measurement can carry, together with
    a decoder that reads such text back. The decoder exists to prove that
    the encoding loses nothing: equal texts come from equal values. */
module Json {
  import opened Wrappers
  import opened Digits
  import opened Seqs

  /** A Python value as `json.dumps` sees it. Dictionary keys are strings
      and appear in insertion order. */
  datatype Value =
    | Null
    | Bool(b: bool)
    | Int(i: int)
    | Str(s: string)
    | List(elems: seq<Value>)
    | Dict(entries: seq<(string, Value)>)

  // ---------------------------------------------------------------------
  // Encoding
  // ---------------------------------------------------------------------

  /** A lower-case hexadecimal digit. */
  function HexChar(d: nat): char
    requires d < 16
  {
    if d < 10 then DigitChar(d) else ('a' as int + d - 10) as char
  }

  /** Four lower-case hexadecimal digits, most significant first. */
  function Hex4(n: nat): (h: string)
    requires n < 0x1_0000
    ensures |h| == 4
  {
    var hi, lo := n / 256, n % 256;
    [HexChar(hi / 16), HexChar(hi % 16), HexChar(lo / 16), HexChar(lo % 16)]
  }

  /** `\uXXXX` for one UTF-16 code unit. */
  function UnitEscape(n: nat): (e: string)
    requires n < 0x1_0000
    ensures |e| == 6
  {
    "\\u" + Hex4(n)
  }

  /** How one character of a string is written between the quotes: the
      printable ASCII range U+0020..U+007E stands for itself except `"` and
      `\`, the usual short escapes are used where they exist, and every
      other character becomes `\uXXXX`, as a surrogate pair above U+FFFF. */
  function EscapeChar(c: char): (e: string)
    ensures |e| > 0 && e[0] != '"'
  {
    if c == '"' then "\\\""
    else if c == '\\' then "\\\\"
    else if c == '\n' then "\\n"
    else if c == '\r' then "\\r"
    else if c == '\t' then "\\t"
    else if c as int == 8 then "\\b"
    else if c as int == 12 then "\\f"
    else if ' ' <= c <= '~' then [c]
    else if c as int < 0x1_0000 then UnitEscape(c as int)
    else
      var n := c as int - 0x1_0000;
      UnitEscape(0xD800 + n / 1024) + UnitEscape(0xDC00 + n % 1024)
  }

  function Escape(s: string): string
  {
    if |s| == 0 then "" else EscapeChar(s[0]) + Escape(s[1..])
  }

  /** A JSON string literal. */
  function Quote(s: string): string
  {
    "\"" + Escape(s) + "\""
  }

  /** `str(i)` for any integer. */
  function IntText(i: int): string
  {
    if i < 0 then "-" + NatText(-i) else NatText(i)
  }

  /** The characters a JSON value written by `Dumps` can begin with. */
  predicate StartsValue(c: char)
  {
    c == 'n' || c == 't' || c == 'f' || c == '"' || c == '[' || c == '{' || c == '-' || IsDigit(c)
  }

  /** `json.dumps(v)`. */
  function Dumps(v: Value): (t: string)
    ensures |t| > 0 && StartsValue(t[0])
    decreases v
  {
    match v
    case Null => "null"
    case Bool(b) => if b then "true" else "false"
    case Int(i) => IntText(i)
    case Str(s) => Quote(s)
    case List(xs) => "[" + DumpsElems(xs) + "]"
    case Dict(es) => "{" + DumpsEntries(es) + "}"
  }

  /** List elements separated by `", "`. */
  function DumpsElems(xs: seq<Value>): string
    decreases xs
  {
    if |xs| == 0 then ""
    else if |xs| == 1 then Dumps(xs[0])
    else Dumps(xs[0]) + ", " + DumpsElems(xs[1..])
  }

  /** Dictionary entries `"key": value` separated by `", "`. */
  function DumpsEntries(es: seq<(string, Value)>): string
    decreases es
  {
    if |es| == 0 then ""
    else
      var (k, v) := es[0];
      assert es[0] in es && v < es[0];
      var entry := Quote(k) + ": " + Dumps(v);
      if |es| == 1 then entry else entry + ", " + DumpsEntries(es[1..])
  }

  // ---------------------------------------------------------------------
  // Decoding
  // ---------------------------------------------------------------------

  function HexValue(c: char): Option<nat>
  {
    if IsDigit(c) then Some(DigitValue(c))
    else if 'a' <= c <= 'f' then Some(c as int - 'a' as int + 10)
    else if 'A' <= c <= 'F' then Some(c as int - 'A' as int + 10)
    else None
  }

  /** Four hexadecimal digits at the start of `t`. */
  function ParseHex4(t: string): (r: Option<nat>)
    ensures r.Some? ==> |t| >= 4 && r.value < 0x1_0000
  {
    if |t| < 4 then None
    else
      match (HexValue(t[0]), HexValue(t[1]), HexValue(t[2]), HexValue(t[3]))
      case (Some(a), Some(b), Some(c), Some(d)) =>
        if a < 16 && b < 16 && c < 16 && d < 16 then Some(4096 * a + 256 * b + 16 * c + d) else None
      case _ => None
  }

  /** The character a two-character escape `\e` stands for. */
  function ShortEscape(e: char): Option<char>
  {
    if e == '"' then Some('"')
    else if e == '\\' then Some('\\')
    else if e == '/' then Some('/')
    else if e == 'n' then Some('\n')
    else if e == 'r' then Some('\r')
    else if e == 't' then Some('\t')
    else if e == 'b' then Some(8 as char)
    else if e == 'f' then Some(12 as char)
    else None
  }

  /** The character a `\uXXXX` escape stands for, reading a second escape
      when the first is a high surrogate; `t` starts after the `\u`. */
  function ParseUnitEscape(t: string): (r: Option<(char, string)>)
    ensures r.Some? ==> |r.value.1| + 4 <= |t|
  {
    match ParseHex4(t)
    case None => None
    case Some(h) =>
      if h < 0xD800 || 0xE000 <= h then Some((h as char, t[4..]))
      else if 0xDC00 <= h then None
      else if |t| < 6 || t[4] != '\\' || t[5] != 'u' then None
      else
        match ParseHex4(t[6..])
        case None => None
        case Some(l) =>
          if 0xDC00 <= l < 0xE000 then
            Some(((0x1_0000 + (h - 0xD800) * 1024 + (l - 0xDC00)) as char, t[10..]))
          else None
  }

  /** One character of a string body (not its closing quote), with what
      follows it. */
  function ParseChar(t: string): (r: Option<(char, string)>)
    ensures r.Some? ==> |r.value.1| < |t|
  {
    if |t| == 0 then None
    else if t[0] != '\\' then Some((t[0], t[1..]))
    else if |t| < 2 then None
    else if t[1] == 'u' then ParseUnitEscape(t[2..])
    else
      match ShortEscape(t[1])
      case None => None
      case Some(c) => Some((c, t[2..]))
  }

  /** The characters of a string literal up to its closing quote, with what
      follows the quote. */
  function ParseStringBody(t: string): (r: Option<(string, string)>)
    ensures r.Some? ==> |r.value.1| < |t|
    decreases |t|
  {
    if |t| == 0 then None
    else if t[0] == '"' then Some(([], t[1..]))
    else
      match ParseChar(t)
      case None => None
      case Some((c, t')) =>
        match ParseStringBody(t')
        case None => None
        case Some((s, rest)) => Some(([c] + s, rest))
  }

  function ParseString(t: string): (r: Option<(string, string)>)
    ensures r.Some? ==> |r.value.1| < |t|
  {
    if |t| == 0 || t[0] != '"' then None else ParseStringBody(t[1..])
  }

  /** An optionally negative decimal integer. */
  function ParseInt(t: string): (r: Option<(int, string)>)
    ensures r.Some? ==> |r.value.1| < |t|
  {
    if |t| > 0 && t[0] == '-' then
      match ParseDigits(t, 1)
      case None => None
      case Some((n, rest)) => Some((-(n as int), rest))
    else
      match ParseDigits(t, 0)
      case None => None
      case Some((n, rest)) => Some((n, rest))
  }

  /** The greedy run of digits at position `j` of `t`, read as a number,
      and what follows it. */
  function ParseDigits(t: string, j: nat): (r: Option<(nat, string)>)
    requires j <= |t|
    ensures r.Some? ==> |r.value.1| < |t| - j
  {
    var k := RunLength(t, j);
    if k == 0 then None else Some((DecimalValue(t[j..j + k]), t[j + k..]))
  }

  /** `t` starts with `c`. */
  predicate Mark(t: string, c: char)
  {
    |t| > 0 && t[0] == c
  }

  /** `t` starts with `c` and a space: the separators `", "` and `": "`. */
  predicate Sep(t: string, c: char)
  {
    |t| > 1 && t[0] == c && t[1] == ' '
  }

  function ParseNumber(t: string): (r: Option<(Value, string)>)
    ensures r.Some? ==> |r.value.1| < |t|
  {
    match ParseInt(t)
    case None => None
    case Some((i, rest)) => Some((Int(i), rest))
  }

  /** A literal word standing for `v`. */
  function ParseWord(t: string, w: string, v: Value): (r: Option<(Value, string)>)
    requires |w| > 0
    ensures r.Some? ==> |r.value.1| < |t|
  {
    if PrefixAt(t, 0, w) then Some((v, t[|w|..])) else None
  }

  /** One JSON value at the start of `t`, with what follows it. */
  function ParseValue(t: string): (r: Option<(Value, string)>)
    ensures r.Some? ==> |r.value.1| < |t|
    decreases |t|, 2
  {
    if |t| == 0 then None
    else if t[0] == 'n' then ParseWord(t, "null", Null)
    else if t[0] == 't' then ParseWord(t, "true", Bool(true))
    else if t[0] == 'f' then ParseWord(t, "false", Bool(false))
    else if t[0] == '"' then
      match ParseString(t)
      case None => None
      case Some((s, rest)) => Some((Str(s), rest))
    else if t[0] == '[' then ParseList(t)
    else if t[0] == '{' then ParseDict(t)
    else ParseNumber(t)
  }

  /** A list, `t` starting at its `[`. */
  function ParseList(t: string): (r: Option<(Value, string)>)
    requires |t| > 0
    ensures r.Some? ==> |r.value.1| < |t|
    decreases |t|, 1
  {
    if 1 < |t| && t[1] == ']' then Some((List([]), t[2..]))
    else
      match ParseElems(t[1..])
      case None => None
      case Some((xs, rest)) => Some((List(xs), rest))
  }

  /** A dictionary, `t` starting at its `{`. */
  function ParseDict(t: string): (r: Option<(Value, string)>)
    requires |t| > 0
    ensures r.Some? ==> |r.value.1| < |t|
    decreases |t|, 1
  {
    if 1 < |t| && t[1] == '}' then Some((Dict([]), t[2..]))
    else
      match ParseEntries(t[1..])
      case None => None
      case Some((es, rest)) => Some((Dict(es), rest))
  }

  /** List elements up to and including the closing `]`. */
  function ParseElems(t: string): (r: Option<(seq<Value>, string)>)
    ensures r.Some? ==> |r.value.1| < |t|
    decreases |t|, 3
  {
    match ParseValue(t)
    case None => None
    case Some((v, t')) => ElemsAfter(v, t')
  }

  /** The elements from `v` on, once `v` has been read and `t` follows it. */
  function ElemsAfter(v: Value, t: string): (r: Option<(seq<Value>, string)>)
    ensures r.Some? ==> |r.value.1| < |t|
    decreases |t|, 4
  {
    if Mark(t, ']') then Some(([v], t[1..]))
    else if Sep(t, ',') then
      match ParseElems(t[2..])
      case None => None
      case Some((vs, rest)) => Some(([v] + vs, rest))
    else None
  }

  /** Dictionary entries up to and including the closing `}`. */
  function ParseEntries(t: string): (r: Option<(seq<(string, Value)>, string)>)
    ensures r.Some? ==> |r.value.1| < |t|
    decreases |t|, 3
  {
    match ParseString(t)
    case None => None
    case Some((k, t1)) =>
      if !Sep(t1, ':') then None
      else
        match ParseValue(t1[2..])
        case None => None
        case Some((v, t')) => EntriesAfter(k, v, t')
  }

  /** The entries from `k: v` on, once it has been read and `t` follows it. */
  function EntriesAfter(k: string, v: Value, t: string): (r: Option<(seq<(string, Value)>, string)>)
    ensures r.Some? ==> |r.value.1| < |t|
    decreases |t|, 4
  {
    if Mark(t, '}') then Some(([(k, v)], t[1..]))
    else if Sep(t, ',') then
      match ParseEntries(t[2..])
      case None => None
      case Some((es, rest)) => Some(([(k, v)] + es, rest))
    else None
  }

  /** A whole JSON document: one value and nothing after it. */
  function Decode(t: string): Option<Value>
  {
    match ParseValue(t)
    case Some((v, rest)) => if |rest| == 0 then Some(v) else None
    case None => None
  }

  // ---------------------------------------------------------------------
  // Round trip: the decoder reads back exactly what the encoder wrote
  // ---------------------------------------------------------------------

  lemma HexValueOfHexChar(d: nat)
    requires d < 16
    ensures HexValue(HexChar(d)) == Some(d)
  {
  }

  lemma Hex4RoundTrip(n: nat, tail: string)
    requires n < 0x1_0000
    ensures ParseHex4(Hex4(n) + tail) == Some(n)
  {
    var t := Hex4(n) + tail;
    var hi, lo := n / 256, n % 256;
    assert t[0] == HexChar(hi / 16) && t[1] == HexChar(hi % 16);
    assert t[2] == HexChar(lo / 16) && t[3] == HexChar(lo % 16);
    HexValueOfHexChar(hi / 16);
    HexValueOfHexChar(hi % 16);
    HexValueOfHexChar(lo / 16);
    HexValueOfHexChar(lo % 16);
    assert n == 256 * hi + lo;
    assert hi == 16 * (hi / 16) + hi % 16;
    assert lo == 16 * (lo / 16) + lo % 16;
  }

  lemma UnitEscapeRoundTrip(n: nat, tail: string)
    requires n < 0x1_0000
    ensures var t := UnitEscape(n) + tail;
      t[..2] == "\\u" && ParseHex4(t[2..]) == Some(n) && t[6..] == tail
  {
    var t := UnitEscape(n) + tail;
    assert t[2..] == Hex4(n) + tail;
    Hex4RoundTrip(n, tail);
  }

  lemma BmpRoundTrip(c: char, tail: string)
    requires c as int < 0x1_0000
    ensures ParseUnitEscape(Hex4(c as int) + tail) == Some((c, tail))
  {
    var t := Hex4(c as int) + tail;
    Hex4RoundTrip(c as int, tail);
    assert t[4..] == tail;
  }

  lemma AstralRoundTrip(c: char, h: nat, l: nat, tail: string)
    requires 0x1_0000 <= c as int
    requires h == 0xD800 + (c as int - 0x1_0000) / 1024 && l == 0xDC00 + (c as int - 0x1_0000) % 1024
    ensures h < 0x1_0000 && l < 0x1_0000
    ensures ParseUnitEscape(Hex4(h) + UnitEscape(l) + tail) == Some((c, tail))
  {
    var t := Hex4(h) + UnitEscape(l) + tail;
    Hex4RoundTrip(h, UnitEscape(l) + tail);
    assert t[4..] == UnitEscape(l) + tail;
    UnitEscapeRoundTrip(l, tail);
    assert t[4..][2..] == t[6..];
    assert t[4..][6..] == t[10..];
    assert 0x1_0000 + (h - 0xD800) * 1024 + (l - 0xDC00) == c as int;
  }

  /** Every character's escape reads back as that character and nothing more. */
  lemma CharRoundTrip(c: char, tail: string)
    ensures ParseChar(EscapeChar(c) + tail) == Some((c, tail))
  {
    if c == '"' || c == '\\' || c == '\n' || c == '\r' || c == '\t' || c as int == 8 || c as int == 12 {
      ShortRoundTrip(c, tail);
    } else if ' ' <= c <= '~' {
      assert (EscapeChar(c) + tail)[1..] == tail;
    } else if c as int < 0x1_0000 {
      UnitRoundTrip(c, tail);
    } else {
      PairRoundTrip(c, tail);
    }
  }

  lemma ShortRoundTrip(c: char, tail: string)
    requires c == '"' || c == '\\' || c == '\n' || c == '\r' || c == '\t' || c as int == 8 || c as int == 12
    ensures ParseChar(EscapeChar(c) + tail) == Some((c, tail))
  {
    var e := EscapeChar(c);
    var t := e + tail;
    assert |e| == 2 && e[0] == '\\' && e[1] != 'u' && ShortEscape(e[1]) == Some(c);
    assert t[0] == e[0] && t[1] == e[1] && t[2..] == tail;
  }

  lemma UnitRoundTrip(c: char, tail: string)
    requires !(c == '"' || c == '\\' || c == '\n' || c == '\r' || c == '\t' || c as int == 8 || c as int == 12)
    requires !(' ' <= c <= '~') && c as int < 0x1_0000
    ensures ParseChar(EscapeChar(c) + tail) == Some((c, tail))
  {
    var t := UnitEscape(c as int) + tail;
    assert EscapeChar(c) == UnitEscape(c as int);
    assert t[0] == '\\' && t[1] == 'u' && t[2..] == Hex4(c as int) + tail;
    BmpRoundTrip(c, tail);
  }

  lemma PairRoundTrip(c: char, tail: string)
    requires 0x1_0000 <= c as int
    ensures ParseChar(EscapeChar(c) + tail) == Some((c, tail))
  {
    var n := c as int - 0x1_0000;
    var h, l := 0xD800 + n / 1024, 0xDC00 + n % 1024;
    var u := UnitEscape(l) + tail;
    EscapeAstral(c, h, l);
    Regroup3(UnitEscape(h), UnitEscape(l), tail);
    ParseCharOfUnit(h, u);
    Regroup3(Hex4(h), UnitEscape(l), tail);
    AstralRoundTrip(c, h, l, tail);
  }

  lemma EscapeAstral(c: char, h: nat, l: nat)
    requires 0x1_0000 <= c as int
    requires h == 0xD800 + (c as int - 0x1_0000) / 1024 && l == 0xDC00 + (c as int - 0x1_0000) % 1024
    ensures h < 0x1_0000 && l < 0x1_0000 && EscapeChar(c) == UnitEscape(h) + UnitEscape(l)
  {
  }

  /** A `\uXXXX` escape is read by `ParseUnitEscape`. */
  lemma ParseCharOfUnit(h: nat, rest: string)
    requires h < 0x1_0000
    ensures ParseChar(UnitEscape(h) + rest) == ParseUnitEscape(Hex4(h) + rest)
  {
    var t := UnitEscape(h) + rest;
    assert t[0] == '\\' && t[1] == 'u' && t[2..] == Hex4(h) + rest;
  }

  lemma {:induction false} StringBodyRoundTrip(s: string, rest: string)
    ensures ParseStringBody(Escape(s) + "\"" + rest) == Some((s, rest))
    decreases |s|
  {
    var t := Escape(s) + "\"" + rest;
    if |s| == 0 {
      assert t == "\"" + rest;
      assert t[1..] == rest;
    } else {
      var t' := Escape(s[1..]) + "\"" + rest;
      assert t == EscapeChar(s[0]) + t';
      CharRoundTrip(s[0], t');
      StringBodyRoundTrip(s[1..], rest);
      assert [s[0]] + s[1..] == s;
    }
  }

  lemma QuoteRoundTrip(s: string, rest: string)
    ensures ParseString(Quote(s) + rest) == Some((s, rest))
  {
    var t := Quote(s) + rest;
    assert t[1..] == Escape(s) + "\"" + rest;
    StringBodyRoundTrip(s, rest);
  }

  lemma IntRoundTrip(i: int, rest: string)
    requires !DigitAt(rest, 0)
    ensures ParseInt(IntText(i) + rest) == Some((i, rest))
  {
    if i < 0 {
      var t := "-" + (NatText(-i) + rest);
      assert IntText(i) + rest == t;
      DigitsRoundTrip(t, 1, -i, rest);
    } else {
      var t := NatText(i) + rest;
      DigitsRoundTrip(t, 0, i, rest);
    }
  }

  /** `str(n)` written at position `j` of `t`, followed by `rest`, is read
      back by greedy `\d+`. */
  lemma DigitsRoundTrip(t: string, j: nat, n: nat, rest: string)
    requires j <= |t| && t[j..] == NatText(n) + rest && !DigitAt(rest, 0)
    ensures ParseDigits(t, j) == Some((n, rest))
  {
    var d := NatText(n);
    assert t[j..][..|d|] == d && t[j..][|d|..] == rest;
    assert t[j..j + |d|] == d;
    assert !DigitAt(t, j + |d|) by {
      if j + |d| < |t| {
        assert t[j + |d|] == rest[0];
      }
    }
    forall m | 0 <= m < |d|
      ensures t[j + m] == d[m]
    {
      assert t[j + m] == t[j..j + |d|][m];
    }
    RunLengthOfRun(t, j, d);
    ValueOfNatText(n);
  }

  /** What may follow a value inside a document written by `Dumps`. */
  predicate Follows(rest: string)
  {
    |rest| == 0 || rest[0] == ',' || rest[0] == ']' || rest[0] == '}'
  }

  /** How `ParseValue` reads text that starts like a string, a non-empty
      list, a non-empty dictionary or a number. */
  lemma ParseValueString(t: string)
    requires |t| > 0 && t[0] == '"'
    ensures ParseValue(t) == match ParseString(t)
      case None => None
      case Some((s, rest)) => Some((Str(s), rest))
  {
  }

  lemma ParseValueList(t: string, xs: seq<Value>, rest: string)
    requires |t| > 1 && t[0] == '[' && t[1] != ']' && ParseElems(t[1..]) == Some((xs, rest))
    ensures ParseValue(t) == Some((List(xs), rest))
  {
    assert ParseList(t) == Some((List(xs), rest));
  }

  lemma ParseValueDict(t: string, es: seq<(string, Value)>, rest: string)
    requires |t| > 1 && t[0] == '{' && t[1] != '}' && ParseEntries(t[1..]) == Some((es, rest))
    ensures ParseValue(t) == Some((Dict(es), rest))
  {
    assert ParseDict(t) == Some((Dict(es), rest));
  }

  /** A non-empty body between a one-character opener and a closer. */
  lemma Enclosed(t: string, open: string, body: string, close: string, rest: string)
    requires |open| == 1 && |body| > 0 && t == open + body + close + rest
    ensures |t| > 1 && t[0] == open[0] && t[1] == body[0] && t[1..] == body + close + rest
  {
  }

  lemma ParseValueInt(t: string)
    requires |t| > 0 && (t[0] == '-' || IsDigit(t[0]))
    ensures ParseValue(t) == ParseNumber(t)
  {
    var c := t[0];
    assert c != 'n' && c != 't' && c != 'f' && c != '"' && c != '[' && c != '{';
  }

  lemma {:induction false} ValueRoundTrip(v: Value, rest: string)
    requires Follows(rest)
    ensures ParseValue(Dumps(v) + rest) == Some((v, rest))
    decreases v, 1
  {
    var t := Dumps(v) + rest;
    assert t[0] == Dumps(v)[0];
    match v
    case Null =>
      assert t[0..4] == "null" && t[4..] == rest;
      SliceIsPrefixAt(t, 0, "null");
    case Bool(b) =>
      if b {
        assert t[0..4] == "true" && t[4..] == rest;
      SliceIsPrefixAt(t, 0, "true");
      } else {
        assert t[0..5] == "false" && t[5..] == rest;
      SliceIsPrefixAt(t, 0, "false");
      }
    case Int(i) =>
      ParseValueInt(t);
      IntRoundTrip(i, rest);
    case Str(s) =>
      ParseValueString(t);
      QuoteRoundTrip(s, rest);
    case List(xs) =>
      if |xs| == 0 {
        assert t[..2] == "[]" && t[2..] == rest;
      } else {
        ListRoundTrip(xs, rest);
      }
    case Dict(es) =>
      if |es| == 0 {
        assert t[..2] == "{}" && t[2..] == rest;
      } else {
        DictRoundTrip(es, rest);
      }
  }

  lemma ListRoundTrip(xs: seq<Value>, rest: string)
    requires |xs| > 0 && Follows(rest)
    ensures ParseValue(Dumps(List(xs)) + rest) == Some((List(xs), rest))
    decreases xs, 1
  {
    var t := Dumps(List(xs)) + rest;
    ElemsStart(xs);
    Enclosed(t, "[", DumpsElems(xs), "]", rest);
    ElemsRoundTrip(xs, rest);
    ParseValueList(t, xs, rest);
  }

  lemma DictRoundTrip(es: seq<(string, Value)>, rest: string)
    requires |es| > 0 && Follows(rest)
    ensures ParseValue(Dumps(Dict(es)) + rest) == Some((Dict(es), rest))
    decreases es, 3
  {
    var t := Dumps(Dict(es)) + rest;
    EntriesStart(es);
    Enclosed(t, "{", DumpsEntries(es), "}", rest);
    EntriesRoundTrip(es, rest);
    ParseValueDict(t, es, rest);
  }

  lemma ElemsStart(xs: seq<Value>)
    requires |xs| > 0
    ensures |DumpsElems(xs)| > 0 && StartsValue(DumpsElems(xs)[0])
  {
  }

  lemma EntriesStart(es: seq<(string, Value)>)
    requires |es| > 0
    ensures |DumpsEntries(es)| > 0 && DumpsEntries(es)[0] == '"'
  {
  }

  lemma {:induction false} ElemsRoundTrip(xs: seq<Value>, rest: string)
    requires |xs| > 0
    ensures ParseElems(DumpsElems(xs) + "]" + rest) == Some((xs, rest))
    decreases xs, 0
  {
    var t := DumpsElems(xs) + "]" + rest;
    if |xs| == 1 {
      assert t == Dumps(xs[0]) + ("]" + rest);
      ValueRoundTrip(xs[0], "]" + rest);
      LastElem(t, xs[0], rest);
      assert [xs[0]] == xs;
    } else {
      var more := DumpsElems(xs[1..]) + "]" + rest;
      assert t == Dumps(xs[0]) + (", " + more);
      ValueRoundTrip(xs[0], ", " + more);
      ElemsRoundTrip(xs[1..], rest);
      NextElem(t, xs[0], more, xs[1..], rest);
      assert [xs[0]] + xs[1..] == xs;
    }
  }

  /** The last element of a list, followed by its `]`. */
  lemma LastElem(t: string, v: Value, rest: string)
    requires ParseValue(t) == Some((v, "]" + rest))
    ensures ParseElems(t) == Some(([v], rest))
  {
    assert ("]" + rest)[0] == ']' && ("]" + rest)[1..] == rest;
  }

  /** An element followed by more elements. */
  lemma NextElem(t: string, v: Value, more: string, vs: seq<Value>, rest: string)
    requires ParseValue(t) == Some((v, ", " + more)) && ParseElems(more) == Some((vs, rest))
    ensures ParseElems(t) == Some(([v] + vs, rest))
  {
    assert (", " + more)[0] == ',' && (", " + more)[1] == ' ' && (", " + more)[2..] == more;
  }

  lemma DumpsEntriesHead(es: seq<(string, Value)>)
    requires |es| > 0
    ensures DumpsEntries(es) == Quote(es[0].0) + ": " + Dumps(es[0].1)
      + (if |es| == 1 then "" else ", " + DumpsEntries(es[1..]))
  {
  }

  /** The text of a single entry and the closing brace, split after the key. */
  lemma {:induction false} LastEntryText(es: seq<(string, Value)>, rest: string)
    requires |es| == 1
    ensures DumpsEntries(es) + "}" + rest == Quote(es[0].0) + (": " + (Dumps(es[0].1) + ("}" + rest)))
  {
    var q, d := Quote(es[0].0), Dumps(es[0].1);
    assert DumpsEntries(es) == q + ": " + d;
    Regroup5(q, ": ", d, "}", rest);
  }

  /** The text of two or more entries, split after the first key. */
  lemma {:induction false} MoreEntriesText(es: seq<(string, Value)>, rest: string)
    requires |es| > 1
    ensures DumpsEntries(es) + "}" + rest
      == Quote(es[0].0) + (": " + (Dumps(es[0].1) + (", " + (DumpsEntries(es[1..]) + "}" + rest))))
  {
    var q, d, e := Quote(es[0].0), Dumps(es[0].1), DumpsEntries(es[1..]);
    assert DumpsEntries(es) == q + ": " + d + ", " + e;
    Regroup7(q, ": ", d, ", ", e, "}", rest);
  }


  /** Reading one `"k": v` leaves the rest to `EntriesAfter`. */
  lemma EntryStep(t: string, k: string, w: string, v: Value, after: string)
    requires ParseString(t) == Some((k, ": " + w)) && ParseValue(w) == Some((v, after))
    ensures ParseEntries(t) == EntriesAfter(k, v, after)
  {
    assert (": " + w)[0] == ':' && (": " + w)[1] == ' ' && (": " + w)[2..] == w;
  }

  /** The last entry of a dictionary, followed by its `}`. */
  lemma LastEntry(k: string, v: Value, rest: string)
    ensures EntriesAfter(k, v, "}" + rest) == Some(([(k, v)], rest))
  {
    assert ("}" + rest)[0] == '}' && ("}" + rest)[1..] == rest;
  }

  /** An entry followed by more entries. */
  lemma NextEntry(k: string, v: Value, more: string, es: seq<(string, Value)>, rest: string)
    requires ParseEntries(more) == Some((es, rest))
    ensures EntriesAfter(k, v, ", " + more) == Some(([(k, v)] + es, rest))
  {
    assert (", " + more)[0] == ',' && (", " + more)[1] == ' ' && (", " + more)[2..] == more;
  }

  lemma {:induction false} EntriesRoundTrip(es: seq<(string, Value)>, rest: string)
    requires |es| > 0
    ensures ParseEntries(DumpsEntries(es) + "}" + rest) == Some((es, rest))
    decreases es, 2
  {
    if |es| == 1 {
      OneEntryRoundTrip(es, rest);
    } else {
      MoreEntriesRoundTrip(es, rest);
    }
  }

  lemma OneEntryRoundTrip(es: seq<(string, Value)>, rest: string)
    requires |es| == 1
    ensures ParseEntries(DumpsEntries(es) + "}" + rest) == Some((es, rest))
    decreases es, 1
  {
    var k, v := es[0].0, es[0].1;
    assert es[0] in es && v < es[0];
    LastEntryText(es, rest);
    EntryRoundTrip(k, v, "}" + rest);
    LastEntry(k, v, rest);
    assert es == [(k, v)];
  }

  lemma {:induction false} MoreEntriesRoundTrip(es: seq<(string, Value)>, rest: string)
    requires |es| > 1
    ensures ParseEntries(DumpsEntries(es) + "}" + rest) == Some((es, rest))
    decreases es, 1
  {
    var k, v := es[0].0, es[0].1;
    assert es[0] in es && v < es[0];
    var more := DumpsEntries(es[1..]) + "}" + rest;
    MoreEntriesText(es, rest);
    EntryRoundTrip(k, v, ", " + more);
    EntriesRoundTrip(es[1..], rest);
    NextEntry(k, v, more, es[1..], rest);
    assert [(k, v)] + es[1..] == es;
  }

  /** Reading one entry `"k": v` leaves what follows it to `EntriesAfter`. */
  lemma EntryRoundTrip(k: string, v: Value, after: string)
    requires Follows(after)
    ensures ParseEntries(Quote(k) + (": " + (Dumps(v) + after))) == EntriesAfter(k, v, after)
    decreases v, 2
  {
    var w := Dumps(v) + after;
    QuoteRoundTrip(k, ": " + w);
    ValueRoundTrip(v, after);
    EntryStep(Quote(k) + (": " + w), k, w, v, after);
  }

  /** Decoding a document written by `json.dumps` gives back the value. */
  lemma DecodeDumps(v: Value)
    ensures Decode(Dumps(v)) == Some(v)
  {
    ValueRoundTrip(v, "");
    assert Dumps(v) + "" == Dumps(v);
  }

  /** `json.dumps` is injective: different values never share a text. */
  lemma DumpsInjective(v: Value, w: Value)
    requires Dumps(v) == Dumps(w)
    ensures v == w
  {
    DecodeDumps(v);
    DecodeDumps(w);
  }

  // ---------------------------------------------------------------------
  // The low-level-discovery wrapper
  // ---------------------------------------------------------------------

  /** `json.dumps({"data": v})`: the text an lld measurement carries. */
  function WrapData(v: Value): (t: string)
    ensures t == "{" + Quote("data") + ": " + Dumps(v) + "}"
  {
    WrapDataText(v);
    Dumps(Dict([("data", v)]))
  }

  lemma WrapDataText(v: Value)
    ensures Dumps(Dict([("data", v)])) == "{" + Quote("data") + ": " + Dumps(v) + "}"
  {
    var body := DumpsEntries([("data", v)]);
    assert body == Quote("data") + ": " + Dumps(v) by {
      DumpsEntriesHead([("data", v)]);
    }
  }

  /** The `lld` text with its key written out: `{"data": `, the value's
      text, and `}`. */
  lemma WrapDataLiteral(v: Value)
    ensures WrapData(v) == "{\"data\": " + Dumps(v) + "}"
  {
    QuoteData();
  }

  /** The key is written as is. */
  lemma QuoteData()
    ensures Quote("data") == "\"data\""
  {
    PlainEscape("data");
  }

  /** Printable ASCII other than `"` and `\`: written as is inside quotes. */
  predicate Plain(s: string)
  {
    forall i :: 0 <= i < |s| ==> ' ' <= s[i] <= '~' && s[i] != '"' && s[i] != '\\'
  }

  lemma {:induction false} PlainEscape(s: string)
    requires Plain(s)
    ensures Escape(s) == s
  {
    if |s| > 0 {
      PlainEscape(s[1..]);
      assert [s[0]] + s[1..] == s;
    }
  }

  /** The value inside a `{"data": ...}` document, if `t` is one. */
  function UnwrapData(t: string): Option<Value>
  {
    match Decode(t)
    case Some(Dict(es)) => if |es| == 1 && es[0].0 == "data" then Some(es[0].1) else None
    case _ => None
  }

  lemma UnwrapWrapData(v: Value)
    ensures UnwrapData(WrapData(v)) == Some(v)
  {
    DecodeDumps(Dict([("data", v)]));
  }

  /** Two lld measurements carry the same text only if they wrap the same value. */
  lemma WrapDataInjective(v: Value, w: Value)
    requires WrapData(v) == WrapData(w)
    ensures v == w
  {
    UnwrapWrapData(v);
    UnwrapWrapData(w);
  }
}
