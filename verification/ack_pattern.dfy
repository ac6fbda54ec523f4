/** The acknowledgement pattern `ZBX_RESP_REGEX` of protobix/datacontainer.py:
    four labelled groups (`processed`, `failed`, `total`, `seconds spent`).
    Each label has its first letter in either case and an optional colon,
    then a single space, then a number; the first three numbers are runs of
    ASCII digits followed by an optional semicolon and a space, the last is
    digits, a dot and digits. The Zabbix 1.8/2.0 servers write
    `Processed 0 Failed 1 Total 1 Seconds spent 0.000057`, the 2.2/2.4
    servers `processed: 50; failed: 1000; total: 1050; seconds spent: 0.09957`.

    The pattern is modelled as a sequence of fields. `MatchAt` is what
    Python's regular-expression engine does at one start position; `Search`
    is `re.findall(...)[0]`, the leftmost match. Both are proved to agree
    with a declarative description of the accepted texts, `AckText`. */
module AckPattern {
  import opened Wrappers
  import opened Digits
  import opened Seqs

  // ---------------------------------------------------------------------
  // The pattern
  // ---------------------------------------------------------------------

  /** One labelled group of the pattern. */
  datatype Field =
    | Whole(name: string)     // `[Nn]ame:? (\d+);? `
    | Fraction(name: string)  // `[Nn]ame:? (\d+\.\d+)`

  /** `ZBX_RESP_REGEX`, field by field. */
  const PATTERN: seq<Field> :=
    [Whole("processed"), Whole("failed"), Whole("total"), Fraction("seconds spent")]

  /** The four strings the pattern captures, in order. */
  datatype Counts = Counts(processed: string, failed: string, total: string, seconds: string)

  function Groups(c: Counts): (xs: seq<string>)
    ensures |xs| == |PATTERN|
  {
    [c.processed, c.failed, c.total, c.seconds]
  }

  /** A label starts with a lower-case letter, so the two spellings of its
      first letter differ. */
  predicate LabelName(name: string)
  {
    |name| > 0 && 'a' <= name[0] <= 'z'
  }

  predicate AllNamed(fs: seq<Field>)
  {
    forall k :: 0 <= k < |fs| ==> LabelName(fs[k].name)
  }

  lemma PatternNamed()
    ensures AllNamed(PATTERN)
  {
  }

  function Upper(c: char): char
  {
    if 'a' <= c <= 'z' then (c as int - 32) as char else c
  }

  // ---------------------------------------------------------------------
  // The matcher
  // ---------------------------------------------------------------------

  /** `c?`: the position after an optional character. */
  function Skip(s: string, i: nat, c: char): (j: nat)
    requires i <= |s|
    ensures i <= j <= |s|
  {
    if i < |s| && s[i] == c then i + 1 else i
  }

  /** `[Nn]ame:? `: the position after the name, its optional colon and
      the space that follows. */
  function LabelEnd(s: string, i: nat, name: string): (r: Option<nat>)
    requires i <= |s| && |name| > 0
    ensures r.Some? ==> i < r.value <= |s|
  {
    if i + |name| <= |s| && (s[i] == name[0] || s[i] == Upper(name[0]))
      && PrefixAt(s, i + 1, name[1..])
    then
      var j := Skip(s, i + |name|, ':');
      if j < |s| && s[j] == ' ' then Some(j + 1) else None
    else None
  }

  /** `(\d+);? ` from position `j`: the captured digits and the position
      after the trailing space. */
  function IntTail(s: string, j: nat): (r: Option<(string, nat)>)
    requires j <= |s|
    ensures r.Some? ==> j < r.value.1 <= |s|
  {
    var k := RunLength(s, j);
    var e := Skip(s, j + k, ';');
    if k > 0 && e < |s| && s[e] == ' ' then Some((s[j..j + k], e + 1)) else None
  }

  /** `(\d+\.\d+)` from position `j`: the captured decimal and the position
      after it. */
  function DecimalTail(s: string, j: nat): (r: Option<(string, nat)>)
    requires j <= |s|
    ensures r.Some? ==> j < r.value.1 <= |s|
  {
    var k := RunLength(s, j);
    if k > 0 && j + k < |s| && s[j + k] == '.' then
      var m := RunLength(s, j + k + 1);
      if m > 0 then Some((s[j..j + k + 1 + m], j + k + 1 + m)) else None
    else None
  }

  /** The number of field `f` from position `j`. */
  function TailAt(s: string, j: nat, f: Field): (r: Option<(string, nat)>)
    requires j <= |s|
    ensures r.Some? ==> j < r.value.1 <= |s|
  {
    if f.Whole? then IntTail(s, j) else DecimalTail(s, j)
  }

  /** One field from position `i`: its capture and the position after it. */
  function FieldAt(s: string, i: nat, f: Field): (r: Option<(string, nat)>)
    requires i <= |s| && |f.name| > 0
    ensures r.Some? ==> i < r.value.1 <= |s|
  {
    match LabelEnd(s, i, f.name)
    case None => None
    case Some(j) => TailAt(s, j, f)
  }

  /** The fields in turn, the first starting exactly at position `i`. */
  function FieldsAt(s: string, i: nat, fs: seq<Field>): (r: Option<seq<string>>)
    requires i <= |s| && AllNamed(fs)
    ensures r.Some? ==> |r.value| == |fs|
    decreases |fs|
  {
    if |fs| == 0 then Some([])
    else
      match FieldAt(s, i, fs[0])
      case None => None
      case Some((x, e)) =>
        match FieldsAt(s, e, fs[1..])
        case None => None
        case Some(xs) => Some([x] + xs)
  }

  /** The match of the whole pattern starting exactly at position `i`. */
  function MatchAt(s: string, i: nat): Option<Counts>
    requires i <= |s|
  {
    PatternNamed();
    CountsOf(FieldsAt(s, i, PATTERN))
  }

  /** The four captures of a match, as counts. */
  function CountsOf(r: Option<seq<string>>): Option<Counts>
    requires r.Some? ==> |r.value| == 4
  {
    match r
    case None => None
    case Some(xs) => Some(Counts(xs[0], xs[1], xs[2], xs[3]))
  }

  /** The least position `j` in `i..n` at which `f` gives a result, with
      that result: how the engine tries start positions left to right. */
  function Leftmost<T>(f: nat -> Option<T>, n: nat, i: nat): (r: Option<(nat, T)>)
    requires i <= n
    ensures r.Some? ==> i <= r.value.0 <= n && f(r.value.0) == Some(r.value.1)
    ensures r.Some? ==> forall j :: i <= j < r.value.0 ==> f(j).None?
    ensures r.None? ==> forall j :: i <= j <= n ==> f(j).None?
    decreases n - i
  {
    match f(i)
    case Some(x) => Some((i, x))
    case None => if i == n then None else Leftmost(f, n, i + 1)
  }

  /** `MatchAt` for every start position; none past the end. */
  function Matcher(s: string): nat -> Option<Counts>
  {
    (j: nat) => if j <= |s| then MatchAt(s, j) else None
  }

  /** `re.findall(ZBX_RESP_REGEX, s)[0]`: the groups of the leftmost match;
      `None` where the Python indexing raises. */
  function Search(s: string): Option<Counts>
  {
    match Leftmost(Matcher(s), |s|, 0)
    case Some((_, c)) => Some(c)
    case None => None
  }

  // ---------------------------------------------------------------------
  // The accepted texts, described declaratively
  // ---------------------------------------------------------------------

  /** How one field is spelled: label capitalised or not, with or without
      its colon, and (for a whole number) with or without the semicolon. */
  datatype Spelling = Spelling(capital: bool, colon: bool, semi: bool)

  /** A label, its optional colon and the space after it. */
  function LeadText(name: string, sp: Spelling): string
    requires |name| > 0
  {
    [if sp.capital then Upper(name[0]) else name[0]] + name[1..]
      + (if sp.colon then ":" else "") + " "
  }

  /** What follows the label of a whole-number field. */
  function IntTailText(d: string, semi: bool): string
  {
    d + (if semi then ";" else "") + " "
  }

  /** What follows the label of field `f` carrying `x`. */
  function TailText(f: Field, sp: Spelling, x: string): string
  {
    if f.Whole? then IntTailText(x, sp.semi) else x
  }

  /** The text of one field carrying `x`. */
  function FieldText(f: Field, sp: Spelling, x: string): string
    requires |f.name| > 0
  {
    LeadText(f.name, sp) + TailText(f, sp, x)
  }

  /** Digits, a dot, digits: what `\d+\.\d+` matches. */
  predicate IsDecimal(x: string)
  {
    var k := RunLength(x, 0);
    0 < k < |x| - 1 && x[k] == '.' && IsDigitRun(x[k + 1..])
  }

  /** What a field can capture. */
  predicate Captures(f: Field, x: string)
  {
    if f.Whole? then IsDigitRun(x) else IsDecimal(x)
  }

  /** `s` holds field `f` at `i`, carrying `x` and spelled `sp`; a decimal is
      not followed by a digit, which greedy `\d+` would have taken. */
  predicate FieldRendersAt(s: string, i: nat, f: Field, sp: Spelling, x: string)
    requires |f.name| > 0
  {
    Captures(f, x) && PrefixAt(s, i, FieldText(f, sp, x))
      && (f.Fraction? ==> !DigitAt(s, i + |FieldText(f, sp, x)|))
  }

  /** `s` holds the fields `fs` one after the other from `i`. */
  predicate RendersAt(s: string, i: nat, fs: seq<Field>, sps: seq<Spelling>, xs: seq<string>)
    requires AllNamed(fs)
    decreases |fs|
  {
    i <= |s| && |sps| == |fs| && |xs| == |fs|
      && (|fs| > 0 ==>
            FieldRendersAt(s, i, fs[0], sps[0], xs[0])
            && RendersAt(s, i + |FieldText(fs[0], sps[0], xs[0])|, fs[1..], sps[1..], xs[1..]))
  }

  /** The texts of the fields, one after the other. */
  function Render(fs: seq<Field>, sps: seq<Spelling>, xs: seq<string>): string
    requires AllNamed(fs) && |sps| == |fs| && |xs| == |fs|
    decreases |fs|
  {
    if |fs| == 0 then ""
    else FieldText(fs[0], sps[0], xs[0]) + Render(fs[1..], sps[1..], xs[1..])
  }

  /** Every capture is of its field's kind. */
  predicate AllCapture(fs: seq<Field>, xs: seq<string>)
    requires |xs| == |fs|
  {
    forall k :: 0 <= k < |fs| ==> Captures(fs[k], xs[k])
  }

  /** Whole numbers first, one decimal last: the shape of `PATTERN`. */
  predicate Shaped(fs: seq<Field>)
  {
    |fs| > 0 && fs[|fs| - 1].Fraction? && forall k :: 0 <= k < |fs| - 1 ==> fs[k].Whole?
  }

  /** Counts that some acknowledgement can carry. */
  predicate WellFormed(c: Counts)
  {
    AllCapture(PATTERN, Groups(c))
  }

  /** The acknowledgement text carrying `c`, each field spelled as `sps`
      says. */
  function AckText(c: Counts, sps: seq<Spelling>): string
    requires |sps| == |PATTERN|
  {
    PatternNamed();
    Render(PATTERN, sps, Groups(c))
  }

  /** The fields `fs` hold from `i` carrying `xs`: each capture is of its
      field's kind, some spelling of their text starts at `i`, and no digit
      follows it. */
  ghost predicate RunAt(s: string, i: nat, fs: seq<Field>, xs: seq<string>)
    requires AllNamed(fs) && |xs| == |fs|
  {
    AllCapture(fs, xs)
      && exists sps :: |sps| == |fs|
           && PrefixAt(s, i, Render(fs, sps, xs)) && !DigitAt(s, i + |Render(fs, sps, xs)|)
  }

  /** The pattern matches at `i` and captures `c`: `c` is well formed and
      some spelling of `AckText(c, _)` starts at `i`, not followed by a
      digit. */
  ghost predicate MatchesAt(s: string, i: nat, c: Counts)
  {
    PatternNamed();
    RunAt(s, i, PATTERN, Groups(c))
  }

  // ---------------------------------------------------------------------
  // One field: the matcher accepts exactly the described texts
  // ---------------------------------------------------------------------

  lemma {:induction false} PrefixAtConcat(s: string, i: nat, a: string, b: string)
    ensures PrefixAt(s, i, a + b) <==> PrefixAt(s, i, a) && PrefixAt(s, i + |a|, b)
    decreases |a|
  {
    if |a| == 0 {
      assert a + b == b;
    } else {
      assert (a + b)[1..] == a[1..] + b;
      PrefixAtConcat(s, i + 1, a[1..], b);
    }
  }

  lemma LeadComplete(s: string, i: nat, name: string, sp: Spelling)
    requires LabelName(name) && PrefixAt(s, i, LeadText(name, sp))
    ensures LabelEnd(s, i, name) == Some(i + |LeadText(name, sp)|)
  {
    var t := LeadText(name, sp);
    PrefixAtIndex(s, i, t);
    PrefixAtIndex(s, i + 1, name[1..]);
    forall m | 0 <= m < |name| - 1
      ensures s[i + 1 + m] == name[1..][m]
    {
      assert t[1 + m] == name[1 + m];
    }
    assert s[i] == t[0];
    assert s[i + |name|] == t[|name|];
    if sp.colon {
      assert s[i + |name| + 1] == t[|name| + 1];
    }
  }

  lemma LeadSound(s: string, i: nat, name: string, semi: bool) returns (sp: Spelling)
    requires LabelName(name) && i <= |s| && LabelEnd(s, i, name).Some?
    ensures sp.semi == semi && PrefixAt(s, i, LeadText(name, sp))
    ensures LabelEnd(s, i, name) == Some(i + |LeadText(name, sp)|)
  {
    var k := i + |name|;
    sp := Spelling(s[i] != name[0], s[k] == ':', semi);
    var t := LeadText(name, sp);
    PrefixAtIndex(s, i + 1, name[1..]);
    forall m | 0 <= m < |t|
      ensures s[i + m] == t[m]
    {
      if 0 < m < |name| {
        assert s[i + 1 + (m - 1)] == name[1..][m - 1];
      }
    }
    PrefixAtIndex(s, i, t);
  }

  lemma IntTailComplete(s: string, j: nat, d: string, semi: bool)
    requires IsDigitRun(d) && PrefixAt(s, j, IntTailText(d, semi))
    ensures IntTail(s, j) == Some((d, j + |IntTailText(d, semi)|))
  {
    var t := IntTailText(d, semi);
    PrefixAtIndex(s, j, t);
    forall m | 0 <= m < |d|
      ensures s[j + m] == d[m]
    {
      assert t[m] == d[m];
    }
    assert s[j + |d|] == t[|d|];
    if semi {
      assert s[j + |d| + 1] == t[|d| + 1];
    }
    RunLengthOfRun(s, j, d);
    assert s[j..j + |d|] == d;
  }

  lemma IntTailSound(s: string, j: nat, d: string, e: nat) returns (semi: bool)
    requires j <= |s| && IntTail(s, j) == Some((d, e))
    ensures IsDigitRun(d) && PrefixAt(s, j, IntTailText(d, semi)) && e == j + |IntTailText(d, semi)|
  {
    var k := RunLength(s, j);
    semi := s[j + k] == ';';
    var t := IntTailText(d, semi);
    forall m | 0 <= m < |t|
      ensures s[j + m] == t[m]
    {
      if m < k {
        assert d[m] == s[j + m];
      }
    }
    PrefixAtIndex(s, j, t);
  }

  /** Greedy `\d+` from `j` takes exactly a digit run found there that is
      not followed by a digit. */
  lemma RunLengthOfPrefix(s: string, j: nat, d: string)
    requires PrefixAt(s, j, d) && AllDigits(d) && !DigitAt(s, j + |d|)
    ensures RunLength(s, j) == |d|
  {
    PrefixAtIndex(s, j, d);
    RunLengthOfRun(s, j, d);
  }

  /** A decimal is its whole part, a dot and its fraction. */
  lemma DecimalParts(x: string)
    requires IsDecimal(x)
    ensures var k := RunLength(x, 0);
      x == x[0..k] + "." + x[k + 1..] && AllDigits(x[0..k]) && AllDigits(x[k + 1..])
  {
    var k := RunLength(x, 0);
    assert x == x[0..k] + [x[k]] + x[k + 1..];
  }

  lemma DecimalTailComplete(s: string, j: nat, x: string)
    requires IsDecimal(x) && PrefixAt(s, j, x) && !DigitAt(s, j + |x|)
    ensures DecimalTail(s, j) == Some((x, j + |x|))
  {
    var k := RunLength(x, 0);
    var w, f := x[0..k], x[k + 1..];
    DecimalParts(x);
    PrefixAtConcat(s, j, w + ".", f);
    PrefixAtConcat(s, j, w, ".");
    DecimalTailFrom(s, j, x, w, f);
  }

  /** `DecimalTail` reads a whole part, a dot and a fraction found at `j`. */
  lemma DecimalTailFrom(s: string, j: nat, x: string, w: string, f: string)
    requires x == w + "." + f && PrefixAt(s, j, x) && !DigitAt(s, j + |x|)
    requires IsDigitRun(w) && PrefixAt(s, j, w) && PrefixAt(s, j + |w|, ".")
    requires IsDigitRun(f) && PrefixAt(s, j + |w| + 1, f)
    ensures DecimalTail(s, j) == Some((x, j + |x|))
  {
    RunLengthOfPrefix(s, j, w);
    RunLengthOfPrefix(s, j + |w| + 1, f);
    PrefixAtSlice(s, j, x);
    DecimalTailOf(s, j, |w|, |f|, x);
  }

  /** `DecimalTail` from the lengths of the two digit runs. */
  lemma DecimalTailOf(s: string, j: nat, k: nat, m: nat, x: string)
    requires j <= |s| && RunLength(s, j) == k > 0 && j + k < |s| && s[j + k] == '.'
    requires RunLength(s, j + k + 1) == m > 0
    requires |x| == k + 1 + m && j + |x| <= |s| && s[j..j + |x|] == x
    ensures DecimalTail(s, j) == Some((x, j + |x|))
  {
  }

  lemma DecimalTailSound(s: string, j: nat, x: string, e: nat)
    requires j <= |s| && DecimalTail(s, j) == Some((x, e))
    ensures IsDecimal(x) && PrefixAt(s, j, x) && e == j + |x| && !DigitAt(s, e)
  {
    var k := RunLength(s, j);
    assert x[k] == '.';
    forall m | 0 <= m < |x|
      ensures x[m] == s[j + m]
    {
    }
    RunLengthOfDigits(x, 0, k);
    assert x[k + 1..] == s[j + k + 1..j + |x|];
    PrefixAtIndex(s, j, x);
  }

  /** The text of a field is its lead followed by its number. */
  lemma FieldTextSplit(s: string, i: nat, f: Field, sp: Spelling, x: string)
    requires |f.name| > 0
    ensures |FieldText(f, sp, x)| == |LeadText(f.name, sp)| + |TailText(f, sp, x)|
    ensures PrefixAt(s, i, FieldText(f, sp, x))
      <==> PrefixAt(s, i, LeadText(f.name, sp)) && PrefixAt(s, i + |LeadText(f.name, sp)|, TailText(f, sp, x))
  {
    PrefixAtConcat(s, i, LeadText(f.name, sp), TailText(f, sp, x));
  }

  lemma FieldAtComplete(s: string, i: nat, f: Field, sp: Spelling, x: string)
    requires LabelName(f.name) && FieldRendersAt(s, i, f, sp, x)
    ensures i <= |s| && FieldAt(s, i, f) == Some((x, i + |FieldText(f, sp, x)|))
  {
    FieldTextSplit(s, i, f, sp, x);
    FieldAtOfParts(s, i, f, sp, x, i + |LeadText(f.name, sp)|, i + |FieldText(f, sp, x)|);
  }

  /** A field whose lead is found at `i` and whose number follows at `j`
      is matched. */
  lemma FieldAtOfParts(s: string, i: nat, f: Field, sp: Spelling, x: string, j: nat, e: nat)
    requires LabelName(f.name) && PrefixAt(s, i, LeadText(f.name, sp)) && j == i + |LeadText(f.name, sp)|
    requires Captures(f, x) && PrefixAt(s, j, TailText(f, sp, x)) && e == j + |TailText(f, sp, x)|
    requires f.Fraction? ==> !DigitAt(s, e)
    ensures i <= |s| && FieldAt(s, i, f) == Some((x, e))
  {
    LeadComplete(s, i, f.name, sp);
    TailComplete(s, j, f, sp, x, e);
    FieldAtOf(s, i, f, j, Some((x, e)));
  }

  /** `FieldAt` from the end of the label and the reading of the number. */
  lemma FieldAtOf(s: string, i: nat, f: Field, j: nat, r: Option<(string, nat)>)
    requires i <= |s| && |f.name| > 0 && LabelEnd(s, i, f.name) == Some(j) && TailAt(s, j, f) == r
    ensures FieldAt(s, i, f) == r
  {
  }

  lemma TailComplete(s: string, j: nat, f: Field, sp: Spelling, x: string, e: nat)
    requires Captures(f, x) && PrefixAt(s, j, TailText(f, sp, x))
    requires e == j + |TailText(f, sp, x)| && (f.Fraction? ==> !DigitAt(s, e))
    ensures j <= |s| && TailAt(s, j, f) == Some((x, e))
  {
    if f.Whole? {
      IntTailComplete(s, j, x, sp.semi);
    } else {
      DecimalTailComplete(s, j, x);
    }
  }

  lemma FieldAtSound(s: string, i: nat, f: Field, x: string, e: nat) returns (sp: Spelling)
    requires LabelName(f.name) && i <= |s| && FieldAt(s, i, f) == Some((x, e))
    ensures FieldRendersAt(s, i, f, sp, x) && e == i + |FieldText(f, sp, x)|
  {
    var j := LabelEnd(s, i, f.name).value;
    if f.Whole? {
      var semi := IntTailSound(s, j, x, e);
      sp := LeadSound(s, i, f.name, semi);
      FieldFrom(s, i, f, sp, x, j);
    } else {
      sp := LeadSound(s, i, f.name, false);
      DecimalTailSound(s, j, x, e);
      FieldFrom(s, i, f, sp, x, j);
    }
  }

  /** A field whose lead is found at `i` and whose number follows at `j`. */
  lemma FieldFrom(s: string, i: nat, f: Field, sp: Spelling, x: string, j: nat)
    requires |f.name| > 0 && PrefixAt(s, i, LeadText(f.name, sp)) && j == i + |LeadText(f.name, sp)|
    requires PrefixAt(s, j, TailText(f, sp, x)) && Captures(f, x)
    requires f.Fraction? ==> !DigitAt(s, j + |x|)
    ensures FieldRendersAt(s, i, f, sp, x)
    ensures i + |FieldText(f, sp, x)| == j + |TailText(f, sp, x)|
  {
    FieldTextSplit(s, i, f, sp, x);
  }

  // ---------------------------------------------------------------------
  // All fields
  // ---------------------------------------------------------------------

  /** `FieldsAt` one field at a time. */
  lemma FieldsAtStep(s: string, i: nat, fs: seq<Field>, e: nat, xs: seq<string>)
    requires AllNamed(fs) && |fs| > 0 && |xs| == |fs| && i <= |s| && e <= |s|
    requires FieldAt(s, i, fs[0]) == Some((xs[0], e)) && FieldsAt(s, e, fs[1..]) == Some(xs[1..])
    ensures FieldsAt(s, i, fs) == Some(xs)
  {
    assert [xs[0]] + xs[1..] == xs;
  }

  /** `RendersAt` one field at a time. */
  lemma RendersAtTail(s: string, i: nat, fs: seq<Field>, sps: seq<Spelling>, xs: seq<string>)
    requires AllNamed(fs) && |fs| > 0 && RendersAt(s, i, fs, sps, xs)
    ensures AllNamed(fs[1..]) && LabelName(fs[0].name)
    ensures FieldRendersAt(s, i, fs[0], sps[0], xs[0])
    ensures RendersAt(s, i + |FieldText(fs[0], sps[0], xs[0])|, fs[1..], sps[1..], xs[1..])
  {
  }

  /** The first of a described run of fields is matched. */
  lemma HeadComplete(s: string, i: nat, fs: seq<Field>, sps: seq<Spelling>, xs: seq<string>)
    requires AllNamed(fs) && |fs| > 0 && RendersAt(s, i, fs, sps, xs)
    ensures i <= |s| && FieldAt(s, i, fs[0]) == Some((xs[0], i + |FieldText(fs[0], sps[0], xs[0])|))
  {
    RendersAtTail(s, i, fs, sps, xs);
    FieldAtComplete(s, i, fs[0], sps[0], xs[0]);
  }

  /** Every described run of fields is matched, with its captures. */
  lemma {:induction false} FieldsAtComplete(s: string, i: nat, fs: seq<Field>, sps: seq<Spelling>, xs: seq<string>)
    requires AllNamed(fs) && RendersAt(s, i, fs, sps, xs)
    ensures i <= |s| && FieldsAt(s, i, fs) == Some(xs)
    decreases |fs|
  {
    if |fs| > 0 {
      var e := i + |FieldText(fs[0], sps[0], xs[0])|;
      assert i <= |s| && FieldAt(s, i, fs[0]) == Some((xs[0], e)) by {
        HeadComplete(s, i, fs, sps, xs);
      }
      assert AllNamed(fs[1..]) && RendersAt(s, e, fs[1..], sps[1..], xs[1..]) by {
        RendersAtTail(s, i, fs, sps, xs);
      }
      FieldsAtComplete(s, e, fs[1..], sps[1..], xs[1..]);
      FieldsAtStep(s, i, fs, e, xs);
    }
  }

  lemma RendersAtStep(s: string, i: nat, fs: seq<Field>, sp: Spelling, x: string, e: nat, more: seq<Spelling>, rest: seq<string>)
    requires AllNamed(fs) && |fs| > 0 && i <= |s|
    requires FieldRendersAt(s, i, fs[0], sp, x) && e == i + |FieldText(fs[0], sp, x)|
    requires RendersAt(s, e, fs[1..], more, rest)
    ensures RendersAt(s, i, fs, [sp] + more, [x] + rest)
  {
    assert ([sp] + more)[1..] == more && ([x] + rest)[1..] == rest;
  }

  /** Every match is a described run of fields. */
  lemma {:induction false} FieldsAtSound(s: string, i: nat, fs: seq<Field>, xs: seq<string>) returns (sps: seq<Spelling>)
    requires AllNamed(fs) && i <= |s| && FieldsAt(s, i, fs) == Some(xs)
    ensures RendersAt(s, i, fs, sps, xs)
    decreases |fs|
  {
    if |fs| == 0 {
      sps := [];
    } else {
      var (x, e) := FieldAt(s, i, fs[0]).value;
      var rest := FieldsAt(s, e, fs[1..]).value;
      var sp := FieldAtSound(s, i, fs[0], x, e);
      var more := FieldsAtSound(s, e, fs[1..], rest);
      sps := [sp] + more;
      assert xs == [x] + rest;
      RendersAtStep(s, i, fs, sp, x, e, more, rest);
    }
  }

  /** `AllCapture` one field at a time. */
  lemma AllCaptureCons(fs: seq<Field>, xs: seq<string>)
    requires |fs| > 0 && |xs| == |fs|
    ensures AllCapture(fs, xs) <==> Captures(fs[0], xs[0]) && AllCapture(fs[1..], xs[1..])
  {
    if Captures(fs[0], xs[0]) && AllCapture(fs[1..], xs[1..]) {
      forall k | 0 <= k < |fs|
        ensures Captures(fs[k], xs[k])
      {
        if k > 0 {
          assert fs[1..][k - 1] == fs[k] && xs[1..][k - 1] == xs[k];
        }
      }
    }
    if AllCapture(fs, xs) {
      forall k | 0 <= k < |fs| - 1
        ensures Captures(fs[1..][k], xs[1..][k])
      {
        assert fs[1..][k] == fs[k + 1] && xs[1..][k] == xs[k + 1];
      }
    }
  }

  /** `RendersAt` one field at a time, the next field starting at `e`. */
  lemma RendersAtCons(s: string, i: nat, fs: seq<Field>, sps: seq<Spelling>, xs: seq<string>, e: nat)
    requires AllNamed(fs) && |fs| > 0 && |sps| == |fs| && |xs| == |fs|
    requires e == i + |FieldText(fs[0], sps[0], xs[0])|
    ensures AllNamed(fs[1..])
    ensures RendersAt(s, i, fs, sps, xs)
      <==> i <= |s| && FieldRendersAt(s, i, fs[0], sps[0], xs[0]) && RendersAt(s, e, fs[1..], sps[1..], xs[1..])
  {
  }

  /** The rest of a shaped run of fields after a whole-number field is
      shaped. */
  lemma ShapedTail(fs: seq<Field>)
    requires Shaped(fs) && |fs| > 1
    ensures fs[0].Whole? && Shaped(fs[1..])
  {
    assert forall k :: 0 <= k < |fs| - 2 ==> fs[1..][k] == fs[k + 1];
  }

  /** For a shaped pattern, the fields read one after the other are the
      concatenated text, not followed by a digit. */
  lemma {:induction false} RenderIff(s: string, i: nat, fs: seq<Field>, sps: seq<Spelling>, xs: seq<string>)
    requires AllNamed(fs) && Shaped(fs) && |sps| == |fs| && |xs| == |fs|
    ensures RendersAt(s, i, fs, sps, xs)
      <==> AllCapture(fs, xs) && PrefixAt(s, i, Render(fs, sps, xs)) && !DigitAt(s, i + |Render(fs, sps, xs)|)
    decreases |fs|
  {
    var t := FieldText(fs[0], sps[0], xs[0]);
    var e := i + |t|;
    var r := Render(fs[1..], sps[1..], xs[1..]);
    assert Render(fs, sps, xs) == t + r;
    PrefixAtConcat(s, i, t, r);
    AllCaptureCons(fs, xs);
    RendersAtCons(s, i, fs, sps, xs, e);
    if |fs| == 1 {
      assert r == "" && AllCapture(fs[1..], xs[1..]);
    } else {
      ShapedTail(fs);
      RenderIff(s, e, fs[1..], sps[1..], xs[1..]);
    }
  }

  lemma PatternShaped()
    ensures Shaped(PATTERN)
  {
  }

  lemma FieldsAtRunAt(s: string, i: nat, fs: seq<Field>)
    requires AllNamed(fs) && Shaped(fs) && i <= |s| && FieldsAt(s, i, fs).Some?
    ensures RunAt(s, i, fs, FieldsAt(s, i, fs).value)
  {
    var xs := FieldsAt(s, i, fs).value;
    var sps := FieldsAtSound(s, i, fs, xs);
    RenderIff(s, i, fs, sps, xs);
  }

  lemma RunAtFieldsAt(s: string, i: nat, fs: seq<Field>, xs: seq<string>)
    requires AllNamed(fs) && Shaped(fs) && |xs| == |fs| && RunAt(s, i, fs, xs)
    ensures i <= |s| && FieldsAt(s, i, fs) == Some(xs)
  {
    var sps :| |sps| == |fs|
      && PrefixAt(s, i, Render(fs, sps, xs)) && !DigitAt(s, i + |Render(fs, sps, xs)|);
    assert RendersAt(s, i, fs, sps, xs) by {
      RenderIff(s, i, fs, sps, xs);
    }
    FieldsAtComplete(s, i, fs, sps, xs);
  }

  /** A shaped run of fields matches from `i`, capturing `xs`, if and only
      if it holds there. */
  lemma FieldsAtIff(s: string, i: nat, fs: seq<Field>, xs: seq<string>)
    requires AllNamed(fs) && Shaped(fs) && i <= |s| && |xs| == |fs|
    ensures FieldsAt(s, i, fs) == Some(xs) <==> RunAt(s, i, fs, xs)
  {
    if FieldsAt(s, i, fs) == Some(xs) {
      FieldsAtRunAt(s, i, fs);
    }
    if RunAt(s, i, fs, xs) {
      RunAtFieldsAt(s, i, fs, xs);
    }
  }

  /** `MatchAt` is the run of fields of `PATTERN`, read as counts. */
  lemma MatchAtGroups(s: string, i: nat, c: Counts)
    requires i <= |s|
    ensures AllNamed(PATTERN) && (MatchAt(s, i) == Some(c) <==> FieldsAt(s, i, PATTERN) == Some(Groups(c)))
  {
    PatternNamed();
    PatternShaped();
    CountsOfGroups(FieldsAt(s, i, PATTERN), c);
  }

  lemma CountsOfGroups(r: Option<seq<string>>, c: Counts)
    requires r.Some? ==> |r.value| == 4
    ensures CountsOf(r) == Some(c) <==> r == Some(Groups(c))
  {
    if r.Some? {
      var xs := r.value;
      assert CountsOf(r) == Some(c) ==> xs == [xs[0], xs[1], xs[2], xs[3]] == Groups(c);
    }
  }

  /** `MatchAt` is exactly the pattern: it captures `c` at `i` if and only
      if `s` holds, from `i`, a spelling of the text of `c`. */
  lemma MatchAtIff(s: string, i: nat, c: Counts)
    requires i <= |s|
    ensures MatchAt(s, i) == Some(c) <==> MatchesAt(s, i, c)
  {
    PatternNamed();
    PatternShaped();
    MatchAtGroups(s, i, c);
    FieldsAtIff(s, i, PATTERN, Groups(c));
  }

  /** A well-formed text of `c` in `s` is matched there. */
  lemma AckTextMatches(s: string, i: nat, c: Counts, sps: seq<Spelling>)
    requires WellFormed(c) && |sps| == |PATTERN|
    requires PrefixAt(s, i, AckText(c, sps)) && !DigitAt(s, i + |AckText(c, sps)|)
    ensures MatchesAt(s, i, c)
  {
    PatternNamed();
    assert AckText(c, sps) == Render(PATTERN, sps, Groups(c));
    RunAtOf(s, i, PATTERN, Groups(c), sps);
  }

  /** A spelling found at `i` is a witness for `RunAt`. */
  lemma RunAtOf(s: string, i: nat, fs: seq<Field>, xs: seq<string>, sps: seq<Spelling>)
    requires AllNamed(fs) && |xs| == |fs| && |sps| == |fs| && AllCapture(fs, xs)
    requires PrefixAt(s, i, Render(fs, sps, xs)) && !DigitAt(s, i + |Render(fs, sps, xs)|)
    ensures RunAt(s, i, fs, xs)
  {
  }

  /** `Search` returns the counts of the leftmost described text, and
      nothing when there is none. */
  lemma SearchLeftmost(s: string)
    ensures Search(s).Some? ==> exists i :: 0 <= i <= |s| && MatchesAt(s, i, Search(s).value)
                                     && forall j, c :: 0 <= j < i ==> !MatchesAt(s, j, c)
    ensures Search(s).None? <==> forall i, c :: 0 <= i <= |s| ==> !MatchesAt(s, i, c)
  {
    if Search(s).Some? {
      var i := SearchFound(s);
    } else {
      SearchNone(s);
    }
  }

  lemma MatcherAt(s: string, i: nat)
    requires i <= |s|
    ensures Matcher(s)(i) == MatchAt(s, i)
  {
  }

  /** Every described text lies at or after the position the search stops
      at. */
  lemma LeftmostBound(s: string, i: nat, c: Counts)
    requires i <= |s| && MatchesAt(s, i, c)
    ensures Leftmost(Matcher(s), |s|, 0).Some? && Leftmost(Matcher(s), |s|, 0).value.0 <= i
  {
    MatchAtIff(s, i, c);
    MatcherAt(s, i);
    LeftmostFinds(Matcher(s), |s|, 0, i);
  }

  /** The search stops at or before any position that gives a result. */
  lemma LeftmostFinds<T>(f: nat -> Option<T>, n: nat, i: nat, j: nat)
    requires i <= j <= n && f(j).Some?
    ensures Leftmost(f, n, i).Some? && Leftmost(f, n, i).value.0 <= j
  {
  }

  lemma SearchFound(s: string) returns (i: nat)
    requires Search(s).Some?
    ensures i <= |s| && MatchesAt(s, i, Search(s).value)
    ensures forall j, c :: 0 <= j < i ==> !MatchesAt(s, j, c)
  {
    var c;
    i, c := Leftmost(Matcher(s), |s|, 0).value.0, Leftmost(Matcher(s), |s|, 0).value.1;
    MatcherAt(s, i);
    MatchAtIff(s, i, c);
    forall j, d | 0 <= j < i
      ensures !MatchesAt(s, j, d)
    {
      if MatchesAt(s, j, d) {
        LeftmostBound(s, j, d);
      }
    }
  }

  lemma SearchNone(s: string)
    requires Search(s).None?
    ensures forall i, c :: 0 <= i <= |s| ==> !MatchesAt(s, i, c)
  {
    forall i, c | 0 <= i <= |s|
      ensures !MatchesAt(s, i, c)
    {
      if MatchesAt(s, i, c) {
        LeftmostBound(s, i, c);
      }
    }
  }

  /** Whatever its spelling, an acknowledgement text reads back as the
      counts it was written from. */
  lemma SearchAckText(c: Counts, sps: seq<Spelling>)
    requires WellFormed(c) && |sps| == |PATTERN|
    ensures Search(AckText(c, sps)) == Some(c)
  {
    var s := AckText(c, sps);
    PrefixAtWhole(s);
    AckTextMatches(s, 0, c, sps);
    MatchAtIff(s, 0, c);
    SearchAtStart(s, c);
  }

  lemma PrefixAtWhole(w: string)
    ensures PrefixAt(w, 0, w)
  {
    PrefixAtIndex(w, 0, w);
  }

  /** A match at the very start is the leftmost one. */
  lemma SearchAtStart(s: string, c: Counts)
    requires MatchAt(s, 0) == Some(c)
    ensures Search(s) == Some(c)
  {
    assert Matcher(s)(0) == MatchAt(s, 0);
  }

  /** Digits, a dot and digits form a decimal. */
  lemma DecimalOfParts(w: string, f: string)
    requires IsDigitRun(w) && IsDigitRun(f)
    ensures IsDecimal(w + "." + f)
  {
    var x := w + "." + f;
    RunLengthOfRun(x, 0, w);
    assert x[|w| + 1..] == f;
  }

  /** The counts some acknowledgement can carry: three digit runs and a
      decimal. */
  lemma WellFormedIff(c: Counts)
    ensures WellFormed(c)
      <==> IsDigitRun(c.processed) && IsDigitRun(c.failed) && IsDigitRun(c.total) && IsDecimal(c.seconds)
  {
    var xs := Groups(c);
    assert PATTERN[0].Whole? && PATTERN[1].Whole? && PATTERN[2].Whole? && PATTERN[3].Fraction?;
    assert xs[0] == c.processed && xs[1] == c.failed && xs[2] == c.total && xs[3] == c.seconds;
  }

  /** The text of the four fields of `PATTERN`, one after the other. */
  lemma AckTextFields(c: Counts, sps: seq<Spelling>)
    requires |sps| == |PATTERN|
    ensures AckText(c, sps)
      == FieldText(Whole("processed"), sps[0], c.processed) + FieldText(Whole("failed"), sps[1], c.failed)
         + FieldText(Whole("total"), sps[2], c.total) + FieldText(Fraction("seconds spent"), sps[3], c.seconds)
  {
    PatternNamed();
    var xs := Groups(c);
    var r3 := Render(PATTERN[3..], sps[3..], xs[3..]);
    assert r3 == FieldText(Fraction("seconds spent"), sps[3], c.seconds) by {
      assert Render(PATTERN[3..][1..], sps[3..][1..], xs[3..][1..]) == "";
    }
    var r2 := Render(PATTERN[2..], sps[2..], xs[2..]);
    assert r2 == FieldText(Whole("total"), sps[2], c.total) + r3 by {
      assert PATTERN[2..][1..] == PATTERN[3..] && sps[2..][1..] == sps[3..] && xs[2..][1..] == xs[3..];
    }
    var r1 := Render(PATTERN[1..], sps[1..], xs[1..]);
    assert r1 == FieldText(Whole("failed"), sps[1], c.failed) + r2 by {
      assert PATTERN[1..][1..] == PATTERN[2..] && sps[1..][1..] == sps[2..] && xs[1..][1..] == xs[2..];
    }
  }

  /** The fields of the Zabbix 1.8 and 2.0 example. */
  lemma Fields20(sp: Spelling)
    requires sp == Spelling(true, false, false)
    ensures FieldText(Whole("processed"), sp, "0") == "Processed 0 "
    ensures FieldText(Whole("failed"), sp, "1") == "Failed 1 "
    ensures FieldText(Whole("total"), sp, "1") == "Total 1 "
  {
  }

  lemma Seconds20(sp: Spelling)
    requires sp == Spelling(true, false, false)
    ensures FieldText(Fraction("seconds spent"), sp, "0.000057") == "Seconds spent 0.000057"
  {
  }

  /** The fields of the Zabbix 2.2 and 2.4 example. */
  lemma Fields22(sp: Spelling)
    requires sp == Spelling(false, true, true)
    ensures FieldText(Whole("processed"), sp, "50") == "processed: 50; "
    ensures FieldText(Whole("failed"), sp, "1000") == "failed: 1000; "
    ensures FieldText(Whole("total"), sp, "1050") == "total: 1050; "
  {
  }

  lemma Seconds22(sp: Spelling)
    requires sp == Spelling(false, true, true)
    ensures FieldText(Fraction("seconds spent"), sp, "0.09957") == "seconds spent: 0.09957"
  {
  }

  /** The Zabbix 1.8 and 2.0 spelling (the text is split at its fields). */
  lemma Zabbix20Acknowledgement()
    ensures Search("Processed 0 " + "Failed 1 " + "Total 1 " + "Seconds spent 0.000057")
      == Some(Counts("0", "1", "1", "0.000057"))
  {
    var sp := Spelling(true, false, false);
    Text20();
    WellFormed20();
    SearchAckText(Counts("0", "1", "1", "0.000057"), [sp, sp, sp, sp]);
  }

  lemma Text20()
    ensures var sp := Spelling(true, false, false);
      AckText(Counts("0", "1", "1", "0.000057"), [sp, sp, sp, sp])
        == "Processed 0 " + "Failed 1 " + "Total 1 " + "Seconds spent 0.000057"
  {
    var sp := Spelling(true, false, false);
    AckTextFields(Counts("0", "1", "1", "0.000057"), [sp, sp, sp, sp]);
    Fields20(sp);
    Seconds20(sp);
  }

  lemma WellFormed20()
    ensures WellFormed(Counts("0", "1", "1", "0.000057"))
  {
    assert "0.000057" == "0" + "." + "000057";
    WellFormedOf("0", "1", "1", "0", "000057");
  }

  /** The Zabbix 2.2 and 2.4 spelling (the text is split at its fields). */
  lemma Zabbix22Acknowledgement()
    ensures Search("processed: 50; " + "failed: 1000; " + "total: 1050; " + "seconds spent: 0.09957")
      == Some(Counts("50", "1000", "1050", "0.09957"))
  {
    var sp := Spelling(false, true, true);
    Text22();
    WellFormed22();
    SearchAckText(Counts("50", "1000", "1050", "0.09957"), [sp, sp, sp, sp]);
  }

  lemma Text22()
    ensures var sp := Spelling(false, true, true);
      AckText(Counts("50", "1000", "1050", "0.09957"), [sp, sp, sp, sp])
        == "processed: 50; " + "failed: 1000; " + "total: 1050; " + "seconds spent: 0.09957"
  {
    var sp := Spelling(false, true, true);
    AckTextFields(Counts("50", "1000", "1050", "0.09957"), [sp, sp, sp, sp]);
    Fields22(sp);
    Seconds22(sp);
  }

  lemma WellFormed22()
    ensures WellFormed(Counts("50", "1000", "1050", "0.09957"))
  {
    assert "0.09957" == "0" + "." + "09957";
    WellFormedOf("50", "1000", "1050", "0", "09957");
  }

  /** Counts written from four digit runs, the last split by a dot. */
  lemma WellFormedOf(p: string, f: string, t: string, w: string, d: string)
    requires IsDigitRun(p) && IsDigitRun(f) && IsDigitRun(t) && IsDigitRun(w) && IsDigitRun(d)
    ensures WellFormed(Counts(p, f, t, w + "." + d))
  {
    DecimalOfParts(w, d);
    WellFormedIff(Counts(p, f, t, w + "." + d));
  }
}
