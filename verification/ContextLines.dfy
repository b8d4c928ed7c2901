// One observation as one line of compact JSON, and its truncation to a given length.
module ContextLines {
  import opened JsonValues

  datatype Kind =
    | Caption | Colors | Detection | Mark | MarkDescription | Metadata | Segmentation | Text | Transform | Warning

  // The serialized payload. A caption or text observation splits around its text value:
  // `head` ends with the value's opening quote and `tail` follows its closing one.
  datatype Body =
    | Whole(line: string)
    | Textual(head: string, text: string, tail: string)

  // What a transform observation says about its asset.
  datatype Derivation = Derivation(child: string, parent: string)

  // `id` is the number in the observation's `obs_` identifier.
  datatype Observation = Observation(id: nat, asset: string, kind: Kind, body: Body,
                                     contradicts: set<nat>, derivation: Option<Derivation>)

  // A character inside a JSON string, non-ASCII left as it is.
  function EscapedChar(c: char): (r: string)
    ensures 1 <= |r|
  {
    if c == '"' then "\\\""
    else if c == '\\' then "\\\\"
    else if c as int in {8, 9, 10, 12, 13} then "\\" + ["btn_fr"[c as int - 8]]
    else if c as int < 32 then "\\u00" + [if c as int < 16 then '0' else '1', "0123456789abcdef"[c as int % 16]]
    else [c]
  }

  // Every character replaced.
  function Replaced(f: char -> string, s: string): (r: string)
  {
    if s == "" then "" else Replaced(f, s[..|s| - 1]) + f(s[|s| - 1])
  }

  function Escaped(s: string): (r: string)
  {
    Replaced(EscapedChar, s)
  }

  function Decimal(n: nat): (r: string)
    ensures 1 <= |r|
  {
    if n < 10 then ["0123456789"[n]] else Decimal(n / 10) + ["0123456789"[n % 10]]
  }

  /******* Reading back *******/

  predicate HexDigit(c: char)
  {
    '0' <= c <= '9' || 'a' <= c <= 'f'
  }

  function HexValue(c: char): (r: nat)
    requires HexDigit(c)
    ensures r < 16
  {
    if c <= '9' then c as int - '0' as int else c as int - 'a' as int + 10
  }

  // The character that an escape inside a JSON string stands for, and how long the escape is.
  function Unescape(s: string): (r: Option<(char, nat)>)
    ensures r.Some? ==> 1 <= r.value.1 <= |s|
  {
    if s == "" || s[0] == '"' || s[0] as int < 32 then None
    else if s[0] != '\\' then Some((s[0], 1))
    else if |s| < 2 then None
    else match s[1]
      case '"' => Some(('"', 2))
      case '\\' => Some(('\\', 2))
      case 'b' => Some((8 as char, 2))
      case 't' => Some(('\t', 2))
      case 'n' => Some(('\n', 2))
      case 'f' => Some((12 as char, 2))
      case 'r' => Some(('\r', 2))
      case 'u' =>
        if |s| < 6 || s[2] != '0' || s[3] != '0' || !HexDigit(s[4]) || !HexDigit(s[5]) then None
        else Some(((16 * HexValue(s[4]) + HexValue(s[5])) as char, 6))
      case _ => None
  }

  // What a JSON reader makes of the text between two quotes.
  function Unescaped(s: string): (r: Option<string>)
    decreases |s|
  {
    if s == "" then Some("")
    else
      var first := Unescape(s);
      if first.None? then None
      else
        var rest := Unescaped(s[first.value.1..]);
        if rest.None? then None else Some([first.value.0] + rest.value)
  }

  lemma CharReadsBack(c: char, rest: string)
    ensures Unescape(EscapedChar(c) + rest) == Some((c, |EscapedChar(c)|))
  {
    var e := EscapedChar(c) + rest;
    if c as int < 32 && c as int !in {8, 9, 10, 12, 13} {
      assert e[..2] == "\\u" && e[2] == '0' && e[3] == '0';
      ControlHex(c);
    }
  }

  lemma ControlHex(c: char)
    requires c as int < 32 && c as int !in {8, 9, 10, 12, 13}
    ensures var e := EscapedChar(c);
      |e| == 6 && HexDigit(e[4]) && HexDigit(e[5]) && 16 * HexValue(e[4]) + HexValue(e[5]) == c as int
  {}

  lemma {:induction false} ReplacedCons(f: char -> string, c: char, s: string)
    ensures Replaced(f, [c] + s) == f(c) + Replaced(f, s)
  {
    if s == "" {
      assert [c] + s == [c] && Replaced(f, [c][..0]) == "";
    } else {
      ReplacedCons(f, c, s[..|s| - 1]);
      assert ([c] + s)[..|[c] + s| - 1] == [c] + s[..|s| - 1];
    }
  }

  lemma UnescapedStep(s: string, c: char, e: string, rest: string)
    requires s == e + rest && Unescape(s) == Some((c, |e|)) && Unescaped(rest).Some?
    ensures Unescaped(s) == Some([c] + Unescaped(rest).value)
  {
    assert s[|e|..] == rest;
  }

  // A reader gets the text back from its escaped form, which holds no bare quote and no
  // control character: a record is one line.
  lemma {:induction false} EscapingReadsBack(s: string)
    ensures Unescaped(Escaped(s)) == Some(s)
  {
    if s != "" {
      var c, rest := s[0], s[1..];
      assert s == [c] + rest;
      ReplacedCons(EscapedChar, c, rest);
      EscapingReadsBack(rest);
      CharReadsBack(c, Escaped(rest));
      UnescapedStep(Escaped(s), c, EscapedChar(c), Escaped(rest));
    }
  }

  function DecimalValue(s: string): (r: int)
  {
    if s == "" then 0 else 10 * DecimalValue(s[..|s| - 1]) + (s[|s| - 1] as int - '0' as int)
  }

  lemma {:induction false} DecimalReadsBack(n: nat)
    ensures DecimalValue(Decimal(n)) == n
  {
    if 10 <= n {
      DecimalReadsBack(n / 10);
      assert Decimal(n)[..|Decimal(n)| - 1] == Decimal(n / 10);
    } else {
      assert Decimal(n)[..0] == "";
    }
    DigitReadsBack(n % 10);
  }

  lemma DigitReadsBack(d: nat)
    requires d < 10
    ensures "0123456789"[d] as int - '0' as int == d
  {}

  const TRUNCATED := "\",\"truncated_chars\":"

  function Line(o: Observation): (r: string)
  {
    match o.body
    case Whole(line) => line
    case Textual(head, text, tail) => head + Escaped(text) + "\"" + tail
  }

  /******* The longest prefix that does not break a line in two *******/

  // `rfind("\n")`, with -1 for none.
  function LastNewline(s: string): (r: int)
    ensures -1 <= r < |s|
    ensures 0 <= r ==> s[r] == '\n'
    ensures forall i :: r < i < |s| ==> s[i] != '\n'
  {
    if s == "" then -1
    else if s[|s| - 1] == '\n' then |s| - 1
    else LastNewline(s[..|s| - 1])
  }

  function LineSafePrefix(value: string, maximum: nat): (r: string)
  {
    if |value| <= maximum then value
    else if '\n' !in value[..maximum + 1] then value[..maximum]
    else
      var boundary := LastNewline(value[..maximum]);
      if 0 <= boundary then value[..boundary + 1] else value[..maximum]
  }

  // All of a text that is short enough. Of any other, what comes before the bound up to the
  // last line end there, or all that comes before the bound when there is none.
  predicate IsLineSafe(value: string, maximum: nat, p: string)
  {
    if |value| <= maximum then p == value
    else
      && p <= value && |p| <= maximum
      && ((p != "" && p[|p| - 1] == '\n' && '\n' !in value[|p|..maximum])
          || (|p| == maximum && '\n' !in value[..maximum]))
  }

  lemma PrefixIsLineSafe(value: string, maximum: nat)
    ensures IsLineSafe(value, maximum, LineSafePrefix(value, maximum))
    ensures LineSafePrefix(value, maximum) <= value && |LineSafePrefix(value, maximum)| <= maximum
  {
    if maximum < |value| && '\n' in value[..maximum + 1] {
      var boundary := LastNewline(value[..maximum]);
      if 0 <= boundary {
        assert forall i :: boundary + 1 <= i < maximum ==> value[..maximum][i] == value[i];
      } else {
        assert forall i :: 0 <= i < maximum ==> value[..maximum][i] != '\n';
      }
    }
  }

  lemma LineSafeIsUnique(value: string, maximum: nat, p: string, q: string)
    requires IsLineSafe(value, maximum, p) && IsLineSafe(value, maximum, q)
    ensures p == q
  {
    if maximum < |value| {
      assert p == value[..|p|] && q == value[..|q|];
      if |p| < |q| { LineEndBetween(value, maximum, |p|, |q|); }
      if |q| < |p| { LineEndBetween(value, maximum, |q|, |p|); }
    }
  }

  // The longer of two line-safe prefixes would leave a line end behind the shorter.
  lemma LineEndBetween(value: string, maximum: nat, m: nat, n: nat)
    requires m < n <= maximum < |value|
    requires IsLineSafe(value, maximum, value[..m])
    ensures !IsLineSafe(value, maximum, value[..n])
  {
    assert value[..n][n - 1] == value[n - 1] == value[m..maximum][n - 1 - m];
    assert 0 < m ==> value[..m][m - 1] == value[m - 1] == value[..maximum][m - 1];
  }

  // The prefix is the one line-safe prefix.
  lemma PrefixExact(value: string, maximum: nat, p: string)
    ensures IsLineSafe(value, maximum, p) <==> p == LineSafePrefix(value, maximum)
  {
    PrefixIsLineSafe(value, maximum);
    if IsLineSafe(value, maximum, p) { LineSafeIsUnique(value, maximum, p, LineSafePrefix(value, maximum)); }
  }

  lemma PrefixGrows(value: string, a: nat, b: nat)
    requires a <= b
    ensures |LineSafePrefix(value, a)| <= |LineSafePrefix(value, b)|
  {
    PrefixIsLineSafe(value, a);
    if b < |value| && '\n' in value[..b + 1] {
      var x, y := LastNewline(value[..a]), LastNewline(value[..b]);
      if 0 <= y {
        assert 0 <= x ==> value[..b][x] == '\n';
        if x < 0 {
          assert value[..a] == value[..b][..a];
          assert forall i :: 0 <= i < a ==> value[..a][i] != '\n';
          assert a <= y;
        }
      }
    }
  }

  /******* Lengths *******/

  lemma {:induction false} ReplacedGrows(f: char -> string, s: string, t: string)
    requires s <= t && forall c :: 1 <= |f(c)|
    ensures |Replaced(f, s)| + (|t| - |s|) <= |Replaced(f, t)|
  {
    if |s| < |t| { ReplacedGrows(f, s, t[..|t| - 1]); } else { assert s == t; }
  }

  // A decimal grows by at most a digit when its number grows by one, and never shrinks.
  lemma {:induction false} DecimalStep(n: nat)
    ensures |Decimal(n)| <= |Decimal(n + 1)| <= |Decimal(n)| + 1
  {
    if 10 <= n { DecimalStep(n / 10); }
  }

  lemma {:induction false} DecimalGrows(m: nat, n: nat)
    requires m <= n
    ensures |Decimal(m)| <= |Decimal(n)| <= |Decimal(m)| + (n - m)
    decreases n - m
  {
    if m < n {
      DecimalGrows(m, n - 1);
      DecimalStep(n - 1);
    }
  }

  /******* Truncation *******/

  // The record that keeps this prefix of the text and counts the characters it leaves out.
  function Record(o: Observation, prefix: string): (r: string)
    requires o.body.Textual? && prefix <= o.body.text
  {
    o.body.head + Escaped(prefix) + TRUNCATED + Decimal(|o.body.text| - |prefix|) + o.body.tail
  }

  // The record for the text cut at `maximum`.
  function TruncatedLine(o: Observation, maximum: nat): (r: string)
    requires o.body.Textual?
  {
    PrefixIsLineSafe(o.body.text, maximum);
    Record(o, LineSafePrefix(o.body.text, maximum))
  }

  lemma RecordLength(o: Observation, p: string)
    requires o.body.Textual? && p <= o.body.text
    ensures |Record(o, p)|
         == |o.body.head| + |Escaped(p)| + |TRUNCATED| + |Decimal(|o.body.text| - |p|)| + |o.body.tail|
  {}

  lemma EscapedGrows(p: string, q: string)
    requires p <= q
    ensures |Escaped(p)| + (|q| - |p|) <= |Escaped(q)|
  {
    ReplacedGrows(EscapedChar, p, q);
  }

  // A longer prefix never gives a shorter record: each character kept costs at least one
  // character and saves at most one digit of the count.
  lemma RecordGrows(o: Observation, p: string, q: string)
    requires o.body.Textual? && p <= q <= o.body.text
    ensures |Record(o, p)| <= |Record(o, q)|
  {
    EscapedGrows(p, q);
    RecordLength(o, p);
    RecordLength(o, q);
    DecimalGrows(|o.body.text| - |q|, |o.body.text| - |p|);
  }

  lemma TruncatedLineGrows(o: Observation, a: nat, b: nat)
    requires o.body.Textual? && a <= b
    ensures |TruncatedLine(o, a)| <= |TruncatedLine(o, b)|
  {
    PrefixIsLineSafe(o.body.text, a);
    PrefixIsLineSafe(o.body.text, b);
    PrefixGrows(o.body.text, a, b);
    PrefixesNest(o.body.text, LineSafePrefix(o.body.text, a), LineSafePrefix(o.body.text, b));
    RecordGrows(o, LineSafePrefix(o.body.text, a), LineSafePrefix(o.body.text, b));
  }

  lemma PrefixesNest(text: string, p: string, q: string)
    requires p <= text && q <= text && |p| <= |q|
    ensures p <= q
  {
    assert p == text[..|p|] && q == text[..|q|];
  }

  // `line` is what `cut` gives for some cut up to `n`, it fits, and no cut past it does.
  ghost predicate IsLastFit(cut: nat -> string, n: nat, available: int, line: string, m: nat)
  {
    && m <= n && line == cut(m) && |line| <= available
    && forall longer: nat :: m < longer <= n ==> |cut(longer)| > available
  }

  // The binary search over cut lengths, for any cut that never shrinks as it grows.
  method SearchCut(cut: nat -> string, n: nat, available: int) returns (best: Option<string>, ghost m: nat)
    requires forall a: nat, b: nat :: a <= b ==> |cut(a)| <= |cut(b)|
    ensures best.None? ==> forall longer: nat :: longer <= n ==> |cut(longer)| > available
    ensures best.Some? ==> IsLastFit(cut, n, available, best.value, m)
  {
    best, m := None, 0;
    var low, high := 0, n;
    while low <= high
      invariant 0 <= low <= high + 1 <= n + 1
      invariant best.None? <==> low == 0
      invariant 0 < low ==> m == low - 1 && best.value == cut(m) && |best.value| <= available
      invariant forall longer: nat :: high < longer <= n ==> |cut(longer)| > available
      decreases high - low
    {
      var length := (low + high) / 2;
      var candidate := cut(length);
      if |candidate| <= available {
        best, low, m := Some(candidate), length + 1, length;
      } else {
        high := length - 1;
      }
    }
  }

  ghost predicate CutsFor(o: Observation, cut: nat -> string)
    requires o.body.Textual?
  {
    forall n: nat :: cut(n) == TruncatedLine(o, n)
  }

  lemma CutsGrow(o: Observation, cut: nat -> string)
    requires o.body.Textual? && CutsFor(o, cut)
    ensures forall a: nat, b: nat :: a <= b ==> |cut(a)| <= |cut(b)|
  {
    forall a: nat, b: nat | a <= b
      ensures |cut(a)| <= |cut(b)|
    {
      TruncatedLineGrows(o, a, b);
    }
  }

  // `r` is the record for the last cut that fits, or no cut fits.
  ghost predicate IsLongestFit(o: Observation, available: int, r: Option<string>)
    requires o.body.Textual?
  {
    exists cut: nat -> string :: CutsFor(o, cut) &&
      match r
      case None => forall m: nat :: m <= |o.body.text| ==> |cut(m)| > available
      case Some(line) => exists m: nat :: IsLastFit(cut, |o.body.text|, available, line, m)
  }

  // In terms of the text itself: the record keeps a line-safe prefix, and none that is
  // longer has a record that fits.
  lemma LongestFitKeepsLongestPrefix(o: Observation, available: int, line: string) returns (m: nat, p: string)
    requires o.body.Textual? && IsLongestFit(o, available, Some(line))
    ensures IsLineSafe(o.body.text, m, p) && p <= o.body.text && line == Record(o, p) && |line| <= available
    ensures forall longer: nat, q ::
      longer <= |o.body.text| && IsLineSafe(o.body.text, longer, q) && RecordFits(o, q, available) ==> |q| <= |p|
  {
    var text := o.body.text;
    var cut: nat -> string :| CutsFor(o, cut) && exists k: nat :: IsLastFit(cut, |text|, available, line, k);
    m :| IsLastFit(cut, |text|, available, line, m);
    p := LineSafePrefix(text, m);
    PrefixIsLineSafe(text, m);
    forall longer: nat, q | longer <= |text| && IsLineSafe(text, longer, q) && RecordFits(o, q, available)
      ensures |q| <= |p|
    {
      PrefixExact(text, longer, q);
      assert cut(longer) == TruncatedLine(o, longer);
      PrefixGrows(text, longer, m);
    }
  }

  predicate RecordFits(o: Observation, prefix: string, available: int)
    requires o.body.Textual?
  {
    prefix <= o.body.text && |Record(o, prefix)| <= available
  }

  lemma NoFitMeansNoPrefixFits(o: Observation, available: int, m: nat, p: string)
    requires o.body.Textual? && IsLongestFit(o, available, None) && m <= |o.body.text|
    requires IsLineSafe(o.body.text, m, p)
    ensures !RecordFits(o, p, available)
  {
    var cut: nat -> string :| CutsFor(o, cut) && forall k: nat :: k <= |o.body.text| ==> |cut(k)| > available;
    PrefixExact(o.body.text, m, p);
    assert cut(m) == TruncatedLine(o, m) && |cut(m)| > available;
  }

  // An observation without a text is not truncated.
  method TruncateObservationLine(o: Observation, available: int) returns (best: Option<string>)
    ensures o.body.Whole? ==> best.None?
    ensures o.body.Textual? ==> IsLongestFit(o, available, best)
    ensures best.Some? ==> |best.value| <= available
  {
    best := None;
    if o.body.Textual? {
      var cut := (n: nat) => TruncatedLine(o, n);
      assert CutsFor(o, cut);
      CutsGrow(o, cut);
      ghost var m;
      best, m := SearchCut(cut, |o.body.text|, available);
    }
  }
}
