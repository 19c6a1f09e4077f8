/**
 * The URL template of `xhr`: every `{ key }` placeholder (optional spaces
 * around a run of word characters) is replaced by `param[key]` when that is
 * truthy and left as it is otherwise, scanning left to right as a global
 * regular-expression replace does.
 */
module Template {
  import opened Wrappers
  import opened Js

  /**
   * A parameter value: a text, or a number given in ten-thousandths (every
   * number the data layer passes has been through `crop`).
   */
  datatype Value = Text(s: string) | Num(units: int)

  /** `param[key] || tag` takes the value only when it is truthy. */
  predicate Truthy(v: Value)
  {
    match v
    case Text(s) => s != ""
    case Num(u) => u != 0
  }

  /** A character of `[\w_]`. */
  predicate IsWordChar(c: char)
  {
    'a' <= c <= 'z' || 'A' <= c <= 'Z' || '0' <= c <= '9' || c == '_'
  }

  // ---------------------------------------------------------------------------
  // How a cropped number is written

  /** A digit character. */
  function Digit(d: nat): (c: char)
    requires d < 10
    ensures IsDigit(c)
  {
    ('0' as int + d) as char
  }

  /** `n` as exactly four digits, with leading zeros. */
  function Pad4(n: nat): (s: string)
    requires n < 10000
    ensures |s| == 4
  {
    [Digit(n / 1000), Digit(n / 100 % 10), Digit(n / 10 % 10), Digit(n % 10)]
  }

  /** `s` without its trailing zeros. */
  function TrimZeros(s: string): (r: string)
    ensures r <= s
    ensures r == [] || r[|r| - 1] != '0'
    ensures forall k :: |r| <= k < |s| ==> s[k] == '0'
  {
    if s != [] && s[|s| - 1] == '0' then TrimZeros(s[..|s| - 1]) else s
  }

  /**
   * `String(units / 10000)`: the shortest decimal of a cropped number, which
   * is its sign, its whole part and up to four decimals without trailing zeros.
   */
  function DecimalText(units: int): (s: string)
  {
    var a := if units < 0 then -units else units;
    var frac := a % 10000;
    (if units < 0 then "-" else "")
      + NatToString(a / 10000)
      + (if frac == 0 then "" else "." + TrimZeros(Pad4(frac)))
  }

  /** What the placeholder becomes: the value as a string. */
  function Show(v: Value): string
  {
    match v
    case Text(s) => s
    case Num(u) => DecimalText(u)
  }

  /** Whole numbers are written with no decimal point, and read back as the same number. */
  lemma DecimalWhole(n: nat)
    ensures DecimalText(10000 * n) == NatToString(n)
    ensures ParseFloat(DecimalText(10000 * n)) == Finite(n as real)
  {
    DecimalWholeText(n, 10000 * n);
    ParseFloatNatToString(n);
  }

  lemma DecimalWholeText(n: nat, u: int)
    requires u == 10000 * n
    ensures DecimalText(u) == NatToString(n)
  {
    WholeUnits(n);
    var s := NatToString(n);
    assert DecimalText(u) == "" + s + "";
    assert "" + s + "" == s;
  }

  lemma WholeUnits(n: nat)
    ensures (10000 * n) / 10000 == n && (10000 * n) % 10000 == 0
  {
  }

  /** A fraction keeps its leading zeros and loses its trailing ones. */
  lemma DecimalFractions()
    ensures DecimalText(75) == "0.0075"
    ensures DecimalText(-150) == "-0.015"
    ensures DecimalText(525075) == "52.5075"
  {
    assert Pad4(75) == "0075";
    assert Pad4(150) == "0150";
    assert TrimZeros("0150") == "015";
    assert Pad4(5075) == "5075";
    assert NatToString(52) == "52" by {
      assert NatToString(5) == "5";
    }
  }

  /** The four characters of `Pad4(n)` are digits worth `n`. */
  lemma Pad4Value(n: nat)
    requires n < 10000
    ensures forall k :: 0 <= k < 4 ==> IsDigit(Pad4(n)[k])
    ensures RadixValue(Pad4(n), 10) == n
  {
    var s := Pad4(n);
    assert DigitValue(s[0]) == n / 1000 && DigitValue(s[1]) == n / 100 % 10;
    assert DigitValue(s[2]) == n / 10 % 10 && DigitValue(s[3]) == n % 10;
    FourDigits(s);
    DecimalPlaces(n);
  }

  lemma DecimalPlaces(n: nat)
    requires n < 10000
    ensures n == 1000 * (n / 1000) + 100 * (n / 100 % 10) + 10 * (n / 10 % 10) + n % 10
  {
    var q1, q2, q3 := n / 10, n / 100, n / 1000;
    assert n == 10 * q1 + n % 10;
    assert q1 / 10 == q2 && q2 / 10 == q3;
    assert q1 == 10 * q2 + q1 % 10;
    assert q2 == 10 * q3 + q2 % 10;
  }

  /** The value of four digits. */
  lemma FourDigits(s: string)
    requires |s| == 4
    ensures RadixValue(s, 10)
            == 1000 * DigitValue(s[0]) + 100 * DigitValue(s[1]) + 10 * DigitValue(s[2]) + DigitValue(s[3])
    requires forall k :: 0 <= k < 4 ==> IsDigit(s[k])
  {
    assert s[..3][..2] == s[..2] && s[..2][..1] == s[..1] && s[..1][..0] == [];
    assert RadixValue(s[..1], 10) == DigitValue(s[0]);
    assert RadixValue(s[..2], 10) == 10 * DigitValue(s[0]) + DigitValue(s[1]);
  }

  lemma TimesTen(v: nat, p: nat)
    ensures v * (10 * p) == 10 * (v * p)
  {
  }

  /** Ten thousand split into two powers of ten. */
  lemma Pow10Split(k: nat)
    requires k <= 4
    ensures Pow10(k) * Pow10(4 - k) == 10000
  {
    assert Pow10(1) == 10 && Pow10(2) == 100 && Pow10(3) == 1000 && Pow10(4) == 10000;
  }

  /** Dropping trailing zeros divides the value by ten for each zero dropped. */
  lemma {:induction false} TrimZerosValue(s: string)
    ensures RadixValue(TrimZeros(s), 10) * Pow10(|s| - |TrimZeros(s)|) == RadixValue(s, 10)
  {
    if s != [] && s[|s| - 1] == '0' {
      var t := s[..|s| - 1];
      var r := TrimZeros(t);
      TrimZerosValue(t);
      assert TrimZeros(s) == r;
      assert RadixValue(s, 10) == 10 * RadixValue(t, 10);
      var n := |t| - |r|;
      assert |s| - |r| == n + 1;
      TimesTen(RadixValue(r, 10), Pow10(n));
    }
  }

  /** A run of digits in `s` at `i`, followed by the end or a non-digit, is read whole. */
  lemma DigitsAt(s: string, i: nat, d: string)
    requires i + |d| <= |s| && s[i..i + |d|] == d
    requires forall k :: 0 <= k < |d| ==> IsDigit(d[k])
    requires i + |d| == |s| || !IsDigit(s[i + |d|])
    ensures DigitRun(s, i) == |d|
  {
    assert forall k :: i <= k < i + |d| ==> s[k] == d[k - i];
    RadixRunExact(s, i, |d|, 10);
  }

  /** The decimals `String` writes for a fraction of `f` ten-thousandths, and what they are worth. */
  lemma FractionDigits(f: nat)
    requires 0 < f < 10000
    ensures var t := TrimZeros(Pad4(f));
            && 1 <= |t| <= 4 && t[|t| - 1] != '0'
            && (forall k :: 0 <= k < |t| ==> IsDigit(t[k]))
            && RadixValue(t, 10) as real / Pow10(|t|) as real == f as real / 10000.0
  {
    var t := TrimZeros(Pad4(f));
    FractionCount(f);
    Pow10Split(|t|);
    RealScale(RadixValue(t, 10), Pow10(|t|), Pow10(4 - |t|), f);
  }

  /** The trimmed decimals, counted in units of their last place. */
  lemma FractionCount(f: nat)
    requires 0 < f < 10000
    ensures var t := TrimZeros(Pad4(f));
            && 1 <= |t| <= 4 && t[|t| - 1] != '0'
            && (forall k :: 0 <= k < |t| ==> IsDigit(t[k]))
            && RadixValue(t, 10) * Pow10(4 - |t|) == f
  {
    var p := Pad4(f);
    var t := TrimZeros(p);
    Pad4Value(f);
    TrimZerosValue(p);
    assert forall k :: 0 <= k < |t| ==> t[k] == p[k];
  }

  /** `v / p == f / 10000` when `v * z == f` and `p * z == 10000`. */
  lemma RealScale(v: nat, p: nat, z: nat, f: nat)
    requires p >= 1 && z >= 1 && v * z == f && p * z == 10000
    ensures v as real / p as real == f as real / 10000.0
  {
    assert (v * z) as real == v as real * z as real;
    assert (p * z) as real == p as real * z as real;
    ScaledQuotient(v as real, p as real, z as real);
  }

  lemma ScaledQuotient(x: real, y: real, z: real)
    requires y > 0.0 && z > 0.0
    ensures x / y == (x * z) / (y * z)
  {
  }

  /** The sign of a cropped number as `String` writes it. */
  function SignText(units: int): string
  {
    if units < 0 then "-" else ""
  }

  /**
   * A number with a fractional part is written as its sign, its whole part, a
   * point and one to four decimals, the last of which is not 0.
   */
  lemma DecimalShape(units: int)
    requires Abs(units) % 10000 != 0
    ensures var s := DecimalText(units);
            var p := |SignText(units)| + |NatToString(Abs(units) / 10000)|;
            && p + 2 <= |s| <= p + 5
            && s[..p] == SignText(units) + NatToString(Abs(units) / 10000)
            && s[p] == '.' && s[|s| - 1] != '0'
            && forall k :: p < k < |s| ==> IsDigit(s[k])
  {
    var a := Abs(units);
    var t := TrimZeros(Pad4(a % 10000));
    FractionDigits(a % 10000);
    var w := SignText(units) + NatToString(a / 10000);
    assert DecimalText(units) == w + "." + t;
    var s := w + "." + t;
    assert forall k :: |w| < k < |s| ==> s[k] == t[k - |w| - 1];
  }

  /** `parseFloat` reads back what `String(units / 10000)` writes. */
  lemma DecimalRoundTrip(units: int)
    ensures ParseFloat(DecimalText(units)) == Finite(units as real / 10000.0)
  {
    var a := Abs(units);
    var s := DecimalText(units);
    var i := |SignText(units)|;
    var d := DecimalAt(s, i);
    SignedStart(units);
    if a % 10000 == 0 {
      WholeDecimal(units);
    } else {
      FractionDecimal(units);
    }
    assert d.value == a as real / 10000.0 && d.end == |s| > i;
  }

  /** The text starts with its sign (if any) and then a digit. */
  lemma SignedStart(units: int)
    ensures var s := DecimalText(units);
            && SkipSpace(s, 0) == 0
            && SignAt(s, 0) == (if units < 0 then (-1.0, 1) else (1.0, 0))
  {
    var w := NatToString(Abs(units) / 10000);
    var s := DecimalText(units);
    assert IsDigit(w[0]);
    assert s[0] == (if units < 0 then '-' else w[0]);
    if units < 0 {
      assert s[1] == w[0];
    }
  }

  lemma WholeDecimal(units: int)
    requires Abs(units) % 10000 == 0
    ensures var i := |SignText(units)|;
            var d := DecimalAt(DecimalText(units), i);
            d.value == Abs(units) as real / 10000.0 && d.end == |DecimalText(units)|
  {
    var a := Abs(units);
    var w := NatToString(a / 10000);
    var s := DecimalText(units);
    var i := |SignText(units)|;
    assert s == SignText(units) + w;
    assert s[i..i + |w|] == w;
    DigitsAt(s, i, w);
    NatToStringValue(a / 10000);
    assert a == 10000 * (a / 10000);
  }

  lemma FractionDecimal(units: int)
    requires Abs(units) % 10000 != 0
    ensures var i := |SignText(units)|;
            var d := DecimalAt(DecimalText(units), i);
            d.value == Abs(units) as real / 10000.0 && d.end == |DecimalText(units)|
  {
    var a := Abs(units);
    var w := NatToString(a / 10000);
    var f := a % 10000;
    var t := TrimZeros(Pad4(f));
    FractionDigits(f);
    assert DecimalText(units) == SignText(units) + w + "." + t;
    PointDecimal(SignText(units), w, t);
    NatToStringValue(a / 10000);
    assert a == 10000 * (a / 10000) + f;
  }

  /** A sign, digits, a point and more digits: the value the decimal reader finds after the sign. */
  lemma PointDecimal(sign: string, w: string, t: string)
    requires |w| >= 1 && |t| >= 1
    requires forall k :: 0 <= k < |w| ==> IsDigit(w[k])
    requires forall k :: 0 <= k < |t| ==> IsDigit(t[k])
    ensures var s := sign + w + "." + t;
            DecimalAt(s, |sign|) == Decimal(RadixValue(w, 10) as real + RadixValue(t, 10) as real / Pow10(|t|) as real, |s|)
  {
    var s := sign + w + "." + t;
    var i := |sign|;
    assert s[i..i + |w|] == w && s[i + |w|] == '.';
    assert s[i + |w| + 1..|s|] == t;
    PointDecimalAt(s, i, w, t);
  }

  lemma PointDecimalAt(s: string, i: nat, w: string, t: string)
    requires |w| >= 1 && |t| >= 1 && |s| == i + |w| + 1 + |t|
    requires s[i..i + |w|] == w && s[i + |w|] == '.' && s[i + |w| + 1..|s|] == t
    requires forall k :: 0 <= k < |w| ==> IsDigit(w[k])
    requires forall k :: 0 <= k < |t| ==> IsDigit(t[k])
    ensures DecimalAt(s, i) == Decimal(RadixValue(w, 10) as real + RadixValue(t, 10) as real / Pow10(|t|) as real, |s|)
  {
    var j := i + |w| + 1;
    assert s[j..j + |t|] == t;
    DigitsAt(s, i, w);
    DigitsAt(s, j, t);
    PointAt(s, i, j, w, t);
  }

  /** The decimal reader on digits, a point and digits. */
  lemma PointAt(s: string, i: nat, j: nat, w: string, t: string)
    requires j == i + |w| + 1 && j + |t| <= |s| && |t| > 0
    requires DigitRun(s, i) == |w| && s[i + |w|] == '.' && DigitRun(s, j) == |t|
    requires s[i..i + |w|] == w && s[j..j + |t|] == t
    ensures DecimalAt(s, i) == Decimal(DecimalValue(w) as real + DecimalValue(t) as real / Pow10(|t|) as real, j + |t|)
  {
  }

  // ---------------------------------------------------------------------------
  // The scanner

  /** The end of the run of spaces starting at `i`. */
  function SpaceEnd(s: string, i: nat): (r: nat)
    requires i <= |s|
    ensures i <= r <= |s|
    ensures forall k :: i <= k < r ==> s[k] == ' '
    ensures r == |s| || s[r] != ' '
    decreases |s| - i
  {
    if i < |s| && s[i] == ' ' then SpaceEnd(s, i + 1) else i
  }

  /** The end of the run of word characters starting at `i`. */
  function WordEnd(s: string, i: nat): (r: nat)
    requires i <= |s|
    ensures i <= r <= |s|
    ensures forall k :: i <= k < r ==> IsWordChar(s[k])
    ensures r == |s| || !IsWordChar(s[r])
    decreases |s| - i
  {
    if i < |s| && IsWordChar(s[i]) then WordEnd(s, i + 1) else i
  }

  /** A placeholder found at the start of the text: its key and its length. */
  datatype Tag = Tag(key: string, len: nat)

  /**
   * The match of `\{ *([\w_]+) *\}` at the start of `s`, if any. Spaces and
   * word characters are disjoint, so the greedy runs are the only way to match.
   */
  function TagAt(s: string): (r: Option<Tag>)
    ensures r.Some? ==> 3 <= r.value.len <= |s| && s[0] == '{' && s[r.value.len - 1] == '}'
    ensures r.Some? ==> r.value.key != [] && forall k :: 0 <= k < |r.value.key| ==> IsWordChar(r.value.key[k])
  {
    if s == [] || s[0] != '{' then None
    else
      var a := SpaceEnd(s, 1);
      var b := WordEnd(s, a);
      var c := SpaceEnd(s, b);
      if a < b && c < |s| && s[c] == '}' then Some(Tag(s[a..b], c + 1)) else None
  }

  /** What one placeholder is replaced by: the truthy value, or the placeholder itself. */
  function Replacement(tag: string, key: string, param: map<string, Value>): (r: string)
    ensures key in param && Truthy(param[key]) ==> r == Show(param[key])
    ensures !(key in param && Truthy(param[key])) ==> r == tag
  {
    if key in param && Truthy(param[key]) then Show(param[key]) else tag
  }

  /** `url.replace(/\{ *([\w_]+) *\}/g, function(tag, key) { return param[key] || tag; })`. */
  function Fill(url: string, param: map<string, Value>): string
    decreases |url|
  {
    if url == [] then []
    else
      match TagAt(url)
      case Some(t) => Replacement(url[..t.len], t.key, param) + Fill(url[t.len..], param)
      case None => [url[0]] + Fill(url[1..], param)
  }

  /** The text of a placeholder with the given spacing. */
  function Placeholder(before: string, key: string, after: string): string
  {
    "{" + before + key + after + "}"
  }

  predicate AllSpaces(s: string)
  {
    forall k :: 0 <= k < |s| ==> s[k] == ' '
  }

  predicate IsKey(key: string)
  {
    key != [] && forall k :: 0 <= k < |key| ==> IsWordChar(key[k])
  }

  /** Any spacing around a key is recognised, whatever follows it. */
  lemma TagOfPlaceholder(before: string, key: string, after: string, rest: string)
    requires AllSpaces(before) && AllSpaces(after) && IsKey(key)
    ensures TagAt(Placeholder(before, key, after) + rest)
         == Some(Tag(key, |Placeholder(before, key, after)|))
  {
    var p := Placeholder(before, key, after);
    var s := p + rest;
    var a := 1 + |before|;
    var b := a + |key|;
    var c := b + |after|;
    assert forall k :: 1 <= k < a ==> s[k] == before[k - 1];
    assert forall k :: a <= k < b ==> s[k] == key[k - a];
    assert forall k :: b <= k < c ==> s[k] == after[k - b];
    assert s[c] == '}';
    assert s[a] == key[0] && IsWordChar(key[0]);
    assert SpaceEnd(s, 1) == a;
    assert !IsWordChar(s[b]) by {
      if b < c { assert s[b] == after[0]; }
    }
    assert WordEnd(s, a) == b;
    assert SpaceEnd(s, b) == c;
    assert s[a..b] == key;
  }

  /** Text with no `{` is copied as it is, and the rest is filled on its own. */
  lemma {:induction false} FillPlain(plain: string, rest: string, param: map<string, Value>)
    requires '{' !in plain
    ensures Fill(plain + rest, param) == plain + Fill(rest, param)
    decreases |plain|
  {
    if plain != [] {
      var s := plain + rest;
      assert s[0] == plain[0] && plain[0] in plain;
      FillOther(s, param);
      ConsJoin(plain, rest);
      FillPlain(plain[1..], rest, param);
      ConsJoin(plain, Fill(rest, param));
    } else {
      assert plain + rest == rest;
    }
  }

  /** Text that does not start with `{` starts its result with that same character. */
  lemma FillOther(s: string, param: map<string, Value>)
    requires s != [] && s[0] != '{'
    ensures Fill(s, param) == [s[0]] + Fill(s[1..], param)
  {
  }

  /** A template with no `{` at all comes back unchanged. */
  lemma NoPlaceholders(url: string, param: map<string, Value>)
    requires '{' !in url
    ensures Fill(url, param) == url
  {
    FillPlain(url, [], param);
    assert url + [] == url;
  }

  /** With no parameters every placeholder stays verbatim, so the template comes back unchanged. */
  lemma {:induction false} NoParameters(url: string)
    ensures Fill(url, map[]) == url
    decreases |url|
  {
    if url != [] {
      match TagAt(url)
      case Some(t) =>
        NoParameters(url[t.len..]);
        KeepTag(url, t);
      case None =>
        NoParameters(url[1..]);
        KeepChar(url);
    }
  }

  /** With no parameters a placeholder at the front stays as it is. */
  lemma KeepTag(url: string, t: Tag)
    requires url != [] && TagAt(url) == Some(t) && Fill(url[t.len..], map[]) == url[t.len..]
    ensures Fill(url, map[]) == url
  {
    var n := t.len;
    assert Replacement(url[..n], t.key, map[]) == url[..n];
    SplitJoin(url, n);
  }

  /** A non-empty text is its first character and the rest. */
  lemma ConsJoin(s: string, t: string)
    requires s != []
    ensures (s + t)[1..] == s[1..] + t && (s + t)[0] == s[0]
    ensures [s[0]] + (s[1..] + t) == s + t
  {
  }

  lemma SplitJoin(s: string, n: nat)
    requires n <= |s|
    ensures s[..n] + s[n..] == s
  {
  }

  /** A character that starts no placeholder is copied. */
  lemma KeepChar(url: string)
    requires url != [] && TagAt(url).None? && Fill(url[1..], map[]) == url[1..]
    ensures Fill(url, map[]) == url
  {
    ConsJoin(url, []);
  }

  /**
   * One placeholder after placeholder-free text: it becomes the value when
   * the value is truthy and stays verbatim otherwise (see `Replacement`).
   */
  lemma FillOne(plain: string, before: string, key: string, after: string, rest: string, param: map<string, Value>)
    requires '{' !in plain && AllSpaces(before) && AllSpaces(after) && IsKey(key)
    ensures Fill(plain + Placeholder(before, key, after) + rest, param)
         == plain + Replacement(Placeholder(before, key, after), key, param) + Fill(rest, param)
  {
    var p := Placeholder(before, key, after);
    var x := plain + p + rest;
    assert x == plain + (p + rest);
    FillPlain(plain, p + rest, param);
    FillAtPlaceholder(before, key, after, rest, param);
    var t := Fill(rest, param);
    var rp := Replacement(p, key, param);
    assert plain + (rp + t) == plain + rp + t;
  }

  /** The text that starts with a placeholder: the replacement, then the rest filled. */
  lemma FillAtPlaceholder(before: string, key: string, after: string, rest: string, param: map<string, Value>)
    requires AllSpaces(before) && AllSpaces(after) && IsKey(key)
    ensures Fill(Placeholder(before, key, after) + rest, param)
         == Replacement(Placeholder(before, key, after), key, param) + Fill(rest, param)
  {
    var p := Placeholder(before, key, after);
    TagOfPlaceholder(before, key, after, rest);
    var s := p + rest;
    assert s[..|p|] == p;
    assert s[|p|..] == rest;
  }

  /** A parameter equal to 0, such as the crop of latitude 0, leaves its placeholder in the URL. */
  lemma ZeroNotSubstituted(plain: string, key: string, rest: string, param: map<string, Value>)
    requires '{' !in plain && IsKey(key)
    requires key in param && param[key] == Num(0)
    ensures Fill(plain + Placeholder("", key, "") + rest, param) == plain + Placeholder("", key, "") + Fill(rest, param)
  {
    FillOne(plain, "", key, "", rest, param);
  }
}
