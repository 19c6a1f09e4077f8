/**
 * `Color` (Color.js in the bundle): the constructor, `Color.parse` with its
 * three regular expressions, `setAlpha`, and the lightness clamp of
 * `setLightness`.
 */
module Colors {
  import opened Wrappers
  import opened Js
  import opened Pattern

  /**
   * A parsed colour. `Rgba` is what the constructor builds; `Hsla` stands for
   * the colour that `hsla2rgb` would compute from an `hsl(...)` string (that
   * conversion is not part of this model), keeping the parsed values.
   */
  datatype Color =
    | Rgba(r: JsNum, g: JsNum, b: JsNum, a: JsNum)
    | Hsla(h: JsNum, s: JsNum, l: JsNum, a: JsNum)

  /** `new Color(r, g, b[, a])`: alpha is 1 when the fourth argument is left out. */
  function NewColor(r: JsNum, g: JsNum, b: JsNum, alpha: Option<JsNum>): (c: Color)
    ensures c.Rgba? && c.r == r && c.g == g && c.b == b
    ensures alpha.None? ==> c.a == Finite(1.0)
    ensures alpha.Some? ==> c.a == alpha.value
  {
    Rgba(r, g, b, if alpha.Some? then alpha.value else Finite(1.0))
  }

  // ---------------------------------------------------------------------------
  // The three patterns of `Color.parse`

  /** `(\w{2})` as capture group `g`. */
  function WordPair(g: nat, next: Pat): Pat
  {
    Open(g, One(Word, One(Word, Close(g, next))))
  }

  /** `(\d+)` as capture group `g`. */
  function Digits(g: nat, next: Pat): Pat
  {
    Open(g, Many(Digit, 1, Close(g, next)))
  }

  /** `([\d.]+)` as capture group `g`. */
  function Decimals(g: nat, next: Pat): Pat
  {
    Open(g, Many(DigitOrDot, 1, Close(g, next)))
  }

  /** `(\D+([\d.]+))?\)`: the optional alpha part (groups 4 and 5) and the closing parenthesis. */
  const AlphaTail: Pat :=
    Optional(Open(4, Many(NonDigit, 1, Decimals(5, Close(4, Done)))), Lit(')', Done))

  /** `^#?(\w{2})(\w{2})(\w{2})(\w{2})?$` */
  const HexPattern: Pat :=
    AtStart(Optional(Lit('#', Done),
      WordPair(1, WordPair(2, WordPair(3, Optional(WordPair(4, Done), AtEnd(Done)))))))

  /** `rgba?\((\d+)\D+(\d+)\D+(\d+)(\D+([\d.]+))?\)` */
  const RgbPattern: Pat :=
    Lit('r', Lit('g', Lit('b', Optional(Lit('a', Done), Lit('(',
      Digits(1, Many(NonDigit, 1, Digits(2, Many(NonDigit, 1, Digits(3, AlphaTail))))))))))

  /** `hsla?\(([\d.]+)\D+([\d.]+)\D+([\d.]+)(\D+([\d.]+))?\)` */
  const HslPattern: Pat :=
    Lit('h', Lit('s', Lit('l', Optional(Lit('a', Done), Lit('(',
      Decimals(1, Many(NonDigit, 1, Decimals(2, Many(NonDigit, 1, Decimals(3, AlphaTail))))))))))

  /** A group's text; a group that took no part reads as "" (the parsers give NaN for both). */
  function GroupText(s: string, m: Marks, g: nat): string
  {
    match Group(s, m, g)
    case Some(t) => t
    case None => ""
  }

  /** `m[g] ? ... : ...`: the group took part and is not empty. */
  predicate GroupTruthy(s: string, m: Marks, g: nat)
  {
    Group(s, m, g).Some? && Group(s, m, g).value != ""
  }

  function Quotient(x: JsNum, d: real): JsNum
    requires d != 0.0
  {
    match x
    case NaN => NaN
    case Finite(v) => Finite(v / d)
  }

  function Product(x: JsNum, y: JsNum): JsNum
  {
    if x.NaN? || y.NaN? then NaN else Finite(x.v * y.v)
  }

  /** The colour a hex match with groups `m` gives: pairs read in base 16, alpha out of 255. */
  function HexColor(str: string, m: Marks): Color
  {
    Rgba(ParseInt(GroupText(str, m, 1), 16), ParseInt(GroupText(str, m, 2), 16),
         ParseInt(GroupText(str, m, 3), 16),
         if GroupTruthy(str, m, 4) then Quotient(ParseInt(GroupText(str, m, 4), 16), 255.0) else Finite(1.0))
  }

  /** The colour an `rgb(...)` match gives: integer channels, a decimal alpha. */
  function RgbColor(str: string, m: Marks): Color
  {
    Rgba(ParseInt(GroupText(str, m, 1), 10), ParseInt(GroupText(str, m, 2), 10),
         ParseInt(GroupText(str, m, 3), 10),
         if GroupTruthy(str, m, 4) then ParseFloat(GroupText(str, m, 5)) else Finite(1.0))
  }

  /** The colour an `hsl(...)` match gives: an integer hue, decimal saturation, lightness and alpha. */
  function HslColor(str: string, m: Marks): Color
  {
    Hsla(ParseInt(GroupText(str, m, 1), 10), ParseFloat(GroupText(str, m, 2)),
         ParseFloat(GroupText(str, m, 3)),
         if GroupTruthy(str, m, 4) then ParseFloat(GroupText(str, m, 5)) else Finite(1.0))
  }

  /**
   * `Color.parse(str)`: the hex form when the string contains '#' and matches
   * the anchored hex pattern, else the first `rgb(...)`/`rgba(...)` found in it,
   * else the first `hsl(...)`/`hsla(...)`, else no colour.
   */
  function Parse(str: string): Option<Color>
  {
    var hex := if '#' in str then Search(HexPattern, str, 0) else None;
    if hex.Some? then Some(HexColor(str, hex.value.marks))
    else
      var rgb := Search(RgbPattern, str, 0);
      if rgb.Some? then Some(RgbColor(str, rgb.value.marks))
      else
        var hsl := Search(HslPattern, str, 0);
        if hsl.Some? then Some(HslColor(str, hsl.value.marks))
        else None
  }

  /** `setAlpha(a)`: the same colour with its alpha multiplied by `a`. */
  function SetAlpha(c: Color, f: JsNum): (r: Color)
    ensures r.Rgba? == c.Rgba?
    ensures r.Rgba? ==> r.r == c.r && r.g == c.g && r.b == c.b
    ensures r.Hsla? ==> r.h == c.h && r.s == c.s && r.l == c.l
    ensures r.a == Product(c.a, f)
  {
    match c
    case Rgba(r, g, b, a) => Rgba(r, g, b, Product(a, f))
    case Hsla(h, s, l, a) => Hsla(h, s, l, Product(a, f))
  }

  /** Two `setAlpha` calls in a row multiply the factors. */
  lemma SetAlphaTwice(c: Color, x: real, y: real)
    ensures SetAlpha(SetAlpha(c, Finite(x)), Finite(y)) == SetAlpha(c, Finite(x * y))
  {
    if c.a.Finite? {
      assert c.a.v * x * y == c.a.v * (x * y);
    }
  }

  /** `setAlpha(1)` changes nothing. */
  lemma SetAlphaOne(c: Color)
    requires c.a.Finite?
    ensures SetAlpha(c, Finite(1.0)) == c
  {
  }

  /**
   * The clamp `setLightness` applies to the scaled lightness: `l * f` pulled
   * into [0, 1].
   */
  function ScaledLightness(l: real, f: real): (r: real)
    ensures 0.0 <= r <= 1.0
    ensures 0.0 <= l * f <= 1.0 ==> r == l * f
    ensures l * f < 0.0 ==> r == 0.0
    ensures l * f > 1.0 ==> r == 1.0
  {
    var x := l * f;
    if x > 1.0 then 1.0 else if x < 0.0 then 0.0 else x
  }

  // ---------------------------------------------------------------------------
  // Formatting, and parsing it back

  /** The lower-case hex digit of `d`. */
  function HexDigit(d: nat): (c: char)
    requires d < 16
    ensures DigitValue(c) == d && InClass(c, Word) && c != '#' && c != 'x' && c != 'X'
  {
    if d < 10 then ('0' as int + d) as char else ('a' as int + d - 10) as char
  }

  /** Two hex digits for a channel value in [0, 255]. */
  function Hex2(n: nat): (s: string)
    requires n < 256
    ensures |s| == 2
  {
    [HexDigit(n / 16), HexDigit(n % 16)]
  }

  lemma ParseIntHex2(n: nat)
    requires n < 256
    ensures ParseInt(Hex2(n), 16) == Finite(n as real)
  {
    var s := Hex2(n);
    assert !IsSpace(s[0]) && s[0] != '-' && s[0] != '+';
    assert SkipSpace(s, 0) == 0;
    RadixRunExact(s, 0, 2, 16);
    assert s[0..2] == s;
    assert s[..1] == [s[0]];
    assert RadixValue([s[0]], 16) == DigitValue(s[0]);
    assert RadixValue(s, 16) == 16 * (n / 16) + n % 16;
  }

  /** `(\w{2})` consumes two word characters and records their place. */
  lemma MatchWordPair(g: nat, next: Pat, s: string, i: nat, m: Marks)
    requires i + 2 <= |s| && InClass(s[i], Word) && InClass(s[i + 1], Word)
    ensures Match(WordPair(g, next), s, i, m) == Match(next, s, i + 2, m[2 * g := i][2 * g + 1 := i + 2])
  {
    var m' := m[2 * g := i];
    assert Match(WordPair(g, next), s, i, m) == Match(One(Word, One(Word, Close(g, next))), s, i, m');
    assert Match(One(Word, One(Word, Close(g, next))), s, i, m') == Match(One(Word, Close(g, next)), s, i + 1, m');
    assert Match(One(Word, Close(g, next)), s, i + 1, m') == Match(Close(g, next), s, i + 2, m');
  }

  /** At the end of the input the optional fourth pair is skipped and `$` matches. */
  lemma MatchHexTail(s: string, m: Marks)
    ensures Match(Optional(WordPair(4, Done), AtEnd(Done)), s, |s|, m) == Some(Hit(|s|, m))
  {
    var body := Then(WordPair(4, Done), AtEnd(Done));
    assert body == Open(4, One(Word, One(Word, Close(4, AtEnd(Done)))));
    assert Match(body, s, |s|, m) == Match(One(Word, One(Word, Close(4, AtEnd(Done)))), s, |s|, m[8 := |s|]);
    assert Match(AtEnd(Done), s, |s|, m) == Some(Hit(|s|, m));
  }

  /** The start of the hex pattern: `^#?` consumes a leading '#'. */
  lemma MatchHexHead(s: string, rest: Pat)
    requires |s| > 0 && s[0] == '#' && Match(rest, s, 1, map[]).Some?
    ensures Match(AtStart(Optional(Lit('#', Done), rest)), s, 0, map[]) == Match(rest, s, 1, map[])
  {
    assert Then(Lit('#', Done), rest) == Lit('#', rest);
    assert Match(Lit('#', rest), s, 0, map[]) == Match(rest, s, 1, map[]);
  }

  /** The group boundaries of a hex match over `n` characters (7 or 9). */
  function HexMarks(n: nat): Marks
  {
    if n == 9 then map[2 := 1, 3 := 3, 4 := 3, 5 := 5, 6 := 5, 7 := 7, 8 := 7, 9 := 9]
    else map[2 := 1, 3 := 3, 4 := 3, 5 := 5, 6 := 5, 7 := 7]
  }

  /** '#' followed by six or eight word characters matches the hex pattern as a whole. */
  lemma SearchHex(s: string)
    requires (|s| == 7 || |s| == 9) && s[0] == '#'
    requires forall k :: 1 <= k < |s| ==> InClass(s[k], Word)
    ensures Search(HexPattern, s, 0) == Some(Found(0, |s|, HexMarks(|s|)))
  {
    var pairs := WordPair(1, WordPair(2, WordPair(3, Optional(WordPair(4, Done), AtEnd(Done)))));
    MatchHexPairs(s);
    MatchHexHead(s, pairs);
    assert HexPattern == AtStart(Optional(Lit('#', Done), pairs));
  }

  /** The three (or four) pairs after '#' match to the end with the hex group boundaries. */
  lemma MatchHexPairs(s: string)
    requires (|s| == 7 || |s| == 9) && s[0] == '#'
    requires forall k :: 1 <= k < |s| ==> InClass(s[k], Word)
    ensures Match(WordPair(1, WordPair(2, WordPair(3, Optional(WordPair(4, Done), AtEnd(Done))))), s, 1, map[])
            == Some(Hit(|s|, HexMarks(|s|)))
  {
    var m1 := map[][2 := 1][3 := 3];
    var m2 := m1[4 := 3][5 := 5];
    var m3 := m2[6 := 5][7 := 7];
    var tail := Optional(WordPair(4, Done), AtEnd(Done));
    assert m3 == map[2 := 1, 3 := 3, 4 := 3, 5 := 5, 6 := 5, 7 := 7];
    assert |s| == 9 ==> InClass(s[7], Word) && InClass(s[8], Word);
    MatchHexOptional(s, m3);
    assert InClass(s[5], Word) && InClass(s[6], Word);
    MatchWordPair(3, tail, s, 5, m2);
    assert InClass(s[3], Word) && InClass(s[4], Word);
    MatchWordPair(2, WordPair(3, tail), s, 3, m1);
    assert InClass(s[1], Word) && InClass(s[2], Word);
    MatchWordPair(1, WordPair(2, WordPair(3, tail)), s, 1, map[]);
  }

  /** After the third pair: the optional fourth pair, then the end of the input. */
  lemma MatchHexOptional(s: string, m3: Marks)
    requires (|s| == 7 || |s| == 9) && m3 == map[2 := 1, 3 := 3, 4 := 3, 5 := 5, 6 := 5, 7 := 7]
    requires |s| == 9 ==> InClass(s[7], Word) && InClass(s[8], Word)
    ensures Match(Optional(WordPair(4, Done), AtEnd(Done)), s, 7, m3) == Some(Hit(|s|, HexMarks(|s|)))
  {
    if |s| == 7 {
      MatchHexTail(s, m3);
    } else {
      MatchWordPair(4, AtEnd(Done), s, 7, m3);
      assert Then(WordPair(4, Done), AtEnd(Done)) == WordPair(4, AtEnd(Done));
      assert m3[8 := 7][9 := 9] == HexMarks(9);
    }
  }

  /** When the string has a '#' and the hex pattern matches, `Color.parse` takes the hex form. */
  lemma ParseHexFound(s: string, m: Marks)
    requires '#' in s && Search(HexPattern, s, 0) == Some(Found(0, |s|, m))
    ensures Parse(s) == Some(HexColor(s, m))
  {
  }

  /** '#' and six or eight word characters: `Color.parse` takes the hex form with its pairs as groups. */
  lemma ParseHexShape(s: string)
    requires (|s| == 7 || |s| == 9) && s[0] == '#'
    requires forall k :: 1 <= k < |s| ==> InClass(s[k], Word)
    ensures Parse(s) == Some(HexColor(s, HexMarks(|s|)))
  {
    SearchHex(s);
    ParseHexFound(s, HexMarks(|s|));
  }

  /** The groups of a hex match over '#' and four two-character pairs. */
  lemma HexGroups(s: string, n: nat)
    requires (n == 7 || n == 9) && |s| == n
    ensures GroupText(s, HexMarks(n), 1) == s[1..3]
    ensures GroupText(s, HexMarks(n), 2) == s[3..5]
    ensures GroupText(s, HexMarks(n), 3) == s[5..7]
    ensures n == 9 ==> GroupText(s, HexMarks(n), 4) == s[7..9] && GroupTruthy(s, HexMarks(n), 4)
    ensures n == 7 ==> !GroupTruthy(s, HexMarks(n), 4)
  {
  }

  /** '#rrggbb' parses back to the three channels with alpha 1. */
  lemma ParseHexColor(r: nat, g: nat, b: nat)
    requires r < 256 && g < 256 && b < 256
    ensures Parse("#" + Hex2(r) + Hex2(g) + Hex2(b))
            == Some(Rgba(Finite(r as real), Finite(g as real), Finite(b as real), Finite(1.0)))
  {
    var s := "#" + Hex2(r) + Hex2(g) + Hex2(b);
    assert s[1..3] == Hex2(r) && s[3..5] == Hex2(g) && s[5..7] == Hex2(b);
    ParseHexShape(s);
    assert HexColor(s, HexMarks(7))
           == Rgba(ParseInt(s[1..3], 16), ParseInt(s[3..5], 16), ParseInt(s[5..7], 16), Finite(1.0)) by {
      HexGroups(s, 7);
    }
    ParseIntHex2(r);
    ParseIntHex2(g);
    ParseIntHex2(b);
  }

  /** '#rrggbbaa' parses back with alpha aa / 255. */
  lemma ParseHexColorAlpha(r: nat, g: nat, b: nat, a: nat)
    requires r < 256 && g < 256 && b < 256 && a < 256
    ensures Parse("#" + Hex2(r) + Hex2(g) + Hex2(b) + Hex2(a))
            == Some(Rgba(Finite(r as real), Finite(g as real), Finite(b as real), Finite(a as real / 255.0)))
  {
    var s := "#" + Hex2(r) + Hex2(g) + Hex2(b) + Hex2(a);
    assert s[1..3] == Hex2(r) && s[3..5] == Hex2(g) && s[5..7] == Hex2(b) && s[7..9] == Hex2(a);
    ParseHexShape(s);
    HexAlphaChannels(s, r, g, b, a);
  }

  /** The colour of a nine-character hex match whose pairs are `Hex2` texts. */
  lemma HexAlphaChannels(s: string, r: nat, g: nat, b: nat, a: nat)
    requires r < 256 && g < 256 && b < 256 && a < 256 && |s| == 9
    requires s[1..3] == Hex2(r) && s[3..5] == Hex2(g) && s[5..7] == Hex2(b) && s[7..9] == Hex2(a)
    ensures HexColor(s, HexMarks(9))
            == Rgba(Finite(r as real), Finite(g as real), Finite(b as real), Finite(a as real / 255.0))
  {
    assert HexColor(s, HexMarks(9))
           == Rgba(ParseInt(s[1..3], 16), ParseInt(s[3..5], 16), ParseInt(s[5..7], 16),
                   Quotient(ParseInt(s[7..9], 16), 255.0)) by {
      HexGroups(s, 9);
    }
    ParseIntHex2(r);
    ParseIntHex2(g);
    ParseIntHex2(b);
    ParseIntHex2(a);
  }

  /** The pattern must start with a non-digit here: `\D+`, or the alpha part and ')'. */
  predicate NeedsNonDigit(p: Pat)
  {
    (p.Many? && p.k == NonDigit && p.least >= 1) || p == AlphaTail
  }

  lemma NeedsNonDigitFails(p: Pat, s: string, q: nat, m: Marks)
    requires NeedsNonDigit(p) && q < |s| && InClass(s[q], Digit)
    ensures Match(p, s, q, m).None?
  {
    if p == AlphaTail {
      var body := Open(4, Many(NonDigit, 1, Decimals(5, Close(4, Done))));
      assert Then(body, Lit(')', Done)) == Open(4, Many(NonDigit, 1, Decimals(5, Close(4, Lit(')', Done)))));
      assert Match(Then(body, Lit(')', Done)), s, q, m).None?;
    }
  }

  /** `(\d+)` before a non-digit takes the whole digit run, from `i` to `j`. */
  lemma MatchDigits(g: nat, next: Pat, s: string, i: nat, j: nat, m: Marks)
    requires NeedsNonDigit(next) && i < j <= |s| && ClassRun(s, i, Digit) == j - i
    ensures Match(Digits(g, next), s, i, m) == Match(next, s, j, m[2 * g := i][2 * g + 1 := j])
  {
    var m' := m[2 * g := i];
    forall q | i + 1 <= q < j
      ensures Match(Close(g, next), s, q, m').None?
    {
      NeedsNonDigitFails(next, s, q, m'[2 * g + 1 := q]);
    }
    TryRunOnlyLongest(Close(g, next), s, i, j - i, 1, m');
  }

  /** A single separator character before a digit. */
  lemma MatchSeparator(next: Pat, s: string, i: nat, m: Marks)
    requires i + 1 < |s| && !InClass(s[i], Digit) && InClass(s[i + 1], Digit)
    ensures Match(Many(NonDigit, 1, next), s, i, m) == Match(next, s, i + 1, m)
  {
    ClassRunExact(s, i, 1, NonDigit);
  }

  /** With ')' as the last character the alpha part is skipped. */
  lemma MatchAlphaTailClose(s: string, i: nat, m: Marks)
    requires i + 1 == |s| && s[i] == ')'
    ensures Match(AlphaTail, s, i, m) == Some(Hit(|s|, m))
  {
    var body := Open(4, Many(NonDigit, 1, Decimals(5, Close(4, Done))));
    var inner := Decimals(5, Close(4, Lit(')', Done)));
    assert Then(body, Lit(')', Done)) == Open(4, Many(NonDigit, 1, inner));
    ClassRunExact(s, i, 1, NonDigit);
    var m8 := m[8 := i];
    assert Match(inner, s, |s|, m8) == Match(Many(DigitOrDot, 1, Close(5, Close(4, Lit(')', Done)))), s, |s|, m8[10 := |s|]);
    assert Match(inner, s, |s|, m8).None?;
    assert TryRun(inner, s, i, 1, 1, m8).None?;
    assert Match(Then(body, Lit(')', Done)), s, i, m) == Match(Many(NonDigit, 1, inner), s, i, m8);
    assert Match(Lit(')', Done), s, i, m) == Some(Hit(|s|, m));
  }

  /** "rgb(" then the first number. */
  lemma MatchRgbHead(s: string, rest: Pat)
    requires |s| > 4 && s[..4] == "rgb(" && Match(rest, s, 4, map[]).Some?
    ensures Match(Lit('r', Lit('g', Lit('b', Optional(Lit('a', Done), Lit('(', rest))))), s, 0, map[])
            == Match(rest, s, 4, map[])
  {
    assert s[0] == 'r' && s[1] == 'g' && s[2] == 'b' && s[3] == '(';
    var opt := Optional(Lit('a', Done), Lit('(', rest));
    assert Then(Lit('a', Done), Lit('(', rest)) == Lit('a', Lit('(', rest));
    assert Match(Lit('a', Lit('(', rest)), s, 3, map[]).None?;
    assert Match(opt, s, 3, map[]) == Match(Lit('(', rest), s, 3, map[]) == Match(rest, s, 4, map[]);
    assert Match(Lit('b', opt), s, 2, map[]) == Match(opt, s, 3, map[]);
    assert Match(Lit('g', Lit('b', opt)), s, 1, map[]) == Match(Lit('b', opt), s, 2, map[]);
  }

  /** `(\d+)\D+` where the digits run from `i` to `j` and one separator follows. */
  lemma MatchNumberSeparator(g: nat, next: Pat, s: string, i: nat, j: nat, m: Marks)
    requires i < j && j + 1 < |s| && ClassRun(s, i, Digit) == j - i
    requires InClass(s[j + 1], Digit)
    ensures Match(Digits(g, Many(NonDigit, 1, next)), s, i, m)
            == Match(next, s, j + 1, m[2 * g := i][2 * g + 1 := j])
  {
    MatchDigits(g, Many(NonDigit, 1, next), s, i, j, m);
    MatchSeparator(next, s, j, m[2 * g := i][2 * g + 1 := j]);
  }

  /** Three numbers and their separators, then a `tail` that matches from the third number's end. */
  lemma MatchThreeNumbers(tail: Pat, s: string, B: nat, C: nat, E: nat)
    requires |s| == E + 1 && 4 < B && B + 1 < C && C + 1 < E
    requires NeedsNonDigit(tail)
    requires ClassRun(s, 4, Digit) == B - 4 && ClassRun(s, B + 1, Digit) == C - B - 1
    requires ClassRun(s, C + 1, Digit) == E - C - 1
    requires InClass(s[B + 1], Digit) && InClass(s[C + 1], Digit)
    requires Match(tail, s, E, RgbMarks(4, B, C, E)) == Some(Hit(|s|, RgbMarks(4, B, C, E)))
    ensures Match(Digits(1, Many(NonDigit, 1, Digits(2, Many(NonDigit, 1, Digits(3, tail))))), s, 4, map[])
            == Some(Hit(|s|, RgbMarks(4, B, C, E)))
  {
    var p2 := Digits(2, Many(NonDigit, 1, Digits(3, tail)));
    MatchLastNumbers(tail, s, B, C, E);
    MatchNumberSeparator(1, p2, s, 4, B, map[]);
  }

  /** The second and third numbers, from `B + 1`, with the first number's group already recorded. */
  lemma MatchLastNumbers(tail: Pat, s: string, B: nat, C: nat, E: nat)
    requires |s| == E + 1 && 4 < B && B + 1 < C && C + 1 < E
    requires NeedsNonDigit(tail)
    requires ClassRun(s, B + 1, Digit) == C - B - 1 && ClassRun(s, C + 1, Digit) == E - C - 1
    requires InClass(s[C + 1], Digit)
    requires Match(tail, s, E, RgbMarks(4, B, C, E)) == Some(Hit(|s|, RgbMarks(4, B, C, E)))
    ensures Match(Digits(2, Many(NonDigit, 1, Digits(3, tail))), s, B + 1, map[][2 := 4][3 := B])
            == Some(Hit(|s|, RgbMarks(4, B, C, E)))
  {
    var m1: Marks := map[][2 := 4][3 := B];
    var m2: Marks := m1[4 := B + 1][5 := C];
    assert m2[6 := C + 1][7 := E] == RgbMarks(4, B, C, E);
    MatchDigits(3, tail, s, C + 1, E, m2);
    MatchNumberSeparator(2, Digits(3, tail), s, B + 1, C, m1);
  }

  /** The numbers, separators and ')' after "rgb(". */
  lemma MatchRgbBody(s: string, B: nat, C: nat, E: nat)
    requires |s| == E + 1 && 4 < B && B + 1 < C && C + 1 < E
    requires s[B] == ',' && s[C] == ',' && s[E] == ')'
    requires ClassRun(s, 4, Digit) == B - 4 && ClassRun(s, B + 1, Digit) == C - B - 1
    requires ClassRun(s, C + 1, Digit) == E - C - 1
    ensures Match(RgbBody(), s, 4, map[]) == Some(Hit(|s|, RgbMarks(4, B, C, E)))
  {
    MatchAlphaTailClose(s, E, RgbMarks(4, B, C, E));
    MatchThreeNumbers(AlphaTail, s, B, C, E);
  }

  /** What follows "rgb(" in the rgb pattern. */
  function RgbBody(): Pat
  {
    Digits(1, Many(NonDigit, 1, Digits(2, Many(NonDigit, 1, Digits(3, AlphaTail)))))
  }

  /** Group boundaries of an `rgb(` match with numbers at A..B, B+1..C and C+1..E. */
  function RgbMarks(A: nat, B: nat, C: nat, E: nat): Marks
  {
    map[2 := A, 3 := B, 4 := B + 1, 5 := C, 6 := C + 1, 7 := E]
  }

  /** "rgb(" digits "," digits "," digits ")" matches the rgb pattern as a whole. */
  lemma SearchRgb(s: string, B: nat, C: nat, E: nat)
    requires |s| == E + 1 && 4 < B && B + 1 < C && C + 1 < E
    requires s[..4] == "rgb(" && s[B] == ',' && s[C] == ',' && s[E] == ')'
    requires ClassRun(s, 4, Digit) == B - 4 && ClassRun(s, B + 1, Digit) == C - B - 1
    requires ClassRun(s, C + 1, Digit) == E - C - 1
    ensures Search(RgbPattern, s, 0) == Some(Found(0, |s|, RgbMarks(4, B, C, E)))
  {
    MatchRgbBody(s, B, C, E);
    MatchRgbHead(s, RgbBody());
    assert RgbPattern == Lit('r', Lit('g', Lit('b', Optional(Lit('a', Done), Lit('(', RgbBody())))));
  }

  /** The text "rgb(" + dr + "," + dg + "," + db + ")" laid out by position. */
  lemma RgbLayout(dr: string, dg: string, db: string)
    requires |dr| >= 1 && |dg| >= 1 && |db| >= 1
    ensures var s := "rgb(" + dr + "," + dg + "," + db + ")";
            var B := 4 + |dr|; var C := B + 1 + |dg|; var E := C + 1 + |db|;
            |s| == E + 1 && s[..4] == "rgb(" && s[B] == ',' && s[C] == ',' && s[E] == ')'
            && s[4..B] == dr && s[B + 1..C] == dg && s[C + 1..E] == db
  {
    var s1 := "rgb(" + dr;
    var s2 := s1 + "," + dg;
    var s3 := s2 + "," + db;
    var s := s3 + ")";
    assert s[..|s3|] == s3 && s3[..|s2|] == s2 && s2[..|s1|] == s1;
    assert s1[4..] == dr && s2[|s1| + 1..] == dg && s3[|s2| + 1..] == db;
    assert s[4..|s1|] == s1[4..];
    assert s[|s1| + 1..|s2|] == s2[|s1| + 1..];
    assert s[|s2| + 1..|s3|] == s3[|s2| + 1..];
  }

  /** Every character of a slice equal to a digit string is a digit. */
  lemma DigitsAt(s: string, i: nat, j: nat, d: string)
    requires i <= j <= |s| && s[i..j] == d && forall k :: 0 <= k < |d| ==> IsDigit(d[k])
    ensures forall k :: i <= k < j ==> InClass(s[k], Digit)
  {
    forall k | i <= k < j ensures InClass(s[k], Digit) {
      assert s[k] == d[k - i];
    }
  }

  /** When there is no '#', `Color.parse` takes the first rgb match. */
  lemma ParseRgbFound(s: string, m: Marks)
    requires '#' !in s && Search(RgbPattern, s, 0) == Some(Found(0, |s|, m))
    ensures Parse(s) == Some(RgbColor(s, m))
  {
  }

  /** `s` reads "rgb(" digits "," digits "," digits ")", the commas at B and C and ')' at E. */
  predicate RgbText(s: string, B: nat, C: nat, E: nat)
  {
    |s| == E + 1 && 4 < B && B + 1 < C && C + 1 < E
    && s[..4] == "rgb(" && s[B] == ',' && s[C] == ',' && s[E] == ')'
    && (forall k :: 4 <= k < B ==> InClass(s[k], Digit))
    && (forall k :: B + 1 <= k < C ==> InClass(s[k], Digit))
    && (forall k :: C + 1 <= k < E ==> InClass(s[k], Digit))
  }

  lemma RgbTextSearch(s: string, B: nat, C: nat, E: nat)
    requires RgbText(s, B, C, E)
    ensures Search(RgbPattern, s, 0) == Some(Found(0, |s|, RgbMarks(4, B, C, E)))
  {
    ClassRunExact(s, 4, B - 4, Digit);
    ClassRunExact(s, B + 1, C - B - 1, Digit);
    ClassRunExact(s, C + 1, E - C - 1, Digit);
    SearchRgb(s, B, C, E);
  }

  lemma RgbTextNoHash(s: string, B: nat, C: nat, E: nat)
    requires RgbText(s, B, C, E)
    ensures '#' !in s
  {
    forall k | 0 <= k < |s| ensures s[k] != '#' {
      if 4 <= k < B || B < k < C || C < k < E { assert InClass(s[k], Digit); }
      else if k < 4 { assert s[k] == s[..4][k]; }
    }
  }

  lemma RgbTextParse(s: string, B: nat, C: nat, E: nat)
    requires RgbText(s, B, C, E)
    ensures Parse(s) == Some(RgbColor(s, RgbMarks(4, B, C, E)))
  {
    RgbTextSearch(s, B, C, E);
    RgbTextNoHash(s, B, C, E);
    ParseRgbFound(s, RgbMarks(4, B, C, E));
  }

  /** An `rgb(...)` text parses to its three decimal numbers with alpha 1. */
  lemma ParseRgbText(s: string, B: nat, C: nat, E: nat)
    requires RgbText(s, B, C, E)
    ensures Parse(s) == Some(Rgba(ParseInt(s[4..B], 10), ParseInt(s[B + 1..C], 10),
                                  ParseInt(s[C + 1..E], 10), Finite(1.0)))
  {
    RgbTextParse(s, B, C, E);
    RgbGroups(s, B, C, E);
  }

  /** The groups the rgb marks select: the three digit runs, and no alpha. */
  lemma RgbGroups(s: string, B: nat, C: nat, E: nat)
    requires |s| == E + 1 && 4 < B && B + 1 < C && C + 1 < E
    ensures var m := RgbMarks(4, B, C, E);
      && GroupText(s, m, 1) == s[4..B] && GroupText(s, m, 2) == s[B + 1..C] && GroupText(s, m, 3) == s[C + 1..E]
      && !GroupTruthy(s, m, 4)
  {
    var m := RgbMarks(4, B, C, E);
    assert m[2] == 4 && m[3] == B && m[4] == B + 1 && m[5] == C && m[6] == C + 1 && m[7] == E;
    assert 8 !in m;
  }

  /** "rgb(" dr "," dg "," db ")" with decimal digit strings parses to their values, alpha 1. */
  lemma ParseRgbDigits(dr: string, dg: string, db: string)
    requires |dr| >= 1 && |dg| >= 1 && |db| >= 1
    requires forall k :: 0 <= k < |dr| ==> IsDigit(dr[k])
    requires forall k :: 0 <= k < |dg| ==> IsDigit(dg[k])
    requires forall k :: 0 <= k < |db| ==> IsDigit(db[k])
    ensures Parse("rgb(" + dr + "," + dg + "," + db + ")")
            == Some(Rgba(ParseInt(dr, 10), ParseInt(dg, 10), ParseInt(db, 10), Finite(1.0)))
  {
    var s := "rgb(" + dr + "," + dg + "," + db + ")";
    var B: nat := 4 + |dr|;
    var C: nat := B + 1 + |dg|;
    var E: nat := C + 1 + |db|;
    RgbLayout(dr, dg, db);
    DigitsAt(s, 4, B, dr);
    DigitsAt(s, B + 1, C, dg);
    DigitsAt(s, C + 1, E, db);
    ParseRgbText(s, B, C, E);
  }

  /** 'rgb(r,g,b)' parses back to the three channels with alpha 1. */
  lemma ParseRgbColor(r: nat, g: nat, b: nat)
    ensures Parse("rgb(" + NatToString(r) + "," + NatToString(g) + "," + NatToString(b) + ")")
            == Some(Rgba(Finite(r as real), Finite(g as real), Finite(b as real), Finite(1.0)))
  {
    ParseRgbDigits(NatToString(r), NatToString(g), NatToString(b));
    ParseIntNatToString(r);
    ParseIntNatToString(g);
    ParseIntNatToString(b);
  }

  /** A pattern that starts with three literal characters matches only where they occur. */
  lemma MatchThreeLetters(a: char, b: char, c: char, rest: Pat, s: string, j: nat)
    requires j <= |s| && Match(Lit(a, Lit(b, Lit(c, rest))), s, j, map[]).Some?
    ensures j + 3 <= |s| && s[j..j + 3] == [a, b, c]
  {
    var p2 := Lit(b, Lit(c, rest));
    assert j < |s| && s[j] == a && Match(p2, s, j + 1, map[]).Some?;
    assert j + 1 < |s| && s[j + 1] == b && Match(Lit(c, rest), s, j + 2, map[]).Some?;
    assert j + 2 < |s| && s[j + 2] == c;
  }

  /** `w` occurs in `s` at position `j`. */
  predicate OccursAt(s: string, j: nat, w: string)
  {
    j + |w| <= |s| && s[j..j + |w|] == w
  }

  /**
   * A string with no '#', no "rgb" and no "hsl" in it is no colour.
   */
  lemma ParseNothing(str: string)
    requires '#' !in str
    requires forall j: nat :: !OccursAt(str, j, "rgb") && !OccursAt(str, j, "hsl")
    ensures Parse(str) == None
  {
    forall j | 0 <= j <= |str|
      ensures Match(RgbPattern, str, j, map[]).None? && Match(HslPattern, str, j, map[]).None?
    {
      if Match(RgbPattern, str, j, map[]).Some? {
        MatchThreeLetters('r', 'g', 'b', Optional(Lit('a', Done), Lit('(',
          Digits(1, Many(NonDigit, 1, Digits(2, Many(NonDigit, 1, Digits(3, AlphaTail))))))), str, j);
        assert OccursAt(str, j, "rgb");
      }
      if Match(HslPattern, str, j, map[]).Some? {
        MatchThreeLetters('h', 's', 'l', Optional(Lit('a', Done), Lit('(',
          Decimals(1, Many(NonDigit, 1, Decimals(2, Many(NonDigit, 1, Decimals(3, AlphaTail))))))), str, j);
        assert OccursAt(str, j, "hsl");
      }
    }
  }
}
