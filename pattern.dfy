/**
 * The fragment of JavaScript regular expressions the bundle uses in
 * `Color.parse` and in the URL template of `xhr`: literal characters, the
 * classes \d \D \w and [\d.], greedy `+` and `*` on a class, greedy optional
 * groups, capture groups and the anchors ^ and $. Matching backtracks as the
 * JavaScript engine does: greedy repetitions try the longest run first, an
 * optional group is tried before it is skipped, and the first successful
 * alternative wins.
 */
module Pattern {
  import opened Wrappers

  datatype CharClass = Digit | NonDigit | Word | DigitOrDot | Just(c: char)

  predicate InClass(c: char, k: CharClass)
  {
    match k
    case Digit => '0' <= c <= '9'
    case NonDigit => !('0' <= c <= '9')
    case Word => 'a' <= c <= 'z' || 'A' <= c <= 'Z' || '0' <= c <= '9' || c == '_'
    case DigitOrDot => '0' <= c <= '9' || c == '.'
    case Just(d) => c == d
  }

  /** A pattern, written as the chain of its tokens; `Done` ends it. */
  datatype Pat =
    | Done
    | One(k: CharClass, next: Pat)               // one character of the class
    | Many(k: CharClass, least: nat, next: Pat)  // k* (least 0) or k+ (least 1), greedy
    | Open(g: nat, next: Pat)                    // start of capture group g
    | Close(g: nat, next: Pat)                   // end of capture group g
    | Optional(body: Pat, next: Pat)             // (body)? , greedy
    | AtStart(next: Pat)                         // ^
    | AtEnd(next: Pat)                           // $

  function Lit(c: char, next: Pat): Pat { One(Just(c), next) }

  function Size(p: Pat): nat
  {
    match p
    case Done => 0
    case One(_, n) => 1 + Size(n)
    case Many(_, _, n) => 1 + Size(n)
    case Open(_, n) => 1 + Size(n)
    case Close(_, n) => 1 + Size(n)
    case Optional(b, n) => 1 + Size(b) + Size(n)
    case AtStart(n) => 1 + Size(n)
    case AtEnd(n) => 1 + Size(n)
  }

  /** `body` followed by `rest`: every `Done` of `body` replaced by `rest`. */
  function Then(body: Pat, rest: Pat): (r: Pat)
    ensures Size(r) == Size(body) + Size(rest)
  {
    match body
    case Done => rest
    case One(k, n) => One(k, Then(n, rest))
    case Many(k, l, n) => Many(k, l, Then(n, rest))
    case Open(g, n) => Open(g, Then(n, rest))
    case Close(g, n) => Close(g, Then(n, rest))
    case Optional(b, n) => Optional(b, Then(n, rest))
    case AtStart(n) => AtStart(Then(n, rest))
    case AtEnd(n) => AtEnd(Then(n, rest))
  }

  /** Group boundaries: key 2g holds where group g starts, key 2g+1 where it ends. */
  type Marks = map<nat, nat>

  /** A successful match: where it ends and the group boundaries it recorded. */
  datatype Hit = Hit(end: nat, marks: Marks)

  /** Length of the run of characters of class `k` starting at `i`. */
  function ClassRun(s: string, i: nat, k: CharClass): (n: nat)
    requires i <= |s|
    ensures i + n <= |s|
    ensures forall j :: i <= j < i + n ==> InClass(s[j], k)
    ensures i + n == |s| || !InClass(s[i + n], k)
    decreases |s| - i
  {
    if i < |s| && InClass(s[i], k) then 1 + ClassRun(s, i + 1, k) else 0
  }

  /** The first way, in backtracking order, in which `p` matches `s` from `i` on. */
  function Match(p: Pat, s: string, i: nat, m: Marks): (r: Option<Hit>)
    requires i <= |s|
    ensures r.Some? ==> i <= r.value.end <= |s|
    decreases Size(p), |s| + 1
  {
    match p
    case Done => Some(Hit(i, m))
    case One(k, n) => if i < |s| && InClass(s[i], k) then Match(n, s, i + 1, m) else None
    case Many(k, least, n) =>
      var run := ClassRun(s, i, k);
      if run < least then None else TryRun(n, s, i, run, least, m)
    case Open(g, n) => Match(n, s, i, m[2 * g := i])
    case Close(g, n) => Match(n, s, i, m[2 * g + 1 := i])
    case Optional(b, n) =>
      var withBody := Match(Then(b, n), s, i, m);
      if withBody.Some? then withBody else Match(n, s, i, m)
    case AtStart(n) => if i == 0 then Match(n, s, i, m) else None
    case AtEnd(n) => if i == |s| then Match(n, s, i, m) else None
  }

  /** A greedy repetition that has `len` characters available: longest first, down to `least`. */
  function TryRun(rest: Pat, s: string, i: nat, len: nat, least: nat, m: Marks): (r: Option<Hit>)
    requires i + len <= |s| && least <= len
    ensures r.Some? ==> i <= r.value.end <= |s|
    decreases Size(rest) + 1, len
  {
    var r := Match(rest, s, i + len, m);
    if r.Some? then r
    else if len == least then None
    else TryRun(rest, s, i, len - 1, least, m)
  }

  /** A match found by searching: where it starts, where it ends, its groups. */
  datatype Found = Found(start: nat, end: nat, marks: Marks)

  /** `s.match(re)` without the `g` flag, from position `i` on: the leftmost match. */
  function Search(p: Pat, s: string, i: nat): (r: Option<Found>)
    requires i <= |s|
    ensures r.Some? ==> i <= r.value.start <= r.value.end <= |s|
    ensures r.Some? ==> Match(p, s, r.value.start, map[]) == Some(Hit(r.value.end, r.value.marks))
    ensures r.Some? ==> forall j :: i <= j < r.value.start ==> Match(p, s, j, map[]).None?
    ensures r.None? ==> forall j :: i <= j <= |s| ==> Match(p, s, j, map[]).None?
    decreases |s| - i
  {
    var h := Match(p, s, i, map[]);
    if h.Some? then Some(Found(i, h.value.end, h.value.marks))
    else if i == |s| then None
    else Search(p, s, i + 1)
  }

  /** Capture group `g` of a match, or None when the group took no part in it. */
  function Group(s: string, m: Marks, g: nat): (r: Option<string>)
    ensures r.Some? <==> 2 * g in m && 2 * g + 1 in m && m[2 * g] <= m[2 * g + 1] <= |s|
    ensures r.Some? ==> r.value == s[m[2 * g]..m[2 * g + 1]]
  {
    if 2 * g in m && 2 * g + 1 in m && m[2 * g] <= m[2 * g + 1] <= |s|
    then Some(s[m[2 * g]..m[2 * g + 1]])
    else None
  }

  // ---------------------------------------------------------------------------
  // Stepping lemmas: how one token of a pattern consumes input

  lemma MatchOne(k: CharClass, n: Pat, s: string, i: nat, m: Marks)
    requires i < |s| && InClass(s[i], k)
    ensures Match(One(k, n), s, i, m) == Match(n, s, i + 1, m)
  {
  }

  /**
   * A greedy run whose longest choice lets the rest match takes that choice.
   */
  lemma MatchManyLongest(k: CharClass, least: nat, n: Pat, s: string, i: nat, m: Marks)
    requires i <= |s| && least <= ClassRun(s, i, k)
    requires Match(n, s, i + ClassRun(s, i, k), m).Some?
    ensures Match(Many(k, least, n), s, i, m) == Match(n, s, i + ClassRun(s, i, k), m)
  {
  }

  /** A run of fewer than `least` characters fails. */
  lemma MatchManyShort(k: CharClass, least: nat, n: Pat, s: string, i: nat, m: Marks)
    requires i <= |s| && ClassRun(s, i, k) < least
    ensures Match(Many(k, least, n), s, i, m) == None
  {
  }

  /**
   * When every shorter choice of a greedy run leaves a character that the
   * rest cannot start with, the run is all-or-nothing.
   */
  lemma {:induction false} TryRunOnlyLongest(rest: Pat, s: string, i: nat, len: nat, least: nat, m: Marks)
    requires i + len <= |s| && least <= len
    requires forall q :: i + least <= q < i + len ==> Match(rest, s, q, m).None?
    ensures TryRun(rest, s, i, len, least, m) == Match(rest, s, i + len, m)
    decreases len
  {
    if Match(rest, s, i + len, m).None? && len > least {
      TryRunOnlyLongest(rest, s, i, len - 1, least, m);
      assert TryRun(rest, s, i, len - 1, least, m) == Match(rest, s, i + len - 1, m);
    }
  }

  /** The rest starts with a character of class `k2` that a run of `k` cannot leave behind. */
  lemma TryRunDisjoint(k: CharClass, k2: CharClass, n: Pat, s: string, i: nat, least: nat, m: Marks)
    requires i <= |s| && least <= ClassRun(s, i, k)
    requires forall c :: InClass(c, k) ==> !InClass(c, k2)
    ensures TryRun(One(k2, n), s, i, ClassRun(s, i, k), least, m) == Match(One(k2, n), s, i + ClassRun(s, i, k), m)
  {
    var len := ClassRun(s, i, k);
    forall q | i + least <= q < i + len
      ensures Match(One(k2, n), s, q, m).None?
    {
      assert InClass(s[q], k);
    }
    TryRunOnlyLongest(One(k2, n), s, i, len, least, m);
  }

  /** A run of class `k` that stops at another character or at the end is the whole run. */
  lemma {:induction false} ClassRunExact(s: string, i: nat, n: nat, k: CharClass)
    requires i + n <= |s|
    requires forall j :: i <= j < i + n ==> InClass(s[j], k)
    requires i + n == |s| || !InClass(s[i + n], k)
    ensures ClassRun(s, i, k) == n
    decreases n
  {
    if n > 0 {
      ClassRunExact(s, i + 1, n - 1, k);
    }
  }

  /** Search finds the match at the first position where one exists. */
  lemma {:induction false} SearchFirst(p: Pat, s: string, i: nat, j: nat)
    requires i <= j <= |s|
    requires Match(p, s, j, map[]).Some?
    requires forall k :: i <= k < j ==> Match(p, s, k, map[]).None?
    ensures Search(p, s, i) == Some(Found(j, Match(p, s, j, map[]).value.end, Match(p, s, j, map[]).value.marks))
    decreases j - i
  {
    if i < j {
      SearchFirst(p, s, i + 1, j);
    }
  }

  /** A pattern that starts with `^` can only match at position 0. */
  lemma SearchAnchored(n: Pat, s: string)
    ensures Search(AtStart(n), s, 0) ==
      (var h := Match(n, s, 0, map[]); if h.Some? then Some(Found(0, h.value.end, h.value.marks)) else None)
  {
    if Match(n, s, 0, map[]).None? && |s| > 0 {
      assert forall j :: 1 <= j <= |s| ==> Match(AtStart(n), s, j, map[]).None?;
    }
  }
}
