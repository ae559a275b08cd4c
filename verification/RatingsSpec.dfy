/** The ratings file (server/ratings.cc) as lines. */
module RatingsSpec {
  import Bytes

  // What a lookup finds, first as the file format promises it and then as the scanner
  // decides it, byte by byte.  The two differ where a byte of 0x80 or more gets into a
  // `char`.

  type Byte = Bytes.Byte

  const NL: Byte := 10
  const SPACE: Byte := 32
  const ZERO: Byte := 48

  /** End of the line that `i` is in: its newline, or the end of the file. */
  function LineEnd(s: seq<Byte>, i: nat): (e: nat)
    requires i <= |s|
    ensures i <= e <= |s| && (e < |s| ==> s[e] == NL) && forall k :: i <= k < e ==> s[k] != NL
    decreases |s| - i
  {
    if i == |s| || s[i] == NL then i else LineEnd(s, i + 1)
  }

  lemma LineEndIs(s: seq<Byte>, i: nat, e: nat)
    requires i <= e <= |s| && (e < |s| ==> s[e] == NL) && forall k :: i <= k < e ==> s[k] != NL
    ensures LineEnd(s, i) == e
  {
  }

  type Stars = r: int | 0 <= r <= 5

  type Name = fn: seq<Byte> | IsName(fn) witness [ZERO]

  predicate IsRating(b: Byte) {
    ZERO <= b <= ZERO + 5
  }

  /** The line that gives `fn` the rating `r`. */
  function Entry(r: Stars, fn: seq<Byte>): seq<Byte> {
    [ZERO + r as Byte, SPACE] + fn
  }

  /** What one line means for a lookup: nothing, the rating, or the end of the
      search. */
  datatype Verdict = Skip | Hit(r: int) | Abort

  /** As the file format has it. */
  function FormatVerdict(line: seq<Byte>, fn: seq<Byte>): Verdict {
    if |line| >= 2 && IsRating(line[0]) && line[1] == SPACE && line[2..] == fn then Hit((line[0] - ZERO) as int) else Skip
  }

  /** As the scanner has it: the byte behind the rating and the byte behind the
      name are read into a signed `char`, where a byte of 0x80 or more looks
      like the end of the file. */
  function ScanVerdict(line: seq<Byte>, fn: seq<Byte>): Verdict {
    if |line| < 2 || !IsRating(line[0]) then Skip
    else if line[1] >= 128 then Abort
    else if line[1] != SPACE || !(fn <= line[2..]) then Skip
    else if |line| == 2 + |fn| || line[2 + |fn|] >= 128 then Hit((line[0] - ZERO) as int)
    else Skip
  }

  /** Outcome of a search: not found, found with the position of the rating
      character, or given up. */
  datatype Search = NotFound | Found(r: int, pos: nat) | GivenUp

  function Shift(f: Search, n: nat): Search {
    if f.Found? then Found(f.r, f.pos + n) else f
  }

  /** The first line that is not skipped decides. */
  function SearchWith(verdict: (seq<Byte>, seq<Byte>) -> Verdict, s: seq<Byte>, fn: seq<Byte>): Search
    decreases |s|
  {
    if s == [] then NotFound
    else
      var e := LineEnd(s, 0);
      match verdict(s[..e], fn)
      case Hit(r) => Found(r, 0)
      case Abort => GivenUp
      case Skip => if e == |s| then NotFound else Shift(SearchWith(verdict, s[e + 1..], fn), e + 1)
  }

  function Scan(s: seq<Byte>, fn: seq<Byte>): Search {
    SearchWith(ScanVerdict, s, fn)
  }

  function Lookup(s: seq<Byte>, fn: seq<Byte>): Search {
    SearchWith(FormatVerdict, s, fn)
  }

  /** The value find_rating returns. */
  function Rating(f: Search): int {
    if f.Found? then f.r else -1
  }

  predicate IsName(fn: seq<Byte>) {
    fn != [] && NL !in fn
  }

  // ----- when the scanner agrees with the format

  /** A line on which the scanner reads such a byte. */
  predicate Trips(line: seq<Byte>, fn: seq<Byte>) {
    |line| >= 2 && IsRating(line[0])
    && (line[1] >= 128 || (line[1] == SPACE && fn <= line[2..] && |line| > 2 + |fn| && line[2 + |fn|] >= 128))
  }

  /** The verdict of the first line that is a true entry or trips the scanner,
      and whether it is the latter. */
  function FirstDecision(s: seq<Byte>, fn: seq<Byte>): (Verdict, bool)
    decreases |s|
  {
    if s == [] then (Skip, false)
    else
      var e := LineEnd(s, 0);
      if Trips(s[..e], fn) then (ScanVerdict(s[..e], fn), true)
      else if FormatVerdict(s[..e], fn).Hit? then (FormatVerdict(s[..e], fn), false)
      else if e == |s| then (Skip, false)
      else FirstDecision(s[e + 1..], fn)
  }

  /** For every content and name: the scanner's answer is the format's answer
      exactly if no line before the true entry trips it, or the line that does
      happens to give the same answer. */
  lemma {:induction false} ScanAgreesIff(s: seq<Byte>, fn: seq<Byte>)
    requires fn != []
    ensures var (v, trips) := FirstDecision(s, fn);
            Rating(Scan(s, fn)) == Rating(Lookup(s, fn)) <==>
              (!trips || Rating(Lookup(s, fn)) == (if v.Hit? then v.r else -1))
    ensures !FirstDecision(s, fn).1 ==> Scan(s, fn) == Lookup(s, fn)
    decreases |s|
  {
    if s != [] {
      var e := LineEnd(s, 0);
      if e < |s| { ScanAgreesIff(s[e + 1..], fn); }
    }
  }

  /** In particular on text without such bytes the two agree. */
  lemma {:induction false} AsciiNeverTrips(s: seq<Byte>, fn: seq<Byte>)
    ensures (forall k :: 0 <= k < |s| ==> s[k] < 128) ==> !FirstDecision(s, fn).1
    decreases |s|
  {
    if s != [] && forall k :: 0 <= k < |s| ==> s[k] < 128 {
      var e := LineEnd(s, 0);
      if e < |s| {
        AsciiNeverTrips(s[e + 1..], fn);
      }
    }
  }

  // ----- contents put together from whole lines

  predicate Terminated(s: seq<Byte>) {
    s == [] || s[|s| - 1] == NL
  }

  /** Behind whole lines without a decision, the search goes on from scratch. */
  lemma {:induction false} SearchConcat(v: (seq<Byte>, seq<Byte>) -> Verdict, a: seq<Byte>, b: seq<Byte>, fn: seq<Byte>)
    requires Terminated(a)
    ensures SearchWith(v, a + b, fn) ==
            if SearchWith(v, a, fn) == NotFound then Shift(SearchWith(v, b, fn), |a|) else SearchWith(v, a, fn)
    decreases |a|
  {
    if a == [] {
      assert a + b == b;
    } else {
      var e := LineEnd(a, 0);
      var line, rest := a[..e], a[e + 1..];
      SearchConcat(v, rest, b, fn);
      assert a == line + [NL] + rest && a + b == line + [NL] + (rest + b);
      SearchLine(v, line, rest, fn);
      SearchLine(v, line, rest + b, fn);
    }
  }

  /** The search over `line` and whatever follows it. */
  lemma SearchLine(v: (seq<Byte>, seq<Byte>) -> Verdict, line: seq<Byte>, rest: seq<Byte>, fn: seq<Byte>)
    requires NL !in line
    ensures SearchWith(v, line + [NL] + rest, fn) ==
            match v(line, fn) case Hit(r) => Found(r, 0) case Abort => GivenUp
                              case Skip => Shift(SearchWith(v, rest, fn), |line| + 1)
    ensures line == [] || SearchWith(v, line, fn) ==
                          match v(line, fn) case Hit(r) => Found(r, 0) case Abort => GivenUp case Skip => NotFound
  {
    var s := line + [NL] + rest;
    LineEndIs(s, 0, |line|);
    assert s[..|line|] == line && s[|line| + 1..] == rest;
    if line != [] {
      LineEndIs(line, 0, |line|);
      assert line[..|line|] == line;
    }
  }

  lemma Reassociate<T>(a: seq<T>, b: seq<T>, c: seq<T>, d: seq<T>, e: seq<T>)
    ensures a + b + (c + d + e) == (a + b + c) + d + e
  {
  }

  /** Where a found entry stands: behind whole lines without a decision, a line
      that is a hit, and the rest of the file. */
  lemma {:induction false} FoundParts(v: (seq<Byte>, seq<Byte>) -> Verdict, s: seq<Byte>, fn: seq<Byte>)
    returns (before: seq<Byte>, line: seq<Byte>, rest: seq<Byte>)
    requires SearchWith(v, s, fn).Found?
    ensures s == before + line + rest && NL !in line && (rest == [] || rest[0] == NL)
    ensures Terminated(before) && SearchWith(v, before, fn) == NotFound
    ensures SearchWith(v, s, fn).pos == |before| && v(line, fn) == Hit(SearchWith(v, s, fn).r)
    decreases |s|
  {
    var e := LineEnd(s, 0);
    var first := s[..e];
    if v(first, fn) == Skip {
      var front;
      front, line, rest := FoundParts(v, s[e + 1..], fn);
      before := first + [NL] + front;
      assert s == first + [NL] + s[e + 1..];
      Reassociate(first, [NL], front, line, rest);
      SearchLine(v, first, front, fn);
    } else {
      before, line, rest := [], first, s[e..];
    }
  }

  /** A line with a rating character and such a byte right behind it ends the
      search, wherever it stands: all entries behind it are hidden. */
  lemma HighByteHidesEntries(before: seq<Byte>, c: Byte, b: Byte, rest: seq<Byte>, fn: seq<Byte>)
    requires Terminated(before) && Scan(before, fn) == NotFound && IsRating(c) && b >= 128
    ensures Scan(before + ([c, b] + rest), fn) == GivenUp
  {
    var t := [c, b] + rest;
    SearchConcat(ScanVerdict, before, t, fn);
    var line := t[..LineEnd(t, 0)];
    assert t[0] == c && t[1] == b;
    assert |line| >= 2 && line[0] == c && line[1] == b;
  }
}
