/** The order of a playlist's items (operator< in playlist.cc): directories
    first, then playlists, then the rest; numbers at the front of a path by their
    value.  strcoll is that of the C locale, which compares bytes. */
module PathOrder {
  import Bytes

  type Byte = Bytes.Byte

  datatype Kind = Other | Dir | Sound | Playlist

  datatype Item = Item(kind: Kind, path: seq<Byte>)

  const ZERO: Byte := 48
  const NINE: Byte := 57
  const SLASH: Byte := 47
  const UP: seq<Byte> := [46, 46, 47]

  predicate IsDigit(c: Byte) {
    ZERO <= c <= NINE
  }

  predicate StartsWithDigit(s: seq<Byte>) {
    s != [] && IsDigit(s[0])
  }

  /** `strcoll(a, b) < 0` */
  predicate Lex(a: seq<int>, b: seq<int>) {
    b != [] && (a == [] || a[0] < b[0] || (a[0] == b[0] && Lex(a[1..], b[1..])))
  }

  function Ints(s: seq<Byte>): (r: seq<int>)
    ensures |r| == |s|
  {
    if s == [] then [] else [s[0] as int] + Ints(s[1..])
  }

  function SkipZeros(s: seq<Byte>): (r: seq<Byte>)
    ensures |r| <= |s|
  {
    if s != [] && s[0] == ZERO then SkipZeros(s[1..]) else s
  }

  function CountDigits(s: seq<Byte>): (n: nat)
    ensures n <= |s|
  {
    if StartsWithDigit(s) then 1 + CountDigits(s[1..]) else 0
  }

  /** The two paths compared, both of items of the same standing. */
  predicate PathLess(a: seq<Byte>, b: seq<Byte>) {
    var sa, sb := SkipZeros(a), SkipZeros(b);
    if StartsWithDigit(a) && StartsWithDigit(b) && (StartsWithDigit(sa) || StartsWithDigit(sb)) then
      var na, nb := CountDigits(sa), CountDigits(sb);
      na < nb || (na == nb && Lex(Ints(sa), Ints(sb)))
    else
      Lex(Ints(a), Ints(b))
  }

  predicate IsUp(i: Item) {
    i.kind == Dir && i.path == UP
  }

  predicate Less(a: Item, b: Item) {
    if a.kind != b.kind && (a.kind == Dir || b.kind == Dir) then a.kind == Dir
    else if a.kind != b.kind && (a.kind == Playlist || b.kind == Playlist) then a.kind == Playlist
    else if IsUp(a) then true
    else if IsUp(b) then false
    else PathLess(a.path, b.path)
  }

  // A key for every item, so that the order is that of the keys.

  function Rank(i: Item): int {
    if IsUp(i) then 0 else if i.kind == Dir then 1 else if i.kind == Playlist then 2 else 3
  }

  /** A path that starts with a number: the number of its digits and then all that
      is left; without a digit other than zeros, the path as it is. */
  function PathKey(s: seq<Byte>): seq<int> {
    var t := SkipZeros(s);
    if StartsWithDigit(s) then
      if StartsWithDigit(t) then [ZERO as int, CountDigits(t)] + Ints(t) else [ZERO as int, 0] + Ints(s)
    else if s != [] && s[0] > NINE then [ZERO as int + 1] + Ints(s)
    else Ints(s)
  }

  function Key(i: Item): seq<int> {
    if IsUp(i) then [0] else [Rank(i)] + PathKey(i.path)
  }

  lemma {:induction false} LexIsStrict(a: seq<int>)
    ensures !Lex(a, a)
  {
    if a != [] {
      LexIsStrict(a[1..]);
    }
  }

  lemma {:induction false} LexIsTransitive(a: seq<int>, b: seq<int>, c: seq<int>)
    ensures Lex(a, b) && Lex(b, c) ==> Lex(a, c)
  {
    if Lex(a, b) && Lex(b, c) && a != [] && a[0] == b[0] == c[0] {
      LexIsTransitive(a[1..], b[1..], c[1..]);
    }
  }

  lemma {:induction false} LexIsTotal(a: seq<int>, b: seq<int>)
    ensures Lex(a, b) || Lex(b, a) || a == b
  {
    if a != [] && b != [] && a[0] == b[0] {
      LexIsTotal(a[1..], b[1..]);
      assert a == [a[0]] + a[1..] && b == [b[0]] + b[1..];
    }
  }

  lemma LexCons(x: int, a: seq<int>, y: int, b: seq<int>)
    ensures Lex([x] + a, [y] + b) <==> x < y || (x == y && Lex(a, b))
  {
    assert ([x] + a)[1..] == a && ([y] + b)[1..] == b;
  }

  lemma ZerosAreDigits(s: seq<Byte>)
    ensures StartsWithDigit(SkipZeros(s)) ==> StartsWithDigit(s)
    ensures CountDigits(s) == 0 <==> !StartsWithDigit(s)
  {
  }

  /** Before the digits, among them, or behind them. */
  function Group(s: seq<Byte>): int {
    if s == [] || s[0] < ZERO then -1 else if s[0] <= NINE then 0 else 1
  }

  /** The front of the key tells the group. */
  lemma KeyFront(s: seq<Byte>)
    ensures Group(s) == -1 ==> PathKey(s) == Ints(s) && (PathKey(s) == [] || PathKey(s)[0] < ZERO as int)
    ensures Group(s) >= 0 ==> PathKey(s) != [] && PathKey(s)[0] == ZERO as int + Group(s)
  {
    ZerosAreDigits(s);
  }

  lemma GroupsApart(a: seq<Byte>, b: seq<Byte>)
    ensures Group(a) != Group(b) ==> (Lex(Ints(a), Ints(b)) <==> Group(a) < Group(b))
    ensures Group(a) != Group(b) ==> (Lex(PathKey(a), PathKey(b)) <==> Group(a) < Group(b))
  {
    if Group(a) != Group(b) {
      KeyFront(a);
      KeyFront(b);
    }
  }

  /** What is compared after the number of digits. */
  function Tail(s: seq<Byte>): seq<Byte> {
    if StartsWithDigit(SkipZeros(s)) then SkipZeros(s) else s
  }

  lemma KeyOfNumber(s: seq<Byte>)
    requires Group(s) == 0
    ensures PathKey(s) == [ZERO as int] + ([CountDigits(SkipZeros(s))] + Ints(Tail(s)))
  {
    ZerosAreDigits(SkipZeros(s));
  }

  lemma LessOfNumbers(a: seq<Byte>, b: seq<Byte>)
    requires Group(a) == Group(b) == 0
    ensures var na, nb := CountDigits(SkipZeros(a)), CountDigits(SkipZeros(b));
            PathLess(a, b) <==> na < nb || (na == nb && Lex(Ints(Tail(a)), Ints(Tail(b))))
  {
    ZerosAreDigits(SkipZeros(a));
    ZerosAreDigits(SkipZeros(b));
  }

  lemma NumbersFirst(a: seq<Byte>, b: seq<Byte>)
    requires Group(a) == Group(b) == 0
    ensures PathLess(a, b) <==> Lex(PathKey(a), PathKey(b))
  {
    KeyOfNumber(a);
    KeyOfNumber(b);
    LessOfNumbers(a, b);
    KeysOfNumbers(CountDigits(SkipZeros(a)), Ints(Tail(a)), CountDigits(SkipZeros(b)), Ints(Tail(b)));
  }

  lemma KeysOfNumbers(na: int, ta: seq<int>, nb: int, tb: seq<int>)
    ensures Lex([ZERO as int] + ([na] + ta), [ZERO as int] + ([nb] + tb)) <==> na < nb || (na == nb && Lex(ta, tb))
  {
    LexCons(ZERO as int, [na] + ta, ZERO as int, [nb] + tb);
    LexCons(na, ta, nb, tb);
  }

  lemma PathOrderIsKeyOrder(a: seq<Byte>, b: seq<Byte>)
    ensures PathLess(a, b) <==> Lex(PathKey(a), PathKey(b))
  {
    if Group(a) != Group(b) {
      GroupsApart(a, b);
    } else if Group(a) == 0 {
      NumbersFirst(a, b);
    } else if Group(a) == 1 {
      LexCons(ZERO as int + 1, Ints(a), ZERO as int + 1, Ints(b));
    }
  }

  /** The comparison is that of the keys, unless both items are "../". */
  lemma LessIsKeyOrder(a: Item, b: Item)
    ensures (Less(a, b) <==> Lex(Key(a), Key(b))) <==> !(IsUp(a) && IsUp(b))
  {
    PathOrderIsKeyOrder(a.path, b.path);
    LexCons(Rank(a), if IsUp(a) then [] else PathKey(a.path), Rank(b), if IsUp(b) then [] else PathKey(b.path));
    assert [0] + [] == [0];
  }

  /** Directories come first, then playlists, then all the rest; "../" before the
      other directories. */
  lemma DirsThenPlaylists(a: Item, b: Item)
    ensures a.kind == Dir && b.kind != Dir ==> Less(a, b) && !Less(b, a)
    ensures a.kind == Playlist && b.kind != Dir && b.kind != Playlist ==> Less(a, b) && !Less(b, a)
    ensures IsUp(a) && b.kind == Dir && !IsUp(b) ==> Less(a, b) && !Less(b, a)
  {
  }

  /** Within these, paths that do not both start with a digit are in the order of
      their bytes: the first difference decides, and a front part comes first. */
  lemma PlainPaths(a: seq<Byte>, b: seq<Byte>)
    requires !StartsWithDigit(a) || !StartsWithDigit(b)
    ensures PathLess(a, b) <==> exists k: nat :: FirstDifference(a, b, k)
  {
    if PathLess(a, b) { var k := DifferenceOf(a, b); }
    if k: nat :| FirstDifference(a, b, k) { DifferenceDecides(a, b, k); }
  }

  predicate FirstDifference(a: seq<Byte>, b: seq<Byte>, k: nat) {
    k <= |a| && k < |b| && a[..k] == b[..k] && (k == |a| || a[k] < b[k])
  }

  lemma {:induction false} DifferenceOf(a: seq<Byte>, b: seq<Byte>) returns (k: nat)
    requires Lex(Ints(a), Ints(b))
    ensures FirstDifference(a, b, k)
  {
    if a == [] || a[0] != b[0] {
      k := 0;
    } else {
      k := DifferenceOf(a[1..], b[1..]);
      assert a[..k + 1] == [a[0]] + a[1..][..k] && b[..k + 1] == [b[0]] + b[1..][..k];
      k := k + 1;
    }
  }

  lemma {:induction false} DifferenceDecides(a: seq<Byte>, b: seq<Byte>, k: nat)
    requires FirstDifference(a, b, k)
    ensures Lex(Ints(a), Ints(b))
  {
    if k > 0 {
      assert a[..k][0] == a[0] && b[..k][0] == b[0];
      assert a[1..][..k - 1] == a[..k][1..] && b[1..][..k - 1] == b[..k][1..];
      DifferenceDecides(a[1..], b[1..], k - 1);
    }
  }

  predicate Tied(a: Item, b: Item) {
    !Less(a, b) && !Less(b, a)
  }

  /** What std::sort needs of a list: a strict weak order on the paths items are
      made with, which all start with '/'.  Of all paths, only "../" would break it. */
  lemma OrderIsStrictWeak(a: Item, b: Item, c: Item)
    ensures !Less(a, a) <==> !IsUp(a)
    ensures a.path != [] && a.path[0] == SLASH ==> !Less(a, a)
    ensures Less(a, b) && Less(b, c) ==> Less(a, c)
    ensures Tied(a, b) && Tied(b, c) ==> Tied(a, c)
    ensures !(IsUp(a) && IsUp(b)) ==> (Tied(a, b) <==> Key(a) == Key(b))
  {
    LessIsKeyOrder(a, a);
    LessIsKeyOrder(a, b);
    LessIsKeyOrder(b, a);
    LessIsKeyOrder(b, c);
    LessIsKeyOrder(c, b);
    LessIsKeyOrder(a, c);
    LessIsKeyOrder(c, a);
    LexIsStrict(Key(a));
    LexIsStrict(Key(b));
    LexIsTotal(Key(a), Key(b));
    LexIsTotal(Key(b), Key(c));
    if Lex(Key(a), Key(b)) && Lex(Key(b), Key(c)) {
      LexIsTransitive(Key(a), Key(b), Key(c));
    }
    if Lex(Key(a), Key(b)) && Lex(Key(b), Key(a)) {
      LexIsTransitive(Key(a), Key(b), Key(a));
    }
  }

  // The order of numbers.

  function Value(d: seq<Byte>): int {
    if d == [] then 0 else 10 * Value(d[..|d| - 1]) + (d[|d| - 1] as int - ZERO as int)
  }

  predicate AllDigits(d: seq<Byte>) {
    forall k :: 0 <= k < |d| ==> IsDigit(d[k])
  }

  function Pow10(n: nat): (p: nat)
    ensures p >= 1
  {
    if n == 0 then 1 else 10 * Pow10(n - 1)
  }

  lemma {:induction false} ValueBelow(d: seq<Byte>)
    ensures AllDigits(d) ==> 0 <= Value(d) < Pow10(|d|)
  {
    if d != [] && AllDigits(d) {
      ValueBelow(d[..|d| - 1]);
    }
  }

  lemma {:induction false} ValueAtLeast(d: seq<Byte>)
    requires AllDigits(d) && d != [] && d[0] != ZERO
    ensures Value(d) >= Pow10(|d| - 1)
  {
    if |d| > 1 {
      ValueAtLeast(d[..|d| - 1]);
    } else {
      assert Value(d[..0]) == 0;
    }
  }

  lemma {:induction false} Pow10Grows(m: nat, n: nat)
    ensures m <= n ==> Pow10(m) <= Pow10(n)
  {
    if m < n {
      Pow10Grows(m, n - 1);
    }
  }

  lemma {:induction false} LexLast(a: seq<Byte>, x: Byte, b: seq<Byte>, y: Byte)
    requires |a| == |b|
    ensures Lex(Ints(a + [x]), Ints(b + [y])) <==> Lex(Ints(a), Ints(b)) || (a == b && x < y)
  {
    if a == [] {
      assert Ints(a + [x]) == [x as int] && Ints(b + [y]) == [y as int];
    } else {
      LexLast(a[1..], x, b[1..], y);
      assert (a + [x])[1..] == a[1..] + [x] && (b + [y])[1..] == b[1..] + [y];
      assert a == [a[0]] + a[1..] && b == [b[0]] + b[1..];
      LexCons(a[0] as int, Ints(a[1..] + [x]), b[0] as int, Ints(b[1..] + [y]));
      LexCons(a[0] as int, Ints(a[1..]), b[0] as int, Ints(b[1..]));
    }
  }

  lemma {:induction false} SameLengthByValue(a: seq<Byte>, b: seq<Byte>)
    requires AllDigits(a) && AllDigits(b) && |a| == |b|
    ensures Lex(Ints(a), Ints(b)) <==> Value(a) < Value(b)
    ensures Value(a) == Value(b) <==> a == b
  {
    if a != [] {
      var fa, fb := a[..|a| - 1], b[..|b| - 1];
      SameLengthByValue(fa, fb);
      LexLast(fa, a[|a| - 1], fb, b[|b| - 1]);
      assert a == fa + [a[|a| - 1]] && b == fb + [b[|b| - 1]];
    }
  }

  lemma FewerDigits(a: seq<Byte>, b: seq<Byte>)
    requires AllDigits(a) && AllDigits(b) && b != [] && b[0] != ZERO && |a| < |b|
    ensures Value(a) < Value(b)
  {
    ValueBelow(a);
    ValueAtLeast(b);
    Pow10Grows(|a|, |b| - 1);
  }

  /** Numbers without leading zeros: more digits or, with as many, the greater in
      the order of their bytes, is the greater number. */
  lemma NumbersByValue(a: seq<Byte>, b: seq<Byte>)
    requires AllDigits(a) && AllDigits(b) && a != [] && b != [] && a[0] != ZERO && b[0] != ZERO
    ensures |a| < |b| || (|a| == |b| && Lex(Ints(a), Ints(b))) <==> Value(a) < Value(b)
  {
    if |a| < |b| {
      FewerDigits(a, b);
    } else if |a| > |b| {
      FewerDigits(b, a);
    } else {
      SameLengthByValue(a, b);
    }
  }

  predicate IsNumber(d: seq<Byte>) {
    AllDigits(d) && d != [] && d[0] != ZERO
  }

  function Zeros(n: nat): seq<Byte> {
    if n == 0 then [] else [ZERO] + Zeros(n - 1)
  }

  lemma {:induction false} SkipsZeros(n: nat, s: seq<Byte>)
    requires s != [] && s[0] != ZERO
    ensures SkipZeros(Zeros(n) + s) == s
    ensures IsDigit(s[0]) ==> StartsWithDigit(Zeros(n) + s)
  {
    if n == 0 {
      assert Zeros(n) + s == s;
    } else {
      SkipsZeros(n - 1, s);
      assert (Zeros(n) + s)[1..] == Zeros(n - 1) + s;
    }
  }

  lemma {:induction false} CountsDigits(d: seq<Byte>, rest: seq<Byte>)
    requires AllDigits(d) && !StartsWithDigit(rest)
    ensures CountDigits(d + rest) == |d|
  {
    if d == [] {
      assert d + rest == rest;
    } else {
      CountsDigits(d[1..], rest);
      assert (d + rest)[1..] == d[1..] + rest;
    }
  }

  lemma {:induction false} LexConcat(a: seq<Byte>, ra: seq<Byte>, b: seq<Byte>, rb: seq<Byte>)
    requires |a| == |b|
    ensures Lex(Ints(a + ra), Ints(b + rb)) <==> Lex(Ints(a), Ints(b)) || (a == b && Lex(Ints(ra), Ints(rb)))
  {
    if a == [] {
      assert a + ra == ra && b + rb == rb;
    } else {
      LexConcat(a[1..], ra, b[1..], rb);
      assert (a + ra)[1..] == a[1..] + ra && (b + rb)[1..] == b[1..] + rb;
      assert a == [a[0]] + a[1..] && b == [b[0]] + b[1..];
      LexCons(a[0] as int, Ints(a[1..] + ra), b[0] as int, Ints(b[1..] + rb));
      LexCons(a[0] as int, Ints(a[1..]), b[0] as int, Ints(b[1..]));
    }
  }

  /** Paths that start with numbers, leading zeros or not, are in the order of the
      numbers, and with the same number in the order of what follows it. */
  lemma NumberedPaths(za: nat, da: seq<Byte>, ra: seq<Byte>, zb: nat, db: seq<Byte>, rb: seq<Byte>)
    requires IsNumber(da) && IsNumber(db) && !StartsWithDigit(ra) && !StartsWithDigit(rb)
    ensures PathLess(Zeros(za) + (da + ra), Zeros(zb) + (db + rb))
       <==> Value(da) < Value(db) || (Value(da) == Value(db) && Lex(Ints(ra), Ints(rb)))
  {
    SkipsZeros(za, da + ra);
    SkipsZeros(zb, db + rb);
    NumbersThenRest(da, ra, db, rb);
  }

  lemma NumbersThenRest(da: seq<Byte>, ra: seq<Byte>, db: seq<Byte>, rb: seq<Byte>)
    requires IsNumber(da) && IsNumber(db) && !StartsWithDigit(ra) && !StartsWithDigit(rb)
    ensures var na, nb := CountDigits(da + ra), CountDigits(db + rb);
            (na < nb || (na == nb && Lex(Ints(da + ra), Ints(db + rb))))
            <==> (Value(da) < Value(db) || (Value(da) == Value(db) && Lex(Ints(ra), Ints(rb))))
  {
    CountsDigits(da, ra);
    CountsDigits(db, rb);
    if |da| < |db| {
      FewerDigits(da, db);
    } else if |da| > |db| {
      FewerDigits(db, da);
    } else {
      LexConcat(da, ra, db, rb);
      SameLengthByValue(da, db);
    }
  }

  // The code.

  method LessThan(a: Item, b: Item) returns (r: bool)
    ensures r == Less(a, b)
  {
    if a.kind != b.kind {
      if a.kind == Dir { return true; }
      if b.kind == Dir { return false; }
      if a.kind == Playlist { return true; }
      if b.kind == Playlist { return false; }
    }
    if a.kind == Dir {
      if a.path == UP { return true; }
      if b.path == UP { return false; }
    }
    r := ComparePaths(a.path, b.path);
  }

  method ComparePaths(a: seq<Byte>, b: seq<Byte>) returns (r: bool)
    ensures r == PathLess(a, b)
  {
    if StartsWithDigit(a) && StartsWithDigit(b) {
      var sa := PastZeros(a);
      var sb := PastZeros(b);
      if StartsWithDigit(sa) || StartsWithDigit(sb) {
        var na := DigitsOf(sa);
        var nb := DigitsOf(sb);
        if na < nb { return true; }
        if na > nb { return false; }
        var k := 0;
        assert sa[0..] == sa && sb[0..] == sb;
        while k < na
          invariant k <= na
          invariant Lex(Ints(sa), Ints(sb)) == Lex(Ints(sa[k..]), Ints(sb[k..]))
        {
          assert sa[k..][1..] == sa[k + 1..] && sb[k..][1..] == sb[k + 1..];
          LexCons(sa[k] as int, Ints(sa[k + 1..]), sb[k] as int, Ints(sb[k + 1..]));
          if sa[k] < sb[k] { return true; }
          if sa[k] > sb[k] { return false; }
          k := k + 1;
        }
        return Lex(Ints(sa[k..]), Ints(sb[k..]));
      }
    }
    return Lex(Ints(a), Ints(b));
  }

  method PastZeros(s: seq<Byte>) returns (t: seq<Byte>)
    ensures t == SkipZeros(s)
  {
    t := s;
    while t != [] && t[0] == ZERO
      invariant SkipZeros(t) == SkipZeros(s)
    {
      t := t[1..];
    }
  }

  method DigitsOf(s: seq<Byte>) returns (n: nat)
    ensures n == CountDigits(s)
  {
    n := 0;
    assert s[0..] == s;
    while n < |s| && IsDigit(s[n])
      invariant n <= |s| && CountDigits(s) == n + CountDigits(s[n..])
    {
      assert s[n..][1..] == s[n + 1..];
      n := n + 1;
    }
  }
}
