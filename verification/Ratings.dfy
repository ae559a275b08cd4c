/** The chunked scanner of the ratings file (server/ratings.cc). */
module Ratings {
  import opened RatingsSpec
  import opened Wrappers

  // find_rating reads chunks of any size.  What it finds is the line-by-line search of
  // `RatingsSpec`; where it says it found it depends on how it read the chunks.

  type ChunkSize = n: nat | n > 0 witness 1

  /** An unsigned byte stored in a (signed) char. */
  function AsChar(c: int): int {
    if c >= 128 then c - 256 else c
  }

  // ----- which chunks the scanner loses count of

  /** Start of the line that the offset `x` is in. */
  function LineStart(s: seq<Byte>, x: nat): (i: nat)
    requires x <= |s|
    ensures i <= x && (i == 0 || s[i - 1] == NL) && forall k :: i <= k < x ==> s[k] != NL
  {
    if x == 0 || s[x - 1] == NL then x else LineStart(s, x - 1)
  }

  lemma LineStartIs(s: seq<Byte>, x: nat, i: nat)
    requires i <= x <= |s| && (i == 0 || s[i - 1] == NL) && forall k :: i <= k < x ==> s[k] != NL
    ensures LineStart(s, x) == i
  {
  }

  /** The bytes that find_rating gets one by one: the first one of a line, the one
      behind a rating character, and the one behind the name.  All others it
      passes over in blocks. */
  predicate ByGetC(s: seq<Byte>, fn: seq<Byte>, x: nat)
    requires x < |s|
  {
    var i := LineStart(s, x);
    || x == i
    || (x == i + 1 && IsRating(s[i]))
    || (x == i + 2 + |fn| && IsRating(s[i]) && s[i + 1] == SPACE && MatchesAt(s, i + 2, fn))
  }

  /** `fpos` is kept only when a chunk is read to get one byte.  Sizes of the other
      chunks that start at `q` or a whole number of chunks behind, in front of `t`. */
  function LagFrom(s: seq<Byte>, fn: seq<Byte>, bufSize: ChunkSize, q: nat, t: nat): nat
    decreases if q < |s| then |s| - q else 0
  {
    if q >= t || q >= |s| then 0
    else (if ByGetC(s, fn, q) then 0 else Min(bufSize, |s| - q)) + LagFrom(s, fn, bufSize, q + bufSize, t)
  }

  /** What the position reported for an entry at `pos` falls short by. */
  function Lag(s: seq<Byte>, fn: seq<Byte>, bufSize: ChunkSize, pos: nat): nat {
    LagFrom(s, fn, bufSize, 0, pos + 2 + |fn|)
  }

  function ChunkStart(bufSize: nat, k: nat): nat {
    if k == 0 then 0 else ChunkStart(bufSize, k - 1) + bufSize
  }

  /** It falls short by nothing exactly if every chunk in front of the end of the
      entry, but for the first, starts with a byte that is read on its own. */
  lemma NoLagIff(s: seq<Byte>, fn: seq<Byte>, bufSize: ChunkSize, pos: nat)
    ensures Lag(s, fn, bufSize, pos) == 0 <==>
              forall k: nat :: ChunkStart(bufSize, k) < pos + 2 + |fn| && ChunkStart(bufSize, k) < |s| ==>
                ByGetC(s, fn, ChunkStart(bufSize, k))
  {
    NoLagFromIff(s, fn, bufSize, 0, pos + 2 + |fn|);
  }

  lemma {:induction false} NoLagFromIff(s: seq<Byte>, fn: seq<Byte>, bufSize: ChunkSize, c: nat, t: nat)
    ensures LagFrom(s, fn, bufSize, ChunkStart(bufSize, c), t) == 0 <==>
              forall k: nat :: c <= k && ChunkStart(bufSize, k) < t && ChunkStart(bufSize, k) < |s| ==>
                ByGetC(s, fn, ChunkStart(bufSize, k))
    decreases if ChunkStart(bufSize, c) < |s| then |s| - ChunkStart(bufSize, c) else 0
  {
    var q := ChunkStart(bufSize, c);
    if q < t && q < |s| {
      assert ChunkStart(bufSize, c + 1) == q + bufSize;
      NoLagFromIff(s, fn, bufSize, c + 1, t);
    } else {
      forall k: nat | c <= k
        ensures ChunkStart(bufSize, k) >= q
      {
        ChunkStartGrows(bufSize, c, k);
      }
    }
  }

  lemma {:induction false} ChunkStartGrows(bufSize: nat, c: nat, k: nat)
    requires c <= k
    ensures ChunkStart(bufSize, c) <= ChunkStart(bufSize, k)
  {
    if c < k {
      ChunkStartGrows(bufSize, c, k - 1);
    }
  }

  /** An entry in the first chunk is reported right, however long the file. */
  lemma FirstChunkHasNoLag(s: seq<Byte>, fn: seq<Byte>, bufSize: ChunkSize, pos: nat)
    requires pos + 2 + |fn| <= bufSize || |s| <= bufSize
    ensures Lag(s, fn, bufSize, pos) == 0
  {
    if s != [] {
      LineStartIs(s, 0, 0);
      assert LagFrom(s, fn, bufSize, bufSize, pos + 2 + |fn|) == 0;
    }
  }

  /** A comment as long as a chunk in front of "3 a": the position reported is short
      by the five bytes of the second chunk, within the comment. */
  lemma LongFirstLineLags(bufSize: nat, comment: seq<Byte>, s: seq<Byte>, fn: seq<Byte>)
    requires bufSize >= 5 && |comment| == bufSize && NL !in comment && !IsRating(comment[0])
    requires fn == [97] && s == comment + [NL, ZERO + 3, SPACE, 97, NL]
    ensures Scan(s, fn) == Found(3, bufSize + 1) && Lag(s, fn, bufSize, bufSize + 1) == 5
  {
    var e := [ZERO + 3, SPACE, 97];
    LineEndIs(e + [NL], 0, 3);
    assert (e + [NL])[..3] == e && e[2..] == fn;
    assert s == comment + [NL] + (e + [NL]);
    SearchLine(ScanVerdict, comment, e + [NL], fn);
    LineStartIs(s, 0, 0);
    LineStartIs(s, bufSize, 0);
    assert s[0] == comment[0];
    assert LagFrom(s, fn, bufSize, bufSize + bufSize, bufSize + 4) == 0;
    assert LagFrom(s, fn, bufSize, bufSize, bufSize + 4) == 5;
  }

  /** `p` is a whole number of chunks behind `q`. */
  predicate Aligned(bufSize: ChunkSize, q: nat, p: nat)
    decreases p - q
  {
    q == p || (q + bufSize <= p && Aligned(bufSize, q + bufSize, p))
  }

  /** The chunks up to the one that starts at `start` account for `lost` bytes. */
  predicate Accounted(s: seq<Byte>, fn: seq<Byte>, bufSize: ChunkSize, start: nat, lost: nat) {
    Aligned(bufSize, 0, start) && lost == LagFrom(s, fn, bufSize, 0, start + 1)
  }

  lemma {:induction false} NextAligned(s: seq<Byte>, fn: seq<Byte>, bufSize: ChunkSize, q: nat, start: nat)
    requires Aligned(bufSize, q, start) && start + bufSize < |s|
    ensures Aligned(bufSize, q, start + bufSize)
    ensures LagFrom(s, fn, bufSize, q, start + bufSize + 1)
         == LagFrom(s, fn, bufSize, q, start + 1)
            + if ByGetC(s, fn, start + bufSize) then 0 else Min(bufSize, |s| - (start + bufSize))
    decreases start - q
  {
    if q < start {
      NextAligned(s, fn, bufSize, q + bufSize, start);
    } else {
      assert LagFrom(s, fn, bufSize, q + bufSize, start + 1) == 0;
      assert LagFrom(s, fn, bufSize, q + bufSize + bufSize, start + bufSize + 1) == 0;
    }
  }

  lemma NextAccounted(s: seq<Byte>, fn: seq<Byte>, bufSize: ChunkSize, start: nat, next: nat, lost: nat)
    requires next < |s|
    requires if next == 0 then lost == 0 else next == start + bufSize && Accounted(s, fn, bufSize, start, lost)
    ensures Accounted(s, fn, bufSize, next, lost + if ByGetC(s, fn, next) then 0 else Min(bufSize, |s| - next))
  {
    if next == 0 {
      assert LagFrom(s, fn, bufSize, bufSize, 1) == 0;
    } else {
      NextAligned(s, fn, bufSize, 0, start);
    }
  }

  /** Within a chunk nothing is added. */
  lemma {:induction false} LagWithin(s: seq<Byte>, fn: seq<Byte>, bufSize: ChunkSize, q: nat, start: nat, t: nat)
    requires Aligned(bufSize, q, start) && start < t <= start + bufSize
    ensures LagFrom(s, fn, bufSize, q, t) == LagFrom(s, fn, bufSize, q, start + 1)
    decreases start - q
  {
    if q < start {
      LagWithin(s, fn, bufSize, q + bufSize, start, t);
    } else {
      assert LagFrom(s, fn, bufSize, q + bufSize, t) == LagFrom(s, fn, bufSize, q + bufSize, start + 1) == 0;
    }
  }

  // ----- the scanner

  /** find_rating's view of an open file: the file position, the unread part of
      the last chunk, and `fpos`, which only GETC keeps up to date. */
  class Reader {
    const content: seq<Byte>
    const fn: seq<Byte>
    const bufSize: ChunkSize
    var pos: nat
    var chunk: seq<Byte>
    var fpos: nat
    /** Where the last chunk starts, and the bytes that `fpos` misses so far. */
    ghost var start: nat
    ghost var lost: nat

    constructor (content: seq<Byte>, fn: seq<Byte>, bufSize: ChunkSize)
      ensures this.content == content && this.fn == fn && this.bufSize == bufSize
      ensures Valid() && At() == 0 && OnTrack()
    {
      this.content, this.fn, this.bufSize := content, fn, bufSize;
      pos, chunk, fpos, start, lost := 0, [], 0, 0, 0;
    }

    ghost predicate Valid()
      reads this
    {
      && fpos <= pos
      && (if pos == 0 then start == 0 else start < pos == Min(start + bufSize, |content|))
      && |chunk| <= pos - start
      && forall x :: pos - |chunk| <= x < pos ==> content[x] == chunk[x - (pos - |chunk|)]
    }

    /** The offset of the next byte. */
    ghost function At(): nat
      reads this
      requires Valid()
    {
      pos - |chunk|
    }

    /** `fpos` lags behind by the chunks read so far other than through GETC. */
    ghost predicate OnTrack()
      reads this
    {
      fpos + lost == pos && (if pos == 0 then lost == 0 else Accounted(content, fn, bufSize, start, lost))
    }

    /** The next byte, if there is one, is one that GETC is used for. */
    ghost predicate AtGetC()
      reads this
      requires Valid()
    {
      At() < |content| ==> ByGetC(content, fn, At())
    }

    /** fread of one chunk; the old one is used up. */
    method Fread()
      requires Valid() && chunk == []
      modifies this`pos, this`chunk, this`start
      ensures Valid() && At() == old(At()) && (chunk == [] <==> At() == |content|)
      ensures old(pos) < |content| ==> start == old(pos) && |chunk| == Min(bufSize, |content| - start)
      ensures old(pos) >= |content| ==> start == old(start)
      ensures pos == old(pos) + |chunk|
    {
      var k := Min(bufSize, |content| - pos);
      if k > 0 {
        start := pos;
      }
      chunk := content[pos..pos + k];
      pos := pos + k;
    }

    method GetC() returns (c: int)
      requires Valid() && OnTrack() && AtGetC()
      modifies this
      ensures Valid() && OnTrack()
      ensures c == (if old(At()) == |content| then -1 else content[old(At())] as int)
      ensures At() == (if old(At()) == |content| then |content| else old(At()) + 1)
      ensures c != -1 ==> pos > 0
      ensures old(pos) > 0 ==> pos > 0
    {
      if chunk == [] {
        ghost var before := pos;
        Fread();
        fpos := fpos + |chunk|;
        if chunk == [] { return -1; }
        NextAccounted(content, fn, bufSize, old(start), before, old(lost));
      }
      c := chunk[0] as int;
      chunk := chunk[1..];
    }

    /** A chunk read while passing over bytes in a block. */
    method Refill()
      requires Valid() && OnTrack() && pos > 0 && chunk == []
      requires At() < |content| ==> !ByGetC(content, fn, At())
      modifies this`pos, this`chunk, this`start, this`lost
      ensures Valid() && OnTrack() && pos > 0 && At() == old(At()) && (chunk == [] <==> At() == |content|)
    {
      ghost var before := pos;
      Fread();
      if chunk != [] {
        NextAccounted(content, fn, bufSize, old(start), before, old(lost));
        lost := lost + |chunk|;
      }
    }

    ghost predicate NoNewline(from: nat)
      reads this
      requires Valid()
    {
      from <= At() && forall k :: from <= k < At() ==> content[k] != NL
    }

    /** memchr for the newline in the chunk; without one the chunk is used up. */
    method FindInChunk(ghost from: nat) returns (found: bool)
      requires Valid() && NoNewline(from)
      modifies this`chunk
      ensures Valid() && (old(chunk) == [] ==> !found)
      ensures found ==> LineEnd(content, from) < |content| && At() == LineEnd(content, from) + 1
      ensures !found ==> chunk == [] && NoNewline(from)
    {
      var e := IndexOf(chunk, NL);
      if e >= 0 {
        LineEndIs(content, from, At() + e);
        chunk := chunk[e + 1..];
        return true;
      }
      assert forall x :: At() <= x < pos ==> content[x] != NL;
      chunk := [];
      return false;
    }

    /** Leaves the rest of the line behind: to the byte after the next newline. */
    method SkipLine() returns (eof: bool)
      requires Valid() && OnTrack() && pos > 0
      requires forall x :: At() <= x <= LineEnd(content, At()) && x < |content| ==> !ByGetC(content, fn, x)
      modifies this
      ensures Valid() && OnTrack() && pos > 0
      ensures var e := LineEnd(content, old(At()));
              eof == (e == |content|) && At() == (if eof then |content| else e + 1)
    {
      ghost var from := At();
      while true
        invariant Valid() && OnTrack() && pos > 0 && NoNewline(from)
        decreases |content| - At(), chunk == []
      {
        var found := FindInChunk(from);
        if found { return false; }
        LineEndLater(content, from, At());
        Refill();
        if chunk == [] {
          LineEndIs(content, from, |content|);
          return true;
        }
      }
    }

    /** memcmp of what is left of the name with what the chunk holds of it; on
        success both are stepped over. */
    method CompareChunk(k: nat, ghost from: nat) returns (same: bool, k': nat)
      requires Valid() && k < |fn| && At() == from + k
      modifies this`chunk
      ensures Valid() && k <= k' <= |fn| && At() == from + k'
      ensures !same ==> k' == k && !MatchesAt(content, from, fn)
      ensures same && AgreesUpTo(content, from, fn, k) ==> AgreesUpTo(content, from, fn, k')
      ensures same && k' < |fn| ==> chunk == []
      ensures old(chunk) != [] && same ==> k < k'
    {
      var ncmp := Min(|fn| - k, |chunk|);
      ghost var at, c := At(), chunk;
      if fn[k..k + ncmp] != chunk[..ncmp] {
        ghost var j :| 0 <= j < ncmp && fn[k..k + ncmp][j] != c[..ncmp][j];
        assert content[at + j] != fn[at + j - from];
        return false, k;
      }
      forall x | at <= x < at + ncmp
        ensures content[x] == fn[x - from]
      {
        assert fn[k..k + ncmp][x - at] == chunk[..ncmp][x - at];
      }
      chunk := chunk[ncmp..];
      return true, k + ncmp;
    }

    /** The rating and the space of an entry at `i` have been read. */
    ghost predicate AtName(i: nat)
      reads this
      requires Valid()
    {
      pos > 0 && IsName(fn) && At() == i + 2 && StartsEntry(content, i)
    }

    /** Looks for the name at the current position, refilling as needed. */
    method MatchName(ghost i: nat) returns (matched: bool, eof: bool)
      requires Valid() && OnTrack() && AtName(i)
      modifies this`pos, this`chunk, this`start, this`lost
      ensures Valid() && OnTrack() && pos > 0 && fpos == old(fpos)
      ensures At() >= i + 2 && AgreesUpTo(content, i + 2, fn, At() - (i + 2))
      ensures matched <==> MatchesAt(content, i + 2, fn)
      ensures matched ==> At() == i + 2 + |fn| && !eof && start < At()
      ensures eof ==> At() == |content|
    {
      ghost var from := At();
      var k := 0;
      while true
        invariant Valid() && OnTrack() && pos > 0 && fpos == old(fpos)
        invariant 0 <= k < |fn| && At() == from + k && AgreesUpTo(content, from, fn, k)
        decreases |fn| - k, chunk == []
      {
        var more;
        more, matched, eof, k := MatchChunk(i, k);
        if !more { return; }
      }
    }

    /** One round of the comparison: this chunk, and the next one if it is used up. */
    method MatchChunk(ghost i: nat, k: nat) returns (more: bool, matched: bool, eof: bool, k': nat)
      requires Valid() && OnTrack() && IsName(fn) && pos > 0 && k < |fn|
      requires StartsEntry(content, i) && At() == i + 2 + k && AgreesUpTo(content, i + 2, fn, k)
      modifies this`pos, this`chunk, this`start, this`lost
      ensures Valid() && OnTrack() && pos > 0 && fpos == old(fpos)
      ensures At() == i + 2 + k' && AgreesUpTo(content, i + 2, fn, k')
      ensures more ==> k <= k' < |fn| && !matched && (k < k' || (old(chunk) == [] && chunk != []))
      ensures !more && !matched ==> !MatchesAt(content, i + 2, fn) && (eof ==> At() == |content|)
      ensures matched ==> !more && !eof && k' == |fn| && start < At()
    {
      var same;
      same, k' := CompareChunk(k, i + 2);
      if !same { return false, false, false, k'; }
      if k' == |fn| { return false, true, false, k'; }
      InsideName(content, fn, i, k');
      Refill();
      more, matched, eof := chunk != [], false, chunk == [];
    }
  }

  /** A chunk that starts within the name is not read through GETC. */
  lemma InsideName(s: seq<Byte>, fn: seq<Byte>, i: nat, k: nat)
    requires StartsEntry(s, i) && NL !in fn && AgreesUpTo(s, i + 2, fn, k)
    ensures forall x :: i + 2 <= x < i + 2 + k ==> s[x] != NL
    ensures i + 2 + k < |s| && k < |fn| ==> !ByGetC(s, fn, i + 2 + k)
  {
    LineStartIs(s, i + 2 + k, i);
  }

  /** Neither is one that starts in the rest of a line that is skipped. */
  lemma InsideRest(s: seq<Byte>, fn: seq<Byte>, i: nat, at: nat)
    requires i < |s| && i < at <= LineEnd(s, i) && (i == 0 || s[i - 1] == NL)
    requires IsRating(s[i]) ==> at >= i + 2
    requires IsRating(s[i]) && s[i + 1] == SPACE && MatchesAt(s, i + 2, fn) ==> at > i + 2 + |fn|
    ensures forall x :: at <= x <= LineEnd(s, at) && x < |s| ==> !ByGetC(s, fn, x)
  {
    LineEndLater(s, i, at);
    forall x | at <= x <= LineEnd(s, at) && x < |s|
      ensures !ByGetC(s, fn, x)
    {
      LineStartIs(s, x, i);
    }
  }

  /** A line starts at `i`, with a rating and a space. */
  predicate StartsEntry(s: seq<Byte>, i: nat) {
    i + 2 <= |s| && (i == 0 || s[i - 1] == NL) && IsRating(s[i]) && s[i + 1] == SPACE
  }

  /** The first `k` bytes of the name stand at `from`. */
  predicate AgreesUpTo(s: seq<Byte>, from: nat, fn: seq<Byte>, k: nat) {
    from + k <= |s| && k <= |fn| && forall x :: from <= x < from + k ==> s[x] == fn[x - from]
  }

  predicate MatchesAt(s: seq<Byte>, i: int, fn: seq<Byte>) {
    0 <= i && i + |fn| <= |s| && forall x :: i <= x < i + |fn| ==> s[x] == fn[x - i]
  }

  function IndexOf(s: seq<Byte>, b: Byte): (r: int)
    ensures r == -1 || (0 <= r < |s| && s[r] == b && forall k :: 0 <= k < r ==> s[k] != b)
    ensures r == -1 ==> b !in s
  {
    if s == [] then -1
    else if s[0] == b then 0
    else
      var r := IndexOf(s[1..], b);
      if r == -1 then -1 else r + 1
  }

  // ----- one line of the search

  lemma LineEndLater(s: seq<Byte>, i: nat, j: nat)
    requires i <= j <= |s| && forall k :: i <= k < j ==> s[k] != NL
    ensures LineEnd(s, i) == LineEnd(s, j)
  {
    LineEndIs(s, i, LineEnd(s, j));
  }

  lemma ScanStep(s: seq<Byte>, i: nat, fn: seq<Byte>)
    requires i < |s|
    ensures var e := LineEnd(s, i);
            Scan(s[i..], fn) ==
            match ScanVerdict(s[i..e], fn)
            case Hit(r) => Found(r, 0)
            case Abort => GivenUp
            case Skip => if e == |s| then NotFound else Shift(Scan(s[e + 1..], fn), e + 1 - i)
  {
    var e := LineEnd(s, i);
    assert forall k :: 0 <= k < e - i ==> s[i..][k] == s[i + k];
    LineEndIs(s[i..], 0, e - i);
    assert s[i..][..e - i] == s[i..e];
    if e < |s| { assert s[i..][e - i + 1..] == s[e + 1..]; }
  }

  /** The name stands at offset 2 of the line at `i`. */
  lemma NameInLine(s: seq<Byte>, i: nat, fn: Name)
    requires i + 2 <= |s| && LineEnd(s, i) >= i + 2
    ensures var line := s[i..LineEnd(s, i)];
            && |line| >= 2 && line[0] == s[i] && line[1] == s[i + 1]
            && (fn <= line[2..] <==> MatchesAt(s, i + 2, fn))
            && (MatchesAt(s, i + 2, fn) ==>
                  && LineEnd(s, i) >= i + 2 + |fn|
                  && LineEnd(s, i) == LineEnd(s, i + 2 + |fn|)
                  && (|line| > 2 + |fn| ==> line[2 + |fn|] == s[i + 2 + |fn|]))
  {
    var e := LineEnd(s, i);
    var line := s[i..e];
    if MatchesAt(s, i + 2, fn) {
      forall x | i <= x < i + 2 + |fn|
        ensures s[x] != NL
      {
        if x >= i + 2 { assert s[x] == fn[x - (i + 2)]; }
      }
      LineEndLater(s, i, i + 2 + |fn|);
      assert |line| >= 2 + |fn|;
      forall y | 0 <= y < |fn|
        ensures line[2..][y] == fn[y]
      {
        assert s[i + 2 + y] == fn[i + 2 + y - (i + 2)];
      }
    }
    if fn <= line[2..] {
      forall x | i + 2 <= x < i + 2 + |fn|
        ensures s[x] == fn[x - (i + 2)]
      {
        assert line[2..][x - (i + 2)] == s[x];
      }
    }
  }

  /** The scanner's verdict on the line at `i`, in terms of offsets. */
  lemma VerdictAt(s: seq<Byte>, i: nat, fn: Name) returns (v: Verdict)
    requires i < |s|
    ensures v == ScanVerdict(s[i..LineEnd(s, i)], fn)
    ensures s[i] == NL || !IsRating(s[i]) || i + 1 == |s| || s[i + 1] == NL ==> v == Skip
    ensures IsRating(s[i]) && i + 1 < |s| && s[i + 1] != NL ==>
              v == if s[i + 1] >= 128 then Abort
                   else if s[i + 1] != SPACE || !MatchesAt(s, i + 2, fn) then Skip
                   else if i + 2 + |fn| == |s| || s[i + 2 + |fn|] == NL || s[i + 2 + |fn|] >= 128 then Hit((s[i] - ZERO) as int)
                   else Skip
  {
    var e := LineEnd(s, i);
    v := ScanVerdict(s[i..e], fn);
    if IsRating(s[i]) && i + 1 < |s| && s[i + 1] != NL {
      LineEndLater(s, i, i + 2);
      NameInLine(s, i, fn);
    } else if IsRating(s[i]) {
      LineEndIs(s, i, i + 1);
    }
  }

  /** What a turn of the outer loop came to: a decision, the end of the file, the
      start of the next line, or the middle of a line to be skipped. */
  datatype Turn = Decided(v: Verdict) | AtEof | NextLine | MidLine

  /** Behind the rating and the space: the name, and the position to report. */
  method MatchEntry(f: Reader, ghost i: nat) returns (matched: bool, eof: bool, filepos: int)
    requires f.Valid() && f.OnTrack() && f.AtName(i)
    modifies f
    ensures f.Valid() && f.OnTrack() && f.pos > 0
    ensures f.At() >= i + 2 && AgreesUpTo(f.content, i + 2, f.fn, f.At() - (i + 2))
    ensures matched <==> MatchesAt(f.content, i + 2, f.fn)
    ensures matched ==> !eof && f.At() == i + 2 + |f.fn|
    ensures matched ==> filepos == i - Lag(f.content, f.fn, f.bufSize, i)
    ensures eof ==> f.At() == |f.content|
  {
    matched, eof := f.MatchName(i);
    filepos := f.fpos - |f.chunk| - |f.fn| - 2;
    if matched {
      LagWithin(f.content, f.fn, f.bufSize, 0, f.start, i + 2 + |f.fn|);
    }
  }

  /** The byte behind the name is read through GETC. */
  lemma BehindName(s: seq<Byte>, fn: seq<Byte>, i: nat)
    requires StartsEntry(s, i) && MatchesAt(s, i + 2, fn) && NL !in fn
    ensures i + 2 + |fn| < |s| ==> ByGetC(s, fn, i + 2 + |fn|)
  {
    NameHasNoNewline(s, i, fn);
    LineStartIs(s, i + 2 + |fn|, i);
  }

  /** Behind the rating and the space at `i` are the name and what ends a line, or
      is taken for the end of the file. */
  predicate IsEntry(s: seq<Byte>, i: nat, fn: seq<Byte>) {
    var at := i + 2 + |fn|;
    MatchesAt(s, i + 2, fn) && (at == |s| || s[at] == NL || s[at] >= 128)
  }

  lemma EntryVerdict(s: seq<Byte>, i: nat, fn: Name)
    requires i + 2 <= |s| && IsRating(s[i]) && s[i + 1] == SPACE
    ensures ScanVerdict(s[i..LineEnd(s, i)], fn) == if IsEntry(s, i, fn) then Hit((s[i] - ZERO) as int) else Skip
  {
    LineEndLater(s, i, i + 2);
    NameInLine(s, i, fn);
  }

  lemma ReadToEnd(s: seq<Byte>, i: nat)
    requires i + 2 <= |s| && s[i] != NL && s[i + 1] != NL && forall k :: i + 2 <= k < |s| ==> s[k] != NL
    ensures LineEnd(s, i) == |s|
  {
    LineEndIs(s, i, |s|);
  }

  /** Behind the rating at `i` and the space. */
  method ScanEntry(f: Reader, ghost i: nat) returns (matched: bool, eof: bool, filepos: int)
    requires f.Valid() && f.OnTrack() && f.AtName(i)
    modifies f
    ensures f.Valid() && f.OnTrack() && f.pos > 0
    ensures matched <==> IsEntry(f.content, i, f.fn)
    ensures matched ==> !eof && filepos == i - Lag(f.content, f.fn, f.bufSize, i)
    ensures eof ==> LineEnd(f.content, i) == |f.content|
    ensures !eof && !matched ==> i < f.At() <= LineEnd(f.content, i) && CanSkip(f.content, f.fn, f.At())
  {
    var same;
    same, eof, filepos := MatchEntry(f, i);
    InsideName(f.content, f.fn, i, f.At() - (i + 2));
    if eof {
      ReadToEnd(f.content, i);
      return false, true, filepos;
    }
    if same {
      matched := ScanBehind(f, i);
    } else {
      matched := false;
      LineEndLater(f.content, i, f.At());
      InsideRest(f.content, f.fn, i, f.At());
    }
  }

  /** Behind the name of the line at `i`. */
  method ScanBehind(f: Reader, ghost i: nat) returns (ends: bool)
    requires f.Valid() && f.OnTrack() && f.pos > 0
    requires StartsEntry(f.content, i) && NL !in f.fn
    requires MatchesAt(f.content, i + 2, f.fn) && f.At() == i + 2 + |f.fn|
    modifies f
    ensures f.Valid() && f.OnTrack() && f.pos > 0
    ensures ends <==> IsEntry(f.content, i, f.fn)
    ensures !ends ==> i < f.At() <= LineEnd(f.content, i) && CanSkip(f.content, f.fn, f.At())
  {
    BehindName(f.content, f.fn, i);
    ends := ByteBehind(f);
    if !ends {
      RestOfLine(f.content, f.fn, i);
    }
  }

  /** Behind the name and a byte that is no newline. */
  lemma RestOfLine(s: seq<Byte>, fn: seq<Byte>, i: nat)
    requires StartsEntry(s, i) && MatchesAt(s, i + 2, fn) && NL !in fn
    requires i + 2 + |fn| < |s| && s[i + 2 + |fn|] != NL
    ensures i + 3 + |fn| <= LineEnd(s, i) && CanSkip(s, fn, i + 3 + |fn|)
  {
    NameHasNoNewline(s, i, fn);
    LineEndLater(s, i, i + 3 + |fn|);
    InsideRest(s, fn, i, i + 3 + |fn|);
  }

  lemma NameHasNoNewline(s: seq<Byte>, i: nat, fn: seq<Byte>)
    requires i + 2 <= |s| && IsRating(s[i]) && s[i + 1] == SPACE && MatchesAt(s, i + 2, fn) && NL !in fn
    ensures forall x :: i <= x < i + 2 + |fn| ==> s[x] != NL
  {
    forall x | i + 2 <= x < i + 2 + |fn|
      ensures s[x] != NL
    {
      assert s[x] == fn[x - (i + 2)];
    }
  }

  /** Is what follows the name a newline, the end of the file, or taken for it? */
  method ByteBehind(f: Reader) returns (ends: bool)
    requires f.Valid() && f.OnTrack() && f.AtGetC() && f.pos > 0
    modifies f
    ensures f.Valid() && f.OnTrack() && f.pos > 0
    ensures var s, at := f.content, old(f.At());
            && ends == (at == |s| || s[at] == NL || s[at] >= 128)
            && (!ends ==> f.At() == at + 1)
  {
    var b := f.GetC();
    var c := if b == -1 then -1 else AsChar(b);
    ends := !(c >= 0 && c != NL as int);
  }

  /** Behind a rating character `c0` read at `i`. */
  method ScanRatingLine(f: Reader, c0: Byte, ghost i: nat) returns (t: Turn, filepos: int)
    requires f.Valid() && f.OnTrack() && f.pos > 0 && f.At() == i + 1 && IsName(f.fn)
    requires (i == 0 || f.content[i - 1] == NL) && f.content[i] == c0 && IsRating(c0)
    modifies f
    ensures f.Valid() && f.OnTrack() && f.pos > 0
    ensures IsTurn(f.content, i, f.fn, t, f.At())
    ensures t == MidLine ==> CanSkip(f.content, f.fn, f.At())
    ensures t.Decided? && t.v.Hit? ==> filepos == i - Lag(f.content, f.fn, f.bufSize, i)
  {
    filepos := -1;
    LineStartIs(f.content, i + 1, i);
    var b := f.GetC();
    if b == -1 || AsChar(b) < 0 || b == NL as int {
      ShortLine(f.content, i, f.fn);
      return if b == -1 then AtEof else if b == NL as int then NextLine else Decided(Abort), filepos;
    }
    t, filepos := ScanTail(f, c0, b, i);
  }

  /** Behind the second byte `b` of a line that goes on. */
  method ScanTail(f: Reader, c0: Byte, b: int, ghost i: nat) returns (t: Turn, filepos: int)
    requires f.Valid() && f.OnTrack() && f.pos > 0 && f.At() == i + 2 && IsName(f.fn)
    requires (i == 0 || f.content[i - 1] == NL) && f.content[i] == c0 && IsRating(c0)
    requires f.content[i + 1] as int == b && b != NL as int && b < 128
    modifies f
    ensures f.Valid() && f.OnTrack() && f.pos > 0
    ensures IsTurn(f.content, i, f.fn, t, f.At())
    ensures t == MidLine ==> CanSkip(f.content, f.fn, f.At())
    ensures t.Decided? && t.v.Hit? ==> filepos == i - Lag(f.content, f.fn, f.bufSize, i)
  {
    if b == SPACE as int {
      var matched, eof;
      matched, eof, filepos := ScanEntry(f, i);
      EntryVerdict(f.content, i, f.fn);
      t := if matched then Decided(Hit((c0 - ZERO) as int)) else if eof then AtEof else MidLine;
    } else {
      NoEntry(f.content, i, f.fn);
      InsideRest(f.content, f.fn, i, f.At());
      t, filepos := MidLine, -1;
    }
  }

  /** A rating character with nothing, a newline or a byte from 0x80 on behind it. */
  lemma ShortLine(s: seq<Byte>, i: nat, fn: Name)
    requires i < |s| && IsRating(s[i])
    ensures i + 1 == |s| || s[i + 1] == NL ==> LineEnd(s, i) == i + 1 && ScanVerdict(s[i..i + 1], fn) == Skip
    ensures i + 1 < |s| && s[i + 1] >= 128 ==> ScanVerdict(s[i..LineEnd(s, i)], fn) == Abort
  {
    if i + 1 == |s| || s[i + 1] == NL {
      LineEndIs(s, i, i + 1);
    } else {
      LineEndLater(s, i, i + 2);
    }
  }

  lemma NoEntry(s: seq<Byte>, i: nat, fn: seq<Byte>)
    requires i + 1 < |s| && IsRating(s[i]) && s[i + 1] != NL && s[i + 1] < 128 && s[i + 1] != SPACE
    ensures LineEnd(s, i) >= i + 2 && ScanVerdict(s[i..LineEnd(s, i)], fn) == Skip
  {
    LineEndLater(s, i, i + 2);
  }

  /** Nothing from `at` to the end of its line is read through GETC. */
  ghost predicate CanSkip(s: seq<Byte>, fn: seq<Byte>, at: nat)
    requires at <= |s|
  {
    forall x :: at <= x <= LineEnd(s, at) && x < |s| ==> !ByGetC(s, fn, x)
  }

  /** The outcome `t` of the line at `i`, with `at` bytes consumed. */
  ghost predicate IsTurn(s: seq<Byte>, i: nat, fn: seq<Byte>, t: Turn, at: nat)
    requires i < |s|
  {
    var e := LineEnd(s, i);
    match t
    case Decided(v) => v != Skip && v == ScanVerdict(s[i..e], fn)
    case AtEof => ScanVerdict(s[i..e], fn) == Skip && e == |s|
    case NextLine => ScanVerdict(s[i..e], fn) == Skip && e < |s| && at == e + 1
    case MidLine => ScanVerdict(s[i..e], fn) == Skip && i < at <= e
  }

  method ScanLine(f: Reader) returns (t: Turn, filepos: int)
    requires f.Valid() && f.OnTrack() && f.At() < |f.content| && IsName(f.fn)
    requires f.At() == 0 || f.content[f.At() - 1] == NL
    modifies f
    ensures f.Valid() && f.OnTrack() && t != MidLine
    ensures IsTurn(f.content, old(f.At()), f.fn, t, f.At())
    ensures t.Decided? && t.v.Hit? ==> filepos == old(f.At()) - Lag(f.content, f.fn, f.bufSize, old(f.At()))
  {
    ghost var i := f.At();
    ghost var verdict := VerdictAt(f.content, i, f.fn);
    LineStartIs(f.content, i, i);
    filepos, t := -1, MidLine;
    var c0 := f.GetC();
    if c0 == NL as int { return NextLine, filepos; }
    if ZERO as int <= c0 <= ZERO as int + 5 {
      t, filepos := ScanRatingLine(f, c0 as Byte, i);
    } else {
      InsideRest(f.content, f.fn, i, f.At());
    }
    if t == MidLine {
      t := EndLine(f, i);
    }
  }

  /** The rest of the line at `i` is passed over. */
  method EndLine(f: Reader, ghost i: nat) returns (t: Turn)
    requires f.Valid() && f.OnTrack() && f.pos > 0 && i < |f.content|
    requires IsTurn(f.content, i, f.fn, MidLine, f.At()) && CanSkip(f.content, f.fn, f.At())
    modifies f
    ensures f.Valid() && f.OnTrack()
    ensures (t == AtEof || t == NextLine) && IsTurn(f.content, i, f.fn, t, f.At())
  {
    MidLineEnd(f.content, i, f.At());
    var eof := f.SkipLine();
    t := if eof then AtEof else NextLine;
  }

  lemma MidLineEnd(s: seq<Byte>, i: nat, at: nat)
    requires i <= |s| && i <= at <= LineEnd(s, i)
    ensures LineEnd(s, at) == LineEnd(s, i)
  {
    LineEndLater(s, i, at);
  }

  lemma TurnMeans(s: seq<Byte>, i: nat, fn: seq<Byte>, t: Turn, at: nat)
    requires i < |s| && IsTurn(s, i, fn, t, at) && t != MidLine && Scan(s, fn) == Shift(Scan(s[i..], fn), i)
    ensures match t
            case Decided(v) => Scan(s, fn) == if v.Hit? then Found(v.r, i) else GivenUp
            case AtEof => Scan(s, fn) == NotFound
            case NextLine => i < at <= |s| && Scan(s, fn) == Shift(Scan(s[at..], fn), at)
            case _ => true
  {
    ScanStep(s, i, fn);
  }

  /** find_rating: the rating, or -1, and where its character is taken to be. */
  method FindRating(content: seq<Byte>, fn: Name, bufSize: ChunkSize) returns (rating: int, filepos: int)
    ensures rating == Rating(Scan(content, fn))
    ensures rating != -1 ==> var pos := Scan(content, fn).pos; filepos == pos - Lag(content, fn, bufSize, pos)
  {
    var f := new Reader(content, fn, bufSize);
    filepos := -1;
    assert content[0..] == content;
    while f.chunk != [] || f.pos < |content|
      invariant fresh(f) && f.content == content && f.fn == fn && f.bufSize == bufSize
      invariant f.Valid() && f.OnTrack() && (f.At() == 0 || content[f.At() - 1] == NL)
      invariant Scan(content, fn) == Shift(Scan(content[f.At()..], fn), f.At())
      decreases |content| - f.At()
    {
      ghost var i := f.At();
      var t;
      t, filepos := ScanLine(f);
      TurnMeans(content, i, fn, t, f.At());
      if t.Decided? { return if t.v.Hit? then t.v.r else -1, filepos; }
      if t == AtEof { return -1, filepos; }
    }
    return -1, filepos;
  }
}
