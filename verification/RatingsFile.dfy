/** The ratings file as a map from names to ratings. */
module RatingsFile {
  import opened RatingsSpec
  import opened Ratings
  import opened Wrappers

  // ratings_write and ratings_remove of server/ratings.cc, in place, and what every lookup
  // returns afterwards.

  /** The content after ratings_write, given what find_rating reports. */
  function Written(s: seq<Byte>, fn: seq<Byte>, rating: Stars): seq<Byte> {
    match Scan(s, fn)
    case Found(r, pos) => if pos < |s| then s[pos := ZERO + rating as Byte] else s
    case _ => if rating > 0 then s + Entry(rating, fn) + [NL] else s
  }

  /** The content after ratings_remove; a file no longer than the entry is
      deleted. */
  function RemovedFrom(s: seq<Byte>, fn: seq<Byte>): seq<Byte> {
    match Scan(s, fn)
    case Found(r, pos) => Cut(s, pos, 3 + |fn|)
    case _ => s
  }

  function Cut(s: seq<Byte>, pos: nat, len: nat): seq<Byte> {
    if |s| <= len || pos > |s| then [] else s[..pos] + s[Min(pos + len, |s|)..]
  }

  /** Where the code takes an entry's rating to be. */
  function Reported(s: seq<Byte>, fn: seq<Byte>, bufSize: ChunkSize, pos: nat): int {
    pos - Lag(s, fn, bufSize, pos)
  }

  /** What the code writes: at the position reported, if there is such a one. */
  function WrittenAt(s: seq<Byte>, fn: seq<Byte>, rating: Stars, bufSize: ChunkSize): seq<Byte> {
    match Scan(s, fn)
    case Found(r, pos) =>
      var at := Reported(s, fn, bufSize, pos);
      if r == rating || !(0 <= at < |s|) then s else s[at := ZERO + rating as Byte]
    case _ => if rating > 0 then s + Entry(rating, fn) + [NL] else s
  }

  // ----- the code

  /** Errors of the file system are not modelled, but for a seek to a negative
      position. */
  class File {
    var exists_: bool
    var content: seq<Byte>

    method RatingsWrite(fn: Name, rating: Stars, bufSize: ChunkSize)
      requires !exists_ ==> content == []
      modifies this
      ensures content == WrittenAt(old(content), fn, rating, bufSize)
      ensures exists_ == (old(exists_) || rating > 0)
    {
      if !exists_ {
        if rating <= 0 { return; }
        exists_ := true;
        content := content + Entry(rating, fn) + [NL];
        return;
      }
      var r0, filepos := FindRating(content, fn, bufSize);
      FoundIsRating(content, fn);
      if r0 < 0 {
        if rating > 0 { content := content + Entry(rating, fn) + [NL]; }
      } else if r0 != rating {
        FoundInside(content, fn);
        if filepos >= 0 { content := content[filepos := ZERO + rating as Byte]; }
      }
    }

    /** Moves `[i, i+n)` down to `o`, chunk by chunk. */
    method ShiftDown(i: nat, o: nat, n: nat, bufSize: ChunkSize)
      requires o <= i && i + n == |content|
      modifies this`content
      ensures |content| == |old(content)|
      ensures content[..o + n] == old(content)[..o] + old(content)[i..]
    {
      var left, from, to := n, i, o;
      ghost var c := content;
      while left > 0
        invariant 0 <= left <= n && from + left == |c| && to + left == o + n && |content| == |c|
        invariant forall k :: 0 <= k < o ==> content[k] == c[k]
        invariant forall k :: o <= k < to ==> content[k] == c[k - o + i]
        invariant forall k :: from <= k < |c| ==> content[k] == c[k]
      {
        var k := Min(bufSize, left);
        var buf := content[from..from + k];
        content := content[..to] + buf + content[to + k..];
        to, from, left := to + k, from + k, left - k;
      }
      assert content[..o + n] == c[..o] + c[i..];
    }

    /** With a negative position the shift copies from and to nowhere in
        particular; nothing is said about the content then. */
    method RatingsRemove(fn: Name, bufSize: ChunkSize) returns (r: int)
      requires !exists_ ==> content == []
      modifies this
      ensures var f, s := Scan(old(content), fn), old(content);
              && r == Rating(f)
              && exists_ == (old(exists_) && !(r >= 0 && |s| <= 3 + |fn|))
              && (!f.Found? ==> content == s)
              && (f.Found? && |s| <= 3 + |fn| ==> content == [])
              && (f.Found? && 0 <= Reported(s, fn, bufSize, f.pos) ==>
                    content == Cut(s, Reported(s, fn, bufSize, f.pos), 3 + |fn|))
    {
      if !exists_ { return -1; }
      var rating, filepos := FindRating(content, fn, bufSize);
      r := rating;
      FoundIsRating(content, fn);
      if r < 0 { return; }
      FoundInside(content, fn);
      var len := 3 + |fn|;
      var filesize := |content|;
      if filesize <= len {
        exists_, content := false, [];
        return;
      }
      if filepos < 0 {
        content := *;
        return;
      }
      CutOut(filepos, len, bufSize);
    }

    /** The shift and the truncation; at the end of the file the newline may be
        missing. */
    method CutOut(filepos: nat, len: nat, bufSize: ChunkSize)
      requires 0 < len < |content| && filepos + len <= |content| + 1
      modifies this`content
      ensures content == old(content)[..filepos] + old(content)[Min(filepos + len, |old(content)|)..]
    {
      var filesize := |content|;
      if filepos + len < filesize {
        ShiftDown(filepos + len, filepos, filesize - filepos - len, bufSize);
      }
      content := content[..Max(filepos, filesize - len)];
    }
  }

  // ----- when the position reported does no harm

  /** Writing changes the byte it should exactly if there is nothing to change or
      the position does not lag. */
  lemma WritesInPlaceIff(s: seq<Byte>, fn: Name, rating: Stars, bufSize: ChunkSize)
    ensures var f := Scan(s, fn);
            WrittenAt(s, fn, rating, bufSize) == Written(s, fn, rating) <==>
              (f.Found? && f.r != rating ==> Lag(s, fn, bufSize, f.pos) == 0)
  {
    if Scan(s, fn).Found? {
      FoundInside(s, fn);
      var Found(r, pos) := Scan(s, fn);
      var d := ZERO + rating as Byte;
      assert s[pos := d][pos] == d;
      assert r == rating ==> s[pos := d] == s;
    }
  }

  /** Removing cuts out what it should exactly if the position does not lag, or
      everything from there on repeats itself at the distance of an entry. */
  lemma RemovesInPlaceIff(s: seq<Byte>, fn: Name, bufSize: ChunkSize)
    requires Scan(s, fn).Found? && |s| > 3 + |fn|
    requires 0 <= Reported(s, fn, bufSize, Scan(s, fn).pos)
    ensures var pos, len := Scan(s, fn).pos, 3 + |fn|;
            var at := Reported(s, fn, bufSize, pos);
            Cut(s, at, len) == RemovedFrom(s, fn) <==>
              at == pos || (pos + len <= |s| && forall k :: at <= k < pos ==> s[k + len] == s[k])
  {
    FoundInside(s, fn);
    var pos := Scan(s, fn).pos;
    CutsAgree(s, Reported(s, fn, bufSize, pos), pos, 3 + |fn|);
  }

  lemma CutsAgree(s: seq<Byte>, at: nat, pos: nat, len: nat)
    requires at <= pos && pos + len <= |s| + 1 && 0 < len < |s|
    ensures Cut(s, at, len) == Cut(s, pos, len) <==>
              at == pos || (pos + len <= |s| && forall k :: at <= k < pos ==> s[k + len] == s[k])
  {
    var a, b := Cut(s, at, len), Cut(s, pos, len);
    if at < pos {
      assert |a| == |s| - len;
      if pos + len <= |s| {
        assert forall k :: at <= k < pos ==> a[k] == s[k + len] && b[k] == s[k];
        assert forall k :: pos <= k < |a| ==> a[k] == s[k + len] == b[k];
        assert forall k :: 0 <= k < at ==> a[k] == b[k];
      }
    }
  }

  // ----- the map

  /** A missing rating reads as zero. */
  function ReadAs(f: Search): int {
    if f.Found? then f.r else 0
  }

  lemma FoundIsRating(s: seq<Byte>, fn: seq<Byte>)
    ensures Scan(s, fn).Found? <==> Rating(Scan(s, fn)) >= 0
    ensures Rating(Scan(s, fn)) <= 5
  {
    if Scan(s, fn).Found? { var before, line, rest := FoundParts(ScanVerdict, s, fn); }
  }

  lemma FoundInside(s: seq<Byte>, fn: Name)
    requires Scan(s, fn).Found?
    ensures var Found(r, pos) := Scan(s, fn);
            pos + 2 + |fn| <= |s| && 0 <= r <= 5 && s[pos] == ZERO + r as Byte
  {
    var before, line, rest := FoundPartsOf(s, fn);
  }

  /** The parts of a content around a found entry. */
  lemma FoundPartsOf(s: seq<Byte>, fn: Name) returns (before: seq<Byte>, line: seq<Byte>, rest: seq<Byte>)
    requires Scan(s, fn).Found?
    ensures s == before + line + rest && NL !in line && (rest == [] || rest[0] == NL)
    ensures Terminated(before) && Scan(before, fn) == NotFound
    ensures |line| >= 2 + |fn| && IsRating(line[0]) && line[..2 + |fn|] == Entry((line[0] - ZERO) as int, fn)
    ensures Scan(s, fn) == Found((line[0] - ZERO) as int, |before|) && ScanVerdict(line, fn) == Hit((line[0] - ZERO) as int)
    ensures !FirstDecision(s, fn).1 ==> |line| == 2 + |fn|
  {
    before, line, rest := FoundParts(ScanVerdict, s, fn);
    var e := line[..2 + |fn|];
    assert e[2..] == line[2..][..|fn|];
    assert e == [line[0], SPACE] + e[2..];
    if !FirstDecision(s, fn).1 {
      ScanAgreesIff(s, fn);
      var b, l, r := FoundParts(FormatVerdict, s, fn);
      SameParts(s, before, line, rest, b, l, r);
    }
  }

  lemma SameParts(s: seq<Byte>, a: seq<Byte>, la: seq<Byte>, ra: seq<Byte>, b: seq<Byte>, lb: seq<Byte>, rb: seq<Byte>)
    requires s == a + la + ra && s == b + lb + rb && |a| == |b| && NL !in la && NL !in lb
    requires (ra == [] || ra[0] == NL) && (rb == [] || rb[0] == NL)
    ensures la == lb
  {
    var t := s[|a|..];
    assert t == la + ra && t == lb + rb;
    LineEndIs(t, 0, |la|);
    LineEndIs(t, 0, |lb|);
    assert la == t[..|la|] && lb == t[..|lb|];
  }

  /** Writing takes effect: for every content and name, the lookup afterwards
      returns the new rating if there was an entry to overwrite, or the rating
      is zero, or an entry was appended behind whole lines that the scanner gets
      through. */
  lemma WriteTakesEffect(s: seq<Byte>, fn: Name, rating: Stars)
    requires Scan(s, fn).Found? || rating == 0 || (Terminated(s) && Scan(s, fn) == NotFound)
    ensures ReadAs(Scan(Written(s, fn, rating), fn)) == rating
  {
    if Scan(s, fn).Found? {
      OverwriteShows(s, fn, rating, fn);
    } else if rating > 0 {
      AppendTakesEffect(s, fn, rating);
    }
  }

  lemma OverwriteParts(s: seq<Byte>, fn: seq<Byte>, rating: Stars, before: seq<Byte>, line: seq<Byte>, rest: seq<Byte>)
    requires Scan(s, fn).Found? && Scan(s, fn).pos == |before|
    requires s == before + line + rest && line != []
    ensures Written(s, fn, rating) == before + (line[0 := ZERO + rating as Byte] + rest)
  {
  }

  lemma AppendTakesEffect(s: seq<Byte>, fn: Name, rating: Stars)
    requires Terminated(s) && Scan(s, fn) == NotFound
    ensures Scan(s + Entry(rating, fn) + [NL], fn) == Found(rating, |s|)
  {
    var e := Entry(rating, fn);
    assert s + e + [NL] == s + (e + [NL]);
    LineDecides(s, e, [NL], fn);
    assert e[2..] == fn;
  }

  /** A line behind whole lines decides, or what is behind it does. */
  lemma LineDecides(before: seq<Byte>, line: seq<Byte>, rest: seq<Byte>, g: seq<Byte>)
    requires Terminated(before) && line != [] && NL !in line && (rest == [] || rest[0] == NL)
    ensures Scan(before + (line + rest), g) ==
            if Scan(before, g) != NotFound then Scan(before, g)
            else match ScanVerdict(line, g)
                 case Hit(r) => Found(r, |before|)
                 case Abort => GivenUp
                 case Skip => if rest == [] then NotFound else Shift(Scan(rest[1..], g), |before| + |line| + 1)
  {
    SearchConcat(ScanVerdict, before, line + rest, g);
    if rest == [] {
      assert line + rest == line;
      SearchLine(ScanVerdict, line, [], g);
    } else {
      assert line + rest == line + [NL] + rest[1..];
      SearchLine(ScanVerdict, line, rest[1..], g);
    }
  }

  // ----- appending behind anything

  /** What stands behind the last newline. */
  function LastLine(s: seq<Byte>): seq<Byte> {
    if Terminated(s) then [] else LastLine(s[..|s| - 1]) + [s[|s| - 1]]
  }

  function WholeLines(s: seq<Byte>): seq<Byte> {
    if Terminated(s) then s else WholeLines(s[..|s| - 1])
  }

  lemma {:induction false} LinesOf(s: seq<Byte>)
    ensures s == WholeLines(s) + LastLine(s) && Terminated(WholeLines(s)) && NL !in LastLine(s)
  {
    if !Terminated(s) {
      var front, last := s[..|s| - 1], [s[|s| - 1]];
      LinesOf(front);
      Assoc(WholeLines(front), LastLine(front), last);
      assert s == front + last;
    }
  }

  /** What a search makes of a last line at `pos`. */
  function AtLine(v: Verdict, pos: nat): Search {
    match v
    case Hit(r) => Found(r, pos)
    case Abort => GivenUp
    case Skip => NotFound
  }

  lemma LastLineDecides(s: seq<Byte>, g: seq<Byte>)
    ensures Scan(s, g) == if Scan(WholeLines(s), g) != NotFound then Scan(WholeLines(s), g)
                          else AtLine(ScanVerdict(LastLine(s), g), |WholeLines(s)|)
  {
    LinesOf(s);
    LineAtEnd(WholeLines(s), LastLine(s), [], g);
    assert WholeLines(s) + (LastLine(s) + []) == s;
  }

  lemma LineAtEnd(w: seq<Byte>, line: seq<Byte>, rest: seq<Byte>, g: seq<Byte>)
    requires Terminated(w) && NL !in line && (rest == [] || (rest == [NL] && line != []))
    ensures Scan(w + (line + rest), g) == if Scan(w, g) != NotFound then Scan(w, g) else AtLine(ScanVerdict(line, g), |w|)
  {
    if line != [] {
      LineDecides(w, line, rest, g);
      assert [NL][1..] == [];
    } else {
      assert w + (line + rest) == w;
    }
  }

  /** What is appended becomes part of the last line. */
  lemma AppendedDecides(s: seq<Byte>, e: seq<Byte>, g: seq<Byte>)
    requires NL !in e && e != []
    ensures Scan(s + e + [NL], g) == if Scan(WholeLines(s), g) != NotFound then Scan(WholeLines(s), g)
                                     else AtLine(ScanVerdict(LastLine(s) + e, g), |WholeLines(s)|)
  {
    LinesOf(s);
    LineAtEnd(WholeLines(s), LastLine(s) + e, [NL], g);
    Parts(WholeLines(s), LastLine(s), e, [NL]);
  }

  lemma Parts<T>(a: seq<T>, b: seq<T>, c: seq<T>, d: seq<T>)
    ensures a + b + c + d == a + ((b + c) + d)
  {
  }

  /** A byte that ends the search still ends it when its line gets longer. */
  lemma AbortStays(l: seq<Byte>, e: seq<Byte>, fn: seq<Byte>)
    ensures ScanVerdict(l, fn) == Abort ==> ScanVerdict(l + e, fn) == Abort
  {
  }

  /** For every content, name and rating, what is written is read back exactly if
      there was an entry to overwrite, or the rating is zero, or the search got to
      the end and either the content ends a line or the entry is, by accident, its
      own name's entry as a part of the last line. */
  lemma WriteTakesEffectIff(s: seq<Byte>, fn: Name, rating: Stars)
    ensures ReadAs(Scan(Written(s, fn, rating), fn)) == rating <==>
              Scan(s, fn).Found? || rating == 0 ||
              (Scan(s, fn) == NotFound &&
                (Terminated(s) || ScanVerdict(LastLine(s) + Entry(rating, fn), fn) == Hit(rating)))
  {
    if Scan(s, fn).Found? || rating == 0 || (Terminated(s) && Scan(s, fn) == NotFound) {
      WriteTakesEffect(s, fn, rating);
    } else {
      LastLineDecides(s, fn);
      AppendedDecides(s, Entry(rating, fn), fn);
      if ScanVerdict(LastLine(s), fn) == Abort { AbortStays(LastLine(s), Entry(rating, fn), fn); }
    }
  }

  /** The accident needs a byte from 0x80 on in the name. */
  lemma WriteTakesEffectAscii(s: seq<Byte>, fn: Name, rating: Stars)
    requires forall k :: 0 <= k < |fn| ==> fn[k] < 128
    ensures ReadAs(Scan(Written(s, fn, rating), fn)) == rating <==>
              Scan(s, fn).Found? || rating == 0 || (Terminated(s) && Scan(s, fn) == NotFound)
  {
    WriteTakesEffectIff(s, fn, rating);
    LastLineDecides(s, fn);
    if Scan(s, fn) == NotFound && !Terminated(s) { PartialLineIsNoHit(LastLine(s), fn, rating); }
  }

  lemma PartialLineIsNoHit(l: seq<Byte>, fn: Name, rating: Stars)
    requires forall k :: 0 <= k < |fn| ==> fn[k] < 128
    requires l != [] && ScanVerdict(l, fn) == Skip
    ensures !ScanVerdict(l + Entry(rating, fn), fn).Hit?
  {
    var line := l + Entry(rating, fn);
    if |l| >= 2 && |fn| + 2 < |l| && fn <= line[2..] {
      assert l[2..][..|fn|] == line[2..][..|fn|];
    }
    if |l| >= 2 && |fn| + 2 == |l| && fn <= line[2..] {
      assert l[2..] == line[2..][..|fn|];
    }
    if |l| >= 2 && |fn| + 2 > |l| {
      var k := 2 + |fn| - |l|;
      assert line[2 + |fn|] == Entry(rating, fn)[k];
      assert k >= 2 ==> Entry(rating, fn)[k] == fn[k - 2];
    }
  }

  // ----- the lookups of other names

  /** The line of one name is taken for an entry of another, shorter one. */
  predicate Confusable(g: seq<Byte>, fn: seq<Byte>) {
    |g| < |fn| && g <= fn && fn[|g|] >= 128
  }

  predicate TakenFor(g: seq<Byte>, name: seq<Byte>) {
    g == name || Confusable(g, name)
  }

  function EntryVerdict(r: int, name: seq<Byte>, g: seq<Byte>): Verdict {
    if TakenFor(g, name) then Hit(r) else Skip
  }

  lemma EntryIs(r: Stars, name: seq<Byte>, g: seq<Byte>)
    ensures ScanVerdict(Entry(r, name), g) == EntryVerdict(r, name, g)
  {
    assert Entry(r, name)[2..] == name;
    assert g <= name ==> g == name[..|g|];
    assert name[..|name|] == name;
  }

  /** Another rating character changes the rating of a hit and nothing else. */
  lemma RatingOfLine(line: seq<Byte>, rating: Stars, g: seq<Byte>)
    requires line != [] && IsRating(line[0])
    ensures var v, v' := ScanVerdict(line, g), ScanVerdict(line[0 := ZERO + rating as Byte], g);
            v' == if v.Hit? then Hit(rating) else v
  {
    assert line[0 := ZERO + rating as Byte][1..] == line[1..];
    assert |line| >= 2 ==> line[0 := ZERO + rating as Byte][2..] == line[2..];
  }

  lemma OverwriteSearch(before: seq<Byte>, line: seq<Byte>, rest: seq<Byte>, rating: Stars, g: Name)
    requires line != [] && IsRating(line[0]) && NL !in line && (rest == [] || rest[0] == NL)
    requires Terminated(before)
    ensures var f := Scan(before + (line + rest), g);
            Scan(before + (line[0 := ZERO + rating as Byte] + rest), g) ==
            if f.Found? && f.pos == |before| then Found(rating, f.pos) else f
  {
    var line' := line[0 := ZERO + rating as Byte];
    LineDecides(before, line, rest, g);
    LineDecides(before, line', rest, g);
    RatingOfLine(line, rating, g);
    if Scan(before, g).Found? { FoundInside(before, g); }
  }

  /** Overwriting an entry changes the lookups that end at it, and no others. */
  lemma OverwriteShows(s: seq<Byte>, fn: Name, rating: Stars, g: Name)
    requires Scan(s, fn).Found?
    ensures var f := Scan(s, g);
            Scan(Written(s, fn, rating), g) ==
            if f.Found? && f.pos == Scan(s, fn).pos then Found(rating, f.pos) else f
  {
    var before, line, rest := FoundPartsOf(s, fn);
    OverwriteParts(s, fn, rating, before, line, rest);
    Assoc(before, line, rest);
    OverwriteSearch(before, line, rest, rating, g);
  }

  /** For every content, rating and two names: writing the rating of one leaves
      the lookup of the other as it was, position included, exactly if
      - for an entry that is overwritten, it had that rating or is not what the
        other lookup finds;
      - for an entry that is appended, the other lookup does not get to the last
        line, or that line means to it what it did. */
  lemma WriteKeepsOthersIff(s: seq<Byte>, fn: Name, rating: Stars, g: Name)
    ensures Scan(Written(s, fn, rating), g) == Scan(s, g) <==>
            if Scan(s, fn).Found? then
              Scan(s, fn).r == rating || !(Scan(s, g).Found? && Scan(s, g).pos == Scan(s, fn).pos)
            else
              rating == 0 || Scan(WholeLines(s), g) != NotFound
              || ScanVerdict(LastLine(s) + Entry(rating, fn), g) == ScanVerdict(LastLine(s), g)
  {
    if Scan(s, fn).Found? {
      OverwriteShows(s, fn, rating, g);
      SamePlaceSameRating(s, fn, g);
    } else if rating > 0 {
      LastLineDecides(s, g);
      AppendedDecides(s, Entry(rating, fn), g);
    }
  }

  lemma SamePlaceSameRating(s: seq<Byte>, fn: Name, g: Name)
    ensures var f, f' := Scan(s, fn), Scan(s, g);
            f.Found? && f'.Found? && f.pos == f'.pos ==> f.r == f'.r
  {
    if Scan(s, fn).Found? && Scan(s, g).Found? {
      FoundInside(s, fn);
      FoundInside(s, g);
    }
  }

  /** Behind whole lines, an entry that is appended shows for another name exactly
      if the scanner takes it for that name and found nothing before. */
  lemma AppendKeepsOthersIff(s: seq<Byte>, fn: Name, rating: Stars, g: Name)
    requires g != fn
    requires Terminated(s) && !Scan(s, fn).Found?
    ensures Scan(Written(s, fn, rating), g) == Scan(s, g) <==>
              rating == 0 || Scan(s, g) != NotFound || !Confusable(g, fn)
  {
    WriteKeepsOthersIff(s, fn, rating, g);
    LastLineDecides(s, g);
    EntryIs(rating, fn, g);
    assert WholeLines(s) == s && LastLine(s) + Entry(rating, fn) == Entry(rating, fn);
  }

  /** Two lookups end at one line only if one name is taken for the other. */
  lemma OneLineTwoNames(line: seq<Byte>, f: seq<Byte>, g: seq<Byte>)
    ensures f != g && ScanVerdict(line, f).Hit? && ScanVerdict(line, g).Hit? ==> Confusable(f, g) || Confusable(g, f)
  {
    if f != g && ScanVerdict(line, f).Hit? && ScanVerdict(line, g).Hit? {
      var l := line[2..];
      assert f == l[..|f|] && g == l[..|g|];
      assert |f| < |g| ==> f == g[..|f|] && l[|f|] == g[|f|];
      assert |g| < |f| ==> g == f[..|g|] && l[|g|] == f[|g|];
    }
  }

  /** So names of which none is the other and a byte from 0x80 on, as are any two
      names of bytes below, do not get in each other's way. */
  lemma WriteKeepsUnrelated(s: seq<Byte>, fn: Name, rating: Stars, g: Name)
    requires g != fn
    requires !Confusable(g, fn) && !Confusable(fn, g)
    requires Scan(s, fn).Found? || rating == 0 || Terminated(s)
    ensures Scan(Written(s, fn, rating), g) == Scan(s, g)
  {
    WriteKeepsOthersIff(s, fn, rating, g);
    if Scan(s, fn).Found? && Scan(s, g).Found? && Scan(s, g).pos == Scan(s, fn).pos {
      var a, la, ra := FoundPartsOf(s, fn);
      var b, lb, rb := FoundPartsOf(s, g);
      SameParts(s, a, la, ra, b, lb, rb);
      OneLineTwoNames(la, fn, g);
    } else if !Scan(s, fn).Found? && Terminated(s) {
      AppendKeepsOthersIff(s, fn, rating, g);
    }
  }

  // ----- removal

  /** What stands behind an entry, without the newline. */
  function Behind(rest: seq<Byte>): seq<Byte> {
    if rest == [] then [] else rest[1..]
  }

  /** What is left of the line of `name` and all behind it when `n` bytes of the
      name, what is in front of them and one byte more are gone. */
  function Leftover(name: seq<Byte>, n: nat, rest: seq<Byte>): seq<Byte> {
    if n < |name| then name[n + 1..] + rest else Behind(rest)
  }

  /** Where a name is found: at the first line the scanner takes for one of it. */
  lemma FoundEntry(s: seq<Byte>, fn: Name)
    returns (before: seq<Byte>, r: Stars, name: seq<Byte>, rest: seq<Byte>)
    requires Scan(s, fn).Found?
    ensures Scan(s, fn) == Found(r, |before|) && Terminated(before) && Scan(before, fn) == NotFound
    ensures s == before + (Entry(r, name) + rest) && NL !in name && (rest == [] || rest[0] == NL)
    ensures TakenFor(fn, name) && (!FirstDecision(s, fn).1 ==> name == fn)
  {
    var line;
    before, line, rest := FoundPartsOf(s, fn);
    r, name := (line[0] - ZERO) as int, line[2..];
    LineIsEntry(line, r, fn);
    Assoc(before, line, rest);
  }

  lemma LineIsEntry(line: seq<Byte>, r: Stars, fn: seq<Byte>)
    requires |line| >= 2 + |fn| && line[..2 + |fn|] == Entry(r, fn) && ScanVerdict(line, fn) == Hit(r)
    ensures line == Entry(r, line[2..]) && TakenFor(fn, line[2..])
    ensures |line| == 2 + |fn| ==> line[2..] == fn
  {
    assert line[0] == line[..2 + |fn|][0] && line[1] == line[..2 + |fn|][1];
    assert line[2..][..|fn|] == line[..2 + |fn|][2..] == fn;
  }

  /** Removal takes away the first line that the scanner takes for one of `fn`, up
      to and including the byte behind the name: all of it if it is that name's,
      and otherwise the end of a longer name stays.  (A lone empty line does not
      stay.) */
  lemma RemoveDeletesLine(s: seq<Byte>, fn: Name)
    returns (before: seq<Byte>, r: Stars, name: seq<Byte>, rest: seq<Byte>)
    requires Scan(s, fn).Found?
    ensures Scan(s, fn) == Found(r, |before|) && Terminated(before) && Scan(before, fn) == NotFound
    ensures s == before + (Entry(r, name) + rest) && NL !in name && (rest == [] || rest[0] == NL)
    ensures TakenFor(fn, name) && (!FirstDecision(s, fn).1 ==> name == fn)
    ensures var left := before + Leftover(name, |fn|, rest);
            RemovedFrom(s, fn) == left || (RemovedFrom(s, fn) == [] && left == [NL])
  {
    before, r, name, rest := FoundEntry(s, fn);
    CutParts(before, [ZERO + r as Byte, SPACE], name, rest, |fn|);
  }

  lemma CutMiddle(a: seq<Byte>, b: seq<Byte>, c: seq<Byte>)
    ensures Cut(a + (b + c), |a|, |b|) == a + c
  {
    var s := a + (b + c);
    assert s[..|a|] == a && s[|a| + |b|..] == c;
    if |s| <= |b| { assert a == [] && c == []; }
  }

  lemma CutEnd(a: seq<Byte>, b: seq<Byte>)
    requires Terminated(a)
    ensures var c := Cut(a + b, |a|, |b| + 1); c == a || (c == [] && a == [NL])
  {
    assert (a + b)[..|a|] == a;
    if |a| == 1 { assert a == [NL]; }
  }

  lemma CutSplit(a: seq<Byte>, b: seq<Byte>, c: seq<Byte>, d: seq<Byte>, e: seq<Byte>)
    ensures Cut(a + (b + (c + d) + e), |a|, |b| + |c|) == a + (d + e)
  {
    Assoc(b, c, d);
    Assoc(b + c, d, e);
    CutMiddle(a, b + c, d + e);
  }

  lemma CutInName(before: seq<Byte>, head: seq<Byte>, name: seq<Byte>, rest: seq<Byte>, n: nat)
    requires n < |name|
    ensures Cut(before + (head + name + rest), |before|, |head| + n + 1) == before + (name[n + 1..] + rest)
  {
    TakeDrop(name, n + 1);
    CutSplit(before, head, name[..n + 1], name[n + 1..], rest);
  }

  lemma CutLine(before: seq<Byte>, line: seq<Byte>, rest: seq<Byte>)
    requires rest != []
    ensures Cut(before + (line + rest), |before|, |line| + 1) == before + rest[1..]
  {
    TakeDrop(rest, 1);
    Assoc(line, rest[..1], rest[1..]);
    CutMiddle(before, line + rest[..1], rest[1..]);
  }

  lemma CutParts(before: seq<Byte>, head: seq<Byte>, name: seq<Byte>, rest: seq<Byte>, n: nat)
    requires |head| == 2 && n <= |name| && Terminated(before)
    ensures var c, left := Cut(before + (head + name + rest), |before|, 3 + n), before + Leftover(name, n, rest);
            c == left || (c == [] && left == [NL])
  {
    if n < |name| {
      CutInName(before, head, name, rest, n);
    } else if rest != [] {
      CutLine(before, head + name, rest);
    } else {
      assert head + name + rest == head + name && before + [] == before;
      CutEnd(before, head + name);
    }
  }

  /** The rating a lookup shows at a line with this verdict. */
  function Shows(v: Verdict, behind: seq<Byte>, g: seq<Byte>): int {
    match v
    case Hit(r) => r
    case Abort => -1
    case Skip => Rating(Scan(behind, g))
  }

  lemma LineShows(before: seq<Byte>, line: seq<Byte>, rest: seq<Byte>, g: seq<Byte>)
    requires Terminated(before) && NL !in line && (rest == [] || rest[0] == NL)
    ensures Rating(Scan(before + (line + rest), g)) ==
            if Scan(before, g) != NotFound then Rating(Scan(before, g)) else Shows(ScanVerdict(line, g), Behind(rest), g)
  {
    if line != [] {
      LineDecides(before, line, rest, g);
    } else {
      SearchConcat(ScanVerdict, before, line + rest, g);
      if rest != [] {
        assert line + rest == [] + [NL] + rest[1..];
        SearchLine(ScanVerdict, [], rest[1..], g);
      }
    }
  }

  /** What the leftover of the line means for a lookup. */
  function LeftVerdict(name: seq<Byte>, n: nat, g: seq<Byte>): Verdict {
    if n < |name| then ScanVerdict(name[n + 1..], g) else Skip
  }

  lemma LeftoverShows(before: seq<Byte>, name: seq<Byte>, n: nat, rest: seq<Byte>, g: seq<Byte>)
    requires Terminated(before) && NL !in name && (rest == [] || rest[0] == NL)
    ensures Rating(Scan(before + Leftover(name, n, rest), g)) ==
            if Scan(before, g) != NotFound then Rating(Scan(before, g)) else Shows(LeftVerdict(name, n, g), Behind(rest), g)
  {
    if n < |name| {
      LineShows(before, name[n + 1..], rest, g);
    } else {
      SearchConcat(ScanVerdict, before, Behind(rest), g);
    }
  }

  lemma NewlineShowsNothing(c: seq<Byte>, left: seq<Byte>, g: seq<Byte>)
    requires c == left || (c == [] && left == [NL])
    ensures Rating(Scan(c, g)) == Rating(Scan(left, g))
  {
    if left == [NL] {
      LineEndIs([NL], 0, 0);
      assert [NL][1..] == [] && [NL][..0] == [];
    }
  }

  /** The lookup of every name after a removal, that of the removed one included:
      it ends in front of the removed line as before, or sees the leftover of
      the line and then what stands behind. */
  lemma RemoveShows(s: seq<Byte>, fn: Name, g: seq<Byte>)
    returns (before: seq<Byte>, r: Stars, name: seq<Byte>, rest: seq<Byte>)
    requires Scan(s, fn).Found?
    ensures Scan(s, fn) == Found(r, |before|) && Terminated(before) && Scan(before, fn) == NotFound
    ensures s == before + (Entry(r, name) + rest) && NL !in name && (rest == [] || rest[0] == NL)
    ensures TakenFor(fn, name) && (!FirstDecision(s, fn).1 ==> name == fn)
    ensures Rating(Scan(s, g)) == if Scan(before, g) != NotFound then Rating(Scan(before, g))
                                  else Shows(EntryVerdict(r, name, g), Behind(rest), g)
    ensures Rating(Scan(RemovedFrom(s, fn), g)) == if Scan(before, g) != NotFound then Rating(Scan(before, g))
                                                   else Shows(LeftVerdict(name, |fn|, g), Behind(rest), g)
  {
    before, r, name, rest := RemoveDeletesLine(s, fn);
    LineShows(before, Entry(r, name), rest, g);
    EntryIs(r, name, g);
    LeftoverShows(before, name, |fn|, rest, g);
    NewlineShowsNothing(RemovedFrom(s, fn), before + Leftover(name, |fn|, rest), g);
  }

  /** For every content and two names: removing one leaves the rating of the
      other as it was exactly if its lookup ends in front of the removed line, or
      the leftover of the line shows it what the line did. */
  lemma RemoveKeepsOthersIff(s: seq<Byte>, fn: Name, g: seq<Byte>)
    returns (before: seq<Byte>, r: Stars, name: seq<Byte>, rest: seq<Byte>)
    requires Scan(s, fn).Found?
    ensures Scan(s, fn) == Found(r, |before|) && TakenFor(fn, name)
    ensures s == before + (Entry(r, name) + rest) && NL !in name && (rest == [] || rest[0] == NL)
    ensures Rating(Scan(RemovedFrom(s, fn), g)) == Rating(Scan(s, g)) <==>
              Scan(before, g) != NotFound
              || Shows(LeftVerdict(name, |fn|, g), Behind(rest), g) == Shows(EntryVerdict(r, name, g), Behind(rest), g)
  {
    before, r, name, rest := RemoveShows(s, fn, g);
  }

  /** Where the removed line is that of the name, the other rating is kept exactly
      if the scanner does not take the line for the other name, or finds that
      name in front of the line or with the same rating behind it. */
  lemma RemoveWholeLineKeepsOthersIff(s: seq<Byte>, fn: Name, g: seq<Byte>)
    returns (before: seq<Byte>, r: Stars, rest: seq<Byte>)
    requires g != fn && Scan(s, fn).Found? && !FirstDecision(s, fn).1
    ensures Scan(s, fn) == Found(r, |before|) && s == before + (Entry(r, fn) + rest)
    ensures Rating(Scan(RemovedFrom(s, fn), g)) == Rating(Scan(s, g)) <==>
              !Confusable(g, fn) || Scan(before, g) != NotFound || Rating(Scan(Behind(rest), g)) == r
  {
    var name;
    before, r, name, rest := RemoveShows(s, fn, g);
  }

  /** The removed name itself gets what stands behind the deleted entry. */
  lemma RemoveShowsNext(s: seq<Byte>, fn: Name)
    returns (before: seq<Byte>, r: Stars, name: seq<Byte>, rest: seq<Byte>)
    requires Scan(s, fn).Found?
    ensures s == before + (Entry(r, name) + rest) && |before| == Scan(s, fn).pos
    ensures Rating(Scan(RemovedFrom(s, fn), fn)) == Shows(LeftVerdict(name, |fn|, fn), Behind(rest), fn)
    ensures name == fn ==> Rating(Scan(RemovedFrom(s, fn), fn)) == Rating(Scan(Behind(rest), fn))
  {
    before, r, name, rest := RemoveShows(s, fn, fn);
  }

  /** Two ordinary file names, "a" and "a" with an acute e behind it: rating the
      second in an empty file rates the first too, and removing the first then
      takes the rating of the second away. */
  lemma NamesGetConfused()
    ensures var a, ae := [97], [97, 0xC3, 0xA9];
            var s := Written([], ae, 3);
            && IsName(a) && IsName(ae)
            && Scan([], a) == NotFound && Scan(s, a) == Found(3, 0) && Scan(s, ae) == Found(3, 0)
            && RemovedFrom(s, a) == [0xA9, NL] && Rating(Scan(RemovedFrom(s, a), ae)) == -1
  {
    var a: seq<Byte>, ae: seq<Byte> := [97], [97, 0xC3, 0xA9];
    var s := Written([], ae, 3);
    assert s == [] + Entry(3, ae) + [NL];
    AppendTakesEffect([], ae, 3);
    AppendedDecides([], Entry(3, ae), a);
    EntryIs(3, ae, a);
    assert s == [ZERO + 3, SPACE, 97, 0xC3, 0xA9, NL];
    var left: seq<Byte> := [0xA9];
    assert RemovedFrom(s, a) == left + [NL];
    LineAtEnd([], left, [NL], ae);
    assert [] + (left + [NL]) == left + [NL];
  }
}
