/** Records of the tags database, as cache_record_serialize writes them and
    cache_record_deserialize reads them. */
module CacheRecord {
  import opened Bytes
  import opened Codec
  import opened Wrappers

  type Time = t: int | -0x8000_0000_0000_0000 <= t < 0x8000_0000_0000_0000

  datatype Record = Record(modTime: Time, tags: FileTags)

  const NUL: Byte := 0

  lemma TimeFits(t: Time)
    ensures Fits(t, 8)
  {
    Pow256Known();
  }

  function PutTime(t: Time): (b: seq<Byte>)
    ensures |b| == 8
  {
    TimeFits(t);
    FromInt(t, 8)
  }

  function PutInt(i: Int): (b: seq<Byte>)
    ensures |b| == 4
  {
    IntFits(i);
    FromInt(i, 4)
  }

  /** `(char)rating`: the lowest byte. */
  function LowByte(i: int): Byte {
    (i % 256) as Byte
  }

  /** A char, which is signed, as an int. */
  function FromChar(c: Byte): Int {
    if c >= 128 then c as int - 256 else c as int
  }

  function PutStrings(ss: seq<seq<Byte>>): seq<Byte> {
    if ss == [] then [] else (ss[0] + [NUL]) + PutStrings(ss[1..])
  }

  function Strings(t: FileTags): seq<seq<Byte>> {
    [t.artist, t.album, t.title]
  }

  function PutNumbers(t: FileTags): (b: seq<Byte>)
    ensures |b| == 9
  {
    PutInt(t.track) + (PutInt(t.time) + [LowByte(t.rating)])
  }

  function Serialized(r: Record): seq<Byte> {
    PutTime(r.modTime) + (PutStrings(Strings(r.tags)) + PutNumbers(r.tags))
  }

  /** Bytes before the first NUL. */
  function StrLen(b: seq<Byte>): (n: nat)
    ensures n <= |b|
  {
    if b == [] || b[0] == NUL then 0 else 1 + StrLen(b[1..])
  }

  lemma {:induction false} StrLenIsFirstNul(b: seq<Byte>)
    ensures StrLen(b) < |b| ==> b[StrLen(b)] == NUL
    ensures forall k :: 0 <= k < StrLen(b) ==> b[k] != NUL
  {
    if b != [] && b[0] != NUL {
      StrLenIsFirstNul(b[1..]);
      assert forall k :: 1 <= k < |b| ==> b[k] == b[1..][k - 1];
    }
  }

  function GetString(b: seq<Byte>): (r: Read<seq<Byte>>)
    ensures r.Ok? ==> |r.value| + 1 + |r.rest| == |b|
  {
    var n := StrLen(b);
    if n == |b| then Fail else Ok(b[..n], b[n + 1..])
  }

  function GetStrings(count: nat, b: seq<Byte>): (r: Read<seq<seq<Byte>>>)
    ensures r.Ok? ==> |r.rest| <= |b| && |r.value| == count
  {
    if count == 0 then Ok([], b) else
      match GetString(b)
      case Fail => Fail
      case Ok(s, rest) => Cons(s, GetStrings(count - 1, rest))
  }

  lemma {:induction false} StringsAreShort(count: nat, b: seq<Byte>)
    ensures var r := GetStrings(count, b); r.Ok? ==> forall s <- r.value :: |s| < |b|
  {
    if count > 0 && GetStrings(count, b).Ok? {
      StringsAreShort(count - 1, GetString(b).rest);
    }
  }

  function GetNumbers(b: seq<Byte>): Read<(Int, Int, Int)> {
    match Take(b, 4)
    case Fail => Fail
    case Ok(track, b1) =>
      match Take(b1, 4)
      case Fail => Fail
      case Ok(time, b2) =>
        if b2 == [] then Fail else
          Pow256Known();
          Ok((ToInt(track), ToInt(time), FromChar(b2[0])), b2[1..])
  }

  function Assembled(t: Time, ss: seq<seq<Byte>>, n: (Int, Int, Int)): (r: Record)
    requires |ss| == 3 && forall s <- ss :: |s| < 0x1_0000_0000_0000_0000
    ensures Strings(r.tags) == ss
  {
    assert ss[0] in ss && ss[1] in ss && ss[2] in ss;
    Record(t, FileTags(ss[2], ss[0], ss[1], n.0, n.1, n.2))
  }

  function Deserialized(b: Str): Read<Record> {
    match Take(b, 8)
    case Fail => Fail
    case Ok(time, b1) =>
      match GetStrings(3, b1)
      case Fail => Fail
      case Ok(ss, b2) =>
        match GetNumbers(b2)
        case Fail => Fail
        case Ok(n, rest) =>
          Pow256Known();
          StringsAreShort(3, b1);
          Ok(Assembled(ToInt(time), ss, n), rest)
  }

  // What survives.

  predicate NulFree(s: seq<Byte>) {
    NUL !in s
  }

  predicate Storable(r: Record) {
    (forall s <- Strings(r.tags) :: NulFree(s)) && -128 <= r.tags.rating <= 127
  }

  lemma StringRoundTrip(s: seq<Byte>, rest: seq<Byte>)
    ensures var r := GetString((s + [NUL]) + rest);
            r.Ok? && (r == Ok(s, rest) <==> NulFree(s)) && (r.value == s <==> NulFree(s))
  {
    var b := (s + [NUL]) + rest;
    var n := StrLen(b);
    StrLenIsFirstNul(b);
    assert b[|s|] == NUL;
    assert n <= |s|;
    if NulFree(s) {
      assert forall k :: 0 <= k < |s| ==> b[k] == s[k];
      assert n == |s|;
      assert b[..n] == s && b[n + 1..] == rest;
    } else {
      var k :| 0 <= k < |s| && s[k] == NUL;
      assert b[k] == NUL;
    }
  }

  lemma {:induction false} StringsRoundTrip(ss: seq<seq<Byte>>, rest: seq<Byte>)
    ensures var r := GetStrings(|ss|, PutStrings(ss) + rest);
            && (r == Ok(ss, rest) <==> forall s <- ss :: NulFree(s))
            && (r.Ok? && r.value == ss ==> forall s <- ss :: NulFree(s))
  {
    if ss == [] {
      assert PutStrings(ss) + rest == rest;
    } else {
      var s, tail := ss[0], ss[1..];
      assert ss == [s] + tail;
      Assoc(s + [NUL], PutStrings(tail), rest);
      StringRoundTrip(s, PutStrings(tail) + rest);
      StringsRoundTrip(tail, rest);
      assert (forall x <- ss :: NulFree(x)) <==> NulFree(s) && forall x <- tail :: NulFree(x);
    }
  }

  lemma CharRoundTrip(i: int)
    ensures FromChar(LowByte(i)) == i <==> -128 <= i <= 127
  {
  }

  lemma NumbersRoundTrip(t: FileTags, rest: seq<Byte>)
    ensures GetNumbers(PutNumbers(t) + rest) == Ok((t.track, t.time, FromChar(LowByte(t.rating))), rest)
  {
    var track, time, rating := PutInt(t.track), PutInt(t.time), [LowByte(t.rating)];
    Assoc(track, time + rating, rest);
    Assoc(time, rating, rest);
    Front(track, time + (rating + rest));
    Front(time, rating + rest);
    IntFits(t.track);
    IntFits(t.time);
    ToIntOfFromInt(t.track, 4);
    ToIntOfFromInt(t.time, 4);
  }

  /** A record comes back as it was exactly if its strings hold no NUL and its
      rating fits in a char. */
  lemma RecordRoundTrip(r: Record, rest: seq<Byte>)
    requires |Serialized(r) + rest| < 0x1_0000_0000_0000_0000
    ensures Deserialized(Serialized(r) + rest) == Ok(r, rest) <==> Storable(r)
  {
    var time, strings, numbers := PutTime(r.modTime), PutStrings(Strings(r.tags)), PutNumbers(r.tags);
    Assoc(time, strings + numbers, rest);
    Assoc(strings, numbers, rest);
    Front(time, strings + (numbers + rest));
    TimeFits(r.modTime);
    ToIntOfFromInt(r.modTime, 8);
    StringsRoundTrip(Strings(r.tags), numbers + rest);
    NumbersRoundTrip(r.tags, rest);
    CharRoundTrip(r.tags.rating);
  }

  // Every buffer that is read is a record with bytes after it.

  lemma StringFound(b: seq<Byte>)
    ensures var r := GetString(b); r.Ok? ==> NulFree(r.value) && (r.value + [NUL]) + r.rest == b
  {
    StrLenIsFirstNul(b);
  }

  lemma PutStringsFirst(s: seq<Byte>, tail: seq<seq<Byte>>, rest: seq<Byte>)
    ensures PutStrings([s] + tail) + rest == (s + [NUL]) + (PutStrings(tail) + rest)
  {
    assert ([s] + tail)[1..] == tail;
    Assoc(s + [NUL], PutStrings(tail), rest);
  }

  lemma {:induction false} StringsFound(count: nat, b: seq<Byte>)
    ensures var r := GetStrings(count, b);
            r.Ok? ==> (forall s <- r.value :: NulFree(s)) && PutStrings(r.value) + r.rest == b
  {
    if count > 0 && GetStrings(count, b).Ok? {
      StringFound(b);
      var first := GetString(b);
      StringsFound(count - 1, first.rest);
      var others := GetStrings(count - 1, first.rest);
      assert GetStrings(count, b) == Ok([first.value] + others.value, others.rest);
      PutStringsFirst(first.value, others.value, others.rest);
    }
  }

  lemma NumbersFound(b: seq<Byte>, t: FileTags)
    requires GetNumbers(b).Ok? && GetNumbers(b).value == (t.track, t.time, t.rating)
    ensures -128 <= t.rating <= 127
    ensures PutNumbers(t) + GetNumbers(b).rest == b
  {
    FromIntOfToInt(b[..4]);
    FromIntOfToInt(b[4..][..4]);
    assert b == b[..4] + (b[4..][..4] + ([b[4..][4..][0]] + b[9..]));
    assert GetNumbers(b).rest == b[9..];
    Assoc(PutInt(t.track), PutInt(t.time) + [LowByte(t.rating)], b[9..]);
    Assoc(PutInt(t.time), [LowByte(t.rating)], b[9..]);
  }

  lemma RecordFound(b: Str)
    ensures var d := Deserialized(b); d.Ok? ==> Storable(d.value) && Serialized(d.value) + d.rest == b
  {
    if Deserialized(b).Fail? { return; }
    var r, rest := Deserialized(b).value, Deserialized(b).rest;
    var time, b1 := b[..8], b[8..];
    var ss, b2 := GetStrings(3, b1).value, GetStrings(3, b1).rest;
    FromIntOfToInt(time);
    StringsFound(3, b1);
    NumbersFound(b2, r.tags);
    assert Strings(r.tags) == ss;
    Assoc(PutStrings(ss), PutNumbers(r.tags), rest);
    Assoc(time, PutStrings(ss) + PutNumbers(r.tags), rest);
    assert b == time + b1;
  }

  /** What was read does not depend on the bytes behind it. */
  lemma RecordExtends(b: Str, more: seq<Byte>)
    requires Deserialized(b).Ok? && |b + more| < 0x1_0000_0000_0000_0000
    ensures Deserialized(b + more) == Ok(Deserialized(b).value, Deserialized(b).rest + more)
  {
    var r, rest := Deserialized(b).value, Deserialized(b).rest;
    RecordFound(b);
    Assoc(Serialized(r), rest, more);
    RecordRoundTrip(r, rest + more);
  }

  /** A stored record of which the end is missing is refused. */
  lemma CutRecordIsRefused(r: Record, n: nat)
    requires Storable(r) && n < |Serialized(r)| < 0x1_0000_0000_0000_0000
    ensures Deserialized(Serialized(r)[..n]) == Fail
  {
    var b := Serialized(r);
    RecordRoundTrip(r, []);
    assert b + [] == b == b[..n] + b[n..];
    if Deserialized(b[..n]).Ok? {
      RecordExtends(b[..n], b[n..]);
    }
  }

  /** The bytes of a record, field by field. */
  lemma RecordBytes()
    ensures var tags := FileTags([116], [97], [98], 2, 3, -4);
            Serialized(Record(1, tags)) ==
            [1, 0, 0, 0, 0, 0, 0, 0] + [97, 0] + [98, 0] + [116, 0] + [2, 0, 0, 0] + [3, 0, 0, 0] + [252]
  {
    var tags := FileTags([116], [97], [98], 2, 3, -4);
    Pow256Known();
    assert Little(1, 8) == [1] + Little(0, 7);
    ZeroBytes(7);
    LittleBytes4(2);
    LittleBytes4(3);
    SerializedInPieces(Record(1, tags));
  }

  // The code.

  /** memcpy to a cursor. */
  method Copy(buf: array<Byte>, p: nat, data: seq<Byte>) returns (next: nat)
    requires p + |data| <= buf.Length
    modifies buf
    ensures next == p + |data| && buf[..next] == old(buf[..p]) + data
  {
    forall k | 0 <= k < |data| {
      buf[p + k] := data[k];
    }
    next := p + |data|;
  }

  method Serialize(rec: Record) returns (buf: array<Byte>)
    ensures fresh(buf) && buf[..] == Serialized(rec)
  {
    var t := rec.tags;
    buf := new Byte[8 + (|t.artist| + 1) + (|t.album| + 1) + (|t.title| + 1) + 4 + 4 + 1];
    var p := Copy(buf, 0, PutTime(rec.modTime));
    p := Copy(buf, p, t.artist + [NUL]);
    p := Copy(buf, p, t.album + [NUL]);
    p := Copy(buf, p, t.title + [NUL]);
    p := Copy(buf, p, PutInt(t.track));
    p := Copy(buf, p, PutInt(t.time));
    p := Copy(buf, p, [LowByte(t.rating)]);
    assert buf[..p] == buf[..];
    SerializedInPieces(rec);
  }

  lemma SerializedInPieces(r: Record)
    ensures var t := r.tags;
            Serialized(r) == [] + PutTime(r.modTime) + (t.artist + [NUL]) + (t.album + [NUL]) + (t.title + [NUL])
              + PutInt(t.track) + PutInt(t.time) + [LowByte(t.rating)]
  {
    var t := r.tags;
    assert Strings(t)[1..] == [t.album, t.title];
    assert [t.album, t.title][1..] == [t.title];
    assert [t.title][1..] == [];
    assert PutStrings([t.title]) == (t.title + [NUL]) + PutStrings([]);
    assert PutStrings([t.album, t.title]) == (t.album + [NUL]) + PutStrings([t.title]);
  }

  /** The two macros of the reader: the piece at the cursor `p`, if what is left
      is enough for it. */
  method ExtractNum(buf: seq<Byte>, p: nat, left: nat, w: nat) returns (ok: bool, v: seq<Byte>, q: nat, after: nat)
    requires p + left == |buf|
    ensures q + after == |buf|
    ensures if ok then Take(buf[p..], w) == Ok(v, buf[q..]) else Take(buf[p..], w) == Fail && q == p
  {
    if left < w {
      return false, [], p, left;
    }
    assert buf[p..][..w] == buf[p..p + w] && buf[p..][w..] == buf[p + w..];
    return true, buf[p..p + w], p + w, left - w;
  }

  method ExtractStr(buf: seq<Byte>, p: nat, left: nat) returns (ok: bool, v: seq<Byte>, q: nat, after: nat)
    requires p + left == |buf|
    ensures q + after == |buf|
    ensures if ok then GetString(buf[p..]) == Ok(v, buf[q..]) else GetString(buf[p..]) == Fail && q == p
  {
    var n := 0;
    while n < left && buf[p + n] != NUL
      invariant n <= left
      invariant n + StrLen(buf[p + n..]) == StrLen(buf[p..])
    {
      assert buf[p + n..][1..] == buf[p + n + 1..];
      n := n + 1;
    }
    if n + 1 > left {
      return false, [], p, left;
    }
    assert buf[p..][..n] == buf[p..p + n] && buf[p..][n + 1..] == buf[p + n + 1..];
    return true, buf[p..p + n], p + n + 1, left - n - 1;
  }

  /** The strings in a row: artist, album, title. */
  method ExtractStrings(buf: seq<Byte>, p: nat, left: nat, count: nat)
    returns (ok: bool, ss: seq<seq<Byte>>, q: nat, after: nat)
    requires p + left == |buf|
    ensures q + after == |buf|
    ensures if ok then GetStrings(count, buf[p..]) == Ok(ss, buf[q..]) else GetStrings(count, buf[p..]) == Fail
    decreases count
  {
    if count == 0 {
      return true, [], p, left;
    }
    var s;
    ok, s, q, after := ExtractStr(buf, p, left);
    if !ok {
      return false, [], q, after;
    }
    ok, ss, q, after := ExtractStrings(buf, q, after, count - 1);
    return ok, [s] + ss, q, after;
  }

  method ExtractNumbers(buf: seq<Byte>, p: nat, left: nat) returns (ok: bool, v: (Int, Int, Int), q: nat)
    requires p + left == |buf|
    ensures q <= |buf|
    ensures if ok then GetNumbers(buf[p..]) == Ok(v, buf[q..]) else GetNumbers(buf[p..]) == Fail
  {
    var track, time, after;
    v := (0, 0, 0);
    ok, track, q, after := ExtractNum(buf, p, left, 4);
    if !ok { return; }
    ok, time, q, after := ExtractNum(buf, q, after, 4);
    if !ok { return; }
    if after == 0 {
      return false, v, q;
    }
    Pow256Known();
    assert buf[q..][1..] == buf[q + 1..];
    return true, (ToInt(track), ToInt(time), FromChar(buf[q])), q + 1;
  }

  /** The record, or the offset at which the error is reported. */
  method Deserialize(buf: Str) returns (rec: Option<Record>, p: nat)
    ensures p <= |buf|
    ensures match Deserialized(buf)
            case Fail => rec == None
            case Ok(r, rest) => rec == Some(r) && buf[p..] == rest
  {
    assert buf[0..] == buf;
    var ok, time, q, left := ExtractNum(buf, 0, |buf|, 8);
    if !ok { return None, q; }
    var ss, v;
    ok, ss, q, left := ExtractStrings(buf, q, left, 3);
    if !ok { return None, q; }
    ok, v, q := ExtractNumbers(buf, q, left);
    if !ok { return None, q; }
    Pow256Known();
    StringsAreShort(3, buf[8..]);
    return Some(Assembled(ToInt(time), ss, v)), q;
  }
}
