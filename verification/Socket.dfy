/** The Socket class, against the functions of Codec and Framing. */
module Sockets {
  import opened Bytes
  import opened Codec
  import opened Wrappers
  import opened Framing

  function Prepend<T>(xs: seq<T>, r: Read<seq<T>>): Read<seq<T>> {
    match r
    case Fail => Fail
    case Ok(ys, rest) => Ok(xs + ys, rest)
  }

  lemma PrependCons<T>(xs: seq<T>, x: T, r: Read<seq<T>>)
    ensures Prepend(xs, Cons(x, r)) == Prepend(xs + [x], r)
  {
    if r.Ok? {
      Assoc(xs, [x], r.value);
    }
  }

  lemma {:induction false} PutEntriesConcat(es: seq<Entry>, fs: seq<Entry>)
    ensures PutEntries(es + fs) == PutEntries(es) + PutEntries(fs)
  {
    if es == [] {
      assert es + fs == fs;
      assert [] + PutEntries(fs) == PutEntries(fs);
    } else {
      var all := es + fs;
      assert all[0] == es[0] && all[1..] == es[1..] + fs;
      PutEntriesConcat(es[1..], fs);
      Assoc(PutEntry(es[0]), PutEntries(es[1..]), PutEntries(fs));
    }
  }

  lemma PutEntriesLast(es: seq<Entry>, e: Entry)
    ensures PutEntries(es + [e]) == PutEntries(es) + PutEntry(e)
  {
    PutEntriesConcat(es, [e]);
    assert [e][1..] == [];
    assert PutEntry(e) + [] == PutEntry(e);
  }

  lemma NextPath(paths: seq<Entry>, k: nat)
    requires k < |paths| && paths[k].payload.None?
    ensures PutMany(KStr, paths[k..]) == Put(paths[k].key) + PutMany(KStr, paths[k + 1..])
  {
    assert paths[k..][1..] == paths[k + 1..];
    Assoc(Put(paths[k].key), PutEntries(paths[k + 1..]), Put(S([])));
  }

  lemma NoMorePaths()
    ensures PutMany(KStr, []) == Put(S([])) + []
  {
    assert [] + Put(S([])) == Put(S([])) == Put(S([])) + [];
  }

  /** The first `n` bytes out of `data`, behind those of `before`. */
  lemma OutPart(st: State, before: seq<Byte>, data: seq<Byte>, n: nat, after: seq<Byte>)
    requires n <= |data|
    ensures Out(Out(st, before), data[..n]) == Out(st, (before + data + after)[..|before| + n])
  {
    assert (before + data + after)[..|before| + n] == before + data[..n];
    OutOut(st, before, data[..n]);
  }

  /** `m` bytes of the next piece of `all` went out behind `sofar`. */
  lemma PieceSent(st: State, all: seq<Byte>, sofar: seq<Byte>, one: seq<Byte>, rest: seq<Byte>, m: nat)
    requires all == sofar + (one + rest) && m <= |one|
    ensures Out(Out(st, sofar), one[..m]) == Out(st, all[..|sofar| + m])
    ensures m == |one| ==> Out(Out(st, sofar), one[..m]) == Out(st, sofar + one) && all == (sofar + one) + rest
  {
    Assoc(sofar, one, rest);
    OutPart(st, sofar, one, m, rest);
    if m == |one| {
      OutWhole(Out(st, sofar), one);
      OutOut(st, sofar, one);
    }
  }

  lemma Ends<T>(s: seq<T>)
    ensures s[0..] == s && s[|s|..] == [] && [] + s == s
  {
  }

  lemma TakeOn<T>(a: seq<T>, b: seq<T>, n: nat)
    requires n <= |b|
    ensures a + b == (a + b[..n]) + b[n..]
  {
    TakeDrop(b, n);
    Assoc(a, b[..n], b[n..]);
  }

  lemma OutWhole(st: State, data: seq<Byte>)
    ensures Out(st, data[..|data|]) == Out(st, data)
  {
    assert data[..|data|] == data;
  }

  /** `wire` is what the other end gets; `input` is what the other end still
      sends before the connection ends, be it by an error. */
  class Socket {
    var buffering: nat
    var buf: seq<Byte>
    var packets: seq<seq<Byte>>
    var wire: seq<Byte>
    var input: seq<Byte>

    ghost function St(): State
      reads this
    {
      State(buffering, buf, packets, wire)
    }

    constructor (input: seq<Byte>)
      ensures St() == FRESH && this.input == input
    {
      buffering, buf, packets, wire := 0, [], [], [];
      this.input := input;
    }

    // Sending.  Each method says how many bytes went out; fewer than all of them
    // is the exception, which only an unbuffered send can raise.

    method Send(data: seq<Byte>) returns (n: nat)
      requires Valid(St())
      modifies this
      ensures n <= |data| && St() == Out(old(St()), data[..n])
      ensures old(buffering) > 0 ==> n == |data|
      ensures input == old(input)
    {
      if buffering > 0 {
        OutWhole(St(), data);
        buf := buf + data;
        return |data|;
      }
      n := 0;
      assert wire + data[..0] == wire;
      while n < |data|
        invariant n <= |data|
        invariant St() == Out(old(St()), data[..n]) && input == old(input)
      {
        var res: int :| -1 <= res <= |data| - n;
        if res <= 0 {
          return;
        }
        assert data[..n] + data[n..n + res] == data[..n + res];
        OutOut(old(St()), data[..n], data[n..n + res]);
        wire := wire + data[n..n + res];
        n := n + res;
      }
    }

    method Buffer()
      modifies this
      ensures St() == Opened(old(St())) && input == old(input)
    {
      buffering := buffering + 1;
    }

    /** Only the outermost flush sends; the buffer is empty after it even if that fails. */
    method Flush() returns (n: nat)
      requires Valid(St()) && buffering > 0
      modifies this
      ensures n <= old(|buf|) && input == old(input)
      ensures old(buffering) > 1 ==> n == old(|buf|) && St() == Flushed(old(St()))
      ensures old(buffering) == 1 ==> St() == State(0, [], old(packets), old(wire) + old(buf)[..n])
    {
      buffering := buffering - 1;
      if buffering > 0 || buf == [] {
        return |buf|;
      }
      var data := buf;
      buf := [];
      n := Send(data);
    }

    method Packet(number: Int)
      requires buffering == 0 && Valid(St())
      modifies this
      ensures St() == Out(Opened(old(St())), Put(I(number))) && input == old(input)
    {
      Buffer();
      var _ := SendScalar(I(number));
      OutWhole(Opened(old(St())), Put(I(number)));
    }

    method Finish()
      requires buffering == 1
      modifies this
      ensures St() == Finished(old(St())) && input == old(input)
    {
      if buf != [] {
        packets := packets + [buf];
        buf := [];
      }
      buffering := 0;
    }

    /** The front packet in one piece, or not at all; a piece of it ends the
        connection.  `room` is what the kernel takes without blocking. */
    method SendNextPacketNoblock(room: nat) returns (ok: bool, broken: bool)
      requires buffering == 0
      modifies this
      ensures ok <==> old(packets) != [] && |old(packets)[0]| <= room
      ensures broken <==> old(packets) != [] && 0 < room < |old(packets)[0]|
      ensures buffering == old(buffering) && buf == old(buf) && input == old(input)
      ensures packets == if ok then old(packets)[1..] else old(packets)
      ensures wire == old(wire) + if ok then old(packets)[0] else if broken then old(packets)[0][..room] else []
    {
      if packets == [] {
        return false, false;
      }
      var d := packets[0];
      if |d| <= room {
        wire, packets := wire + d, packets[1..];
        return true, false;
      }
      wire := wire + d[..room];
      return false, room > 0;
    }

    method SendScalar(v: Scalar) returns (n: nat)
      requires Valid(St())
      modifies this
      ensures n <= |Put(v)| && St() == Out(old(St()), Put(v)[..n])
      ensures old(buffering) > 0 ==> n == |Put(v)|
      ensures input == old(input)
    {
      match v {
        case I(i) => IntFits(i); n := Send(FromInt(i, 4));
        case B(b) => n := Send([if b then 1 else 0]);
        case S(s) =>
          var size := Little(|s|, 8);
          n := Send(size);
          OutPart(old(St()), [], size, n, s);
          assert [] + size == size;
          if n == |size| {
            OutNothing(old(St()));
            OutWhole(old(St()), size);
            var m := Send(s);
            OutPart(old(St()), size, s, m, []);
            assert size + s + [] == size + s;
            n := n + m;
          }
      }
    }

    /** The next piece of `all`, of which `sofar` is out already. */
    method SendPiece(v: Scalar, ghost st: State, ghost all: seq<Byte>, ghost sofar: seq<Byte>, ghost rest: seq<Byte>)
      returns (m: nat)
      requires Valid(st) && St() == Out(st, sofar) && all == sofar + (Put(v) + rest)
      modifies this
      ensures m <= |Put(v)| && |sofar| + m <= |all| && St() == Out(st, all[..|sofar| + m])
      ensures m == |Put(v)| ==> St() == Out(st, sofar + Put(v)) && all == (sofar + Put(v)) + rest
      ensures st.buffering > 0 ==> m == |Put(v)|
      ensures input == old(input)
    {
      m := SendScalar(v);
      PieceSent(st, all, sofar, Put(v), rest, m);
    }

    /** One round of the loop over the paths. */
    method SendNextPath(paths: seq<Entry>, k: nat, ghost st: State, ghost all: seq<Byte>, ghost sofar: seq<Byte>, ghost rest: seq<Byte>)
      returns (m: nat, whole: bool, ghost sofar': seq<Byte>, ghost rest': seq<Byte>)
      requires k < |paths| && Typed(KStr, false, paths)
      requires Valid(st) && St() == Out(st, sofar) && all == sofar + rest && rest == PutMany(KStr, paths[k..])
      modifies this
      ensures |sofar| + m <= |all| && St() == Out(st, all[..|sofar| + m])
      ensures whole ==> St() == Out(st, sofar') && |sofar'| == |sofar| + m
      ensures rest' == PutMany(KStr, paths[k + 1..]) && all == sofar' + rest'
      ensures st.buffering > 0 ==> whole
      ensures input == old(input)
    {
      assert paths[k] in paths;
      NextPath(paths, k);
      ghost var one := Put(paths[k].key);
      sofar', rest' := sofar + one, PutMany(KStr, paths[k + 1..]);
      Assoc(sofar, one, rest');
      m := SendPiece(paths[k].key, st, all, sofar, rest');
      whole := m == |Put(paths[k].key)|;
    }

    /** The loop; on a broken connection it ends early. */
    method SendPaths(paths: seq<Entry>, ghost all: seq<Byte>) returns (n: nat, whole: bool, ghost sofar: seq<Byte>)
      requires Valid(St()) && Typed(KStr, false, paths) && all == PutMany(KStr, paths)
      modifies this
      ensures !whole ==> n <= |all| && St() == Out(old(St()), all[..n]) && old(buffering) == 0
      ensures whole ==> n == |sofar| && St() == Out(old(St()), sofar) && all == sofar + PutMany(KStr, [])
      ensures input == old(input)
    {
      ghost var st, rest := St(), all;
      var k := 0;
      n, whole, sofar := 0, true, [];
      OutNothing(st);
      Ends(paths);
      Ends(all);
      while k < |paths| && whole
        invariant k <= |paths| && n <= |all| && input == old(input)
        invariant whole ==> n == |sofar| && St() == Out(st, sofar) && all == sofar + rest && rest == PutMany(KStr, paths[k..])
        invariant !whole ==> St() == Out(st, all[..n]) && st.buffering == 0
      {
        var m;
        m, whole, sofar, rest := SendNextPath(paths, k, st, all, sofar, rest);
        n := n + m;
        k := k + 1;
      }
    }

    /** A list of paths goes out without a guard of its own, path by path. */
    method SendPlist(paths: seq<Entry>) returns (n: nat)
      requires Valid(St()) && Typed(KStr, false, paths)
      modifies this
      ensures n <= |PutMany(KStr, paths)| && St() == Out(old(St()), PutMany(KStr, paths)[..n])
      ensures old(buffering) > 0 ==> n == |PutMany(KStr, paths)|
      ensures input == old(input)
    {
      var whole;
      ghost var sofar;
      n, whole, sofar := SendPaths(paths, PutMany(KStr, paths));
      if whole {
        NoMorePaths();
        var m := SendPiece(S([]), old(St()), PutMany(KStr, paths), sofar, []);
        n := n + m;
      }
    }

    // Composite values, each within a guard.

    method SendTags(tags: Option<FileTags>) returns (n: nat)
      requires Valid(St())
      modifies this
      ensures n <= |PutTags(tags)| && St() == Out(old(St()), PutTags(tags)[..n])
      ensures old(buffering) > 0 ==> n == |PutTags(tags)|
      ensures input == old(input)
    {
      if tags.None? {
        n := SendScalar(B(false));
        return;
      }
      var n0 := |buf|;
      Buffer();
      ghost var st := St();
      var _ := SendScalar(B(true));
      OutWhole(st, Put(B(true)));
      SendFields(TagFields(tags.value));
      OutOut(st, Put(B(true)), PutAll(TagFields(tags.value)));
      n := Done(n0, old(St()), PutTags(tags));
    }

    /** Sends within a guard. */
    method SendFields(fields: seq<Scalar>)
      requires buffering > 0
      modifies this
      ensures St() == Out(old(St()), PutAll(fields)) && input == old(input)
    {
      if fields == [] {
        OutNothing(St());
        return;
      }
      var _ := SendScalar(fields[0]);
      OutWhole(old(St()), Put(fields[0]));
      SendFields(fields[1..]);
      OutOut(old(St()), Put(fields[0]), PutAll(fields[1..]));
    }

    method SendChanges(changes: Option<TagChanges>) returns (n: nat)
      requires Valid(St())
      modifies this
      ensures n <= |PutChanges(changes)| && St() == Out(old(St()), PutChanges(changes)[..n])
      ensures old(buffering) > 0 ==> n == |PutChanges(changes)|
      ensures input == old(input)
    {
      if changes.None? {
        n := SendScalar(B(false));
        return;
      }
      var n0 := |buf|;
      Buffer();
      ghost var st := St();
      var _ := SendScalar(B(true));
      OutWhole(st, Put(B(true)));
      SendOptionals(ChangeFields(changes.value));
      OutOut(st, Put(B(true)), PutOptionals(ChangeFields(changes.value)));
      n := Done(n0, old(St()), PutChanges(changes));
    }

    method SendOptionals(fields: seq<Option<Scalar>>)
      requires buffering > 0
      modifies this
      ensures St() == Out(old(St()), PutOptionals(fields)) && input == old(input)
    {
      if fields == [] {
        OutNothing(St());
        return;
      }
      var _ := SendScalar(B(fields[0].Some?));
      ghost var flag := Put(B(fields[0].Some?));
      OutWhole(old(St()), flag);
      if fields[0].Some? {
        ghost var st := St();
        var _ := SendScalar(fields[0].value);
        OutWhole(st, Put(fields[0].value));
        OutOut(old(St()), flag, Put(fields[0].value));
      }
      SendOptionals(fields[1..]);
      OutOut(old(St()), PutOptional(fields[0]), PutOptionals(fields[1..]));
    }

    /** The entries of a set or a map, in the order in which it is walked. */
    method SendEntries(k: ScalarKind, m: map<Scalar, Option<Str>>, paired: bool)
      returns (n: nat, ghost walk: seq<Entry>)
      requires Valid(St())
      requires forall key :: key in m ==> KindOf(key) == k && m[key].Some? == paired
      modifies this
      ensures Lists(m, walk) && Typed(k, paired, walk) && |walk| == |m.Keys|
      ensures n <= |PutMany(k, walk)| && St() == Out(old(St()), PutMany(k, walk)[..n])
      ensures old(buffering) > 0 ==> n == |PutMany(k, walk)|
      ensures input == old(input)
    {
      var n0 := |buf|;
      Buffer();
      ghost var st := St();
      walk := SendWalk(k, m, paired);
      var _ := SendScalar(Stop(k));
      OutWhole(Out(st, PutEntries(walk)), Put(Stop(k)));
      OutOut(st, PutEntries(walk), Put(Stop(k)));
      n := Done(n0, old(St()), PutMany(k, walk));
    }

    method SendWalk(k: ScalarKind, m: map<Scalar, Option<Str>>, paired: bool) returns (ghost walk: seq<Entry>)
      requires buffering > 0
      requires forall key :: key in m ==> KindOf(key) == k && m[key].Some? == paired
      modifies this
      ensures Lists(m, walk) && Typed(k, paired, walk) && |walk| == |m.Keys|
      ensures St() == Out(old(St()), PutEntries(walk)) && input == old(input)
    {
      var todo := m.Keys;
      walk := [];
      OutNothing(St());
      while todo != {}
        invariant todo <= m.Keys && |walk| + |todo| == |m.Keys|
        invariant forall e <- walk :: e.key in m && m[e.key] == e.payload
        invariant forall key :: key in m && key !in todo ==> exists e :: e in walk && e.key == key
        invariant St() == Out(old(St()), PutEntries(walk)) && input == old(input)
        decreases |todo|
      {
        var key :| key in todo;
        ghost var st := St();
        SendEntry(Entry(key, m[key]));
        OutOut(old(St()), PutEntries(walk), PutEntry(Entry(key, m[key])));
        PutEntriesLast(walk, Entry(key, m[key]));
        ghost var was := walk;
        walk := walk + [Entry(key, m[key])];
        assert forall e :: e in walk <==> e in was || e == Entry(key, m[key]);
        todo := todo - {key};
      }
    }

    method SendEntry(e: Entry)
      requires buffering > 0
      modifies this
      ensures St() == Out(old(St()), PutEntry(e)) && input == old(input)
    {
      var _ := SendScalar(e.key);
      OutWhole(old(St()), Put(e.key));
      if e.payload.Some? {
        ghost var st := St();
        var _ := SendScalar(S(e.payload.value));
        OutWhole(st, Put(S(e.payload.value)));
        OutOut(old(St()), Put(e.key), Put(S(e.payload.value)));
      }
    }

    /** The end of a guard that is done, `data` having been sent within it. */
    method Done(n0: nat, ghost st: State, ghost data: seq<Byte>) returns (n: nat)
      requires Valid(st) && St() == Out(Opened(st), data) && n0 == |st.buf|
      modifies this
      ensures n <= |data| && St() == Out(st, data[..n])
      ensures st.buffering > 0 ==> n == |data|
      ensures input == old(input)
    {
      n := Flush();
      n := n - n0;
      OutWhole(st, data);
      assert st.buffering == 0 ==> st.buf + data == data;
    }

    /** The end of a guard that is not done: all that was sent within it is gone. */
    method RollBack(n0: nat, ghost st: State, ghost data: seq<Byte>)
      requires Valid(st) && St() == Out(Opened(st), data) && n0 == |st.buf|
      modifies this
      ensures St() == st && input == old(input)
    {
      assert (st.buf + data)[..n0] == st.buf;
      buf := buf[..n0];
      buffering := buffering - 1;
    }

    // Receiving; None is the exception.

    method Receive(n: nat) returns (data: Option<seq<Byte>>)
      modifies this`input
      ensures match Take(old(input), n)
              case Fail => data == None
              case Ok(x, rest) => data == Some(x) && input == rest
    {
      var got: seq<Byte> := [];
      while |got| < n
        invariant |got| <= n && old(input) == got + input
        decreases n - |got|
      {
        if input == [] {
          return None;
        }
        var res: nat :| 0 < res <= |input| && res <= n - |got|;
        TakeOn(got, input, res);
        got, input := got + input[..res], input[res..];
      }
      Front(got, input);
      return Some(got);
    }

    method GetScalar(k: ScalarKind) returns (r: Option<Scalar>)
      modifies this`input
      ensures match Get(k, old(input))
              case Fail => r == None
              case Ok(v, rest) => r == Some(v) && input == rest
    {
      Pow256Known();
      match k {
        case KInt =>
          var x := Receive(4);
          return if x.None? then None else Some(I(ToInt(x.value)));
        case KBool =>
          var x := Receive(1);
          return if x.None? then None else Some(B(x.value[0] != 0));
        case KStr =>
          var size := Receive(8);
          if size.None? {
            return None;
          }
          LittleOfNumber(size.value);
          var x := Receive(Number(size.value));
          return if x.None? then None else Some(S(x.value));
      }
    }

    method GetFields(ks: seq<ScalarKind>) returns (r: Option<seq<Scalar>>)
      modifies this`input
      ensures match GetAll(ks, old(input))
              case Fail => r == None
              case Ok(vs, rest) => r == Some(vs) && input == rest
    {
      if ks == [] {
        return Some([]);
      }
      var x := GetScalar(ks[0]);
      if x.None? {
        return None;
      }
      var xs := GetFields(ks[1..]);
      return if xs.None? then None else Some([x.value] + xs.value);
    }

    method GetFileTags() returns (r: Option<Option<FileTags>>)
      modifies this`input
      ensures match GetTags(old(input))
              case Fail => r == None
              case Ok(tags, rest) => r == Some(tags) && input == rest
    {
      var present := GetScalar(KBool);
      if present.None? {
        return None;
      }
      if !present.value.b {
        return Some(None);
      }
      var f := GetFields(TAG_KINDS);
      if f.None? {
        return None;
      }
      FieldKinds(f.value);
      var v := f.value;
      return Some(Some(FileTags(v[0].s, v[1].s, v[2].s, v[3].i, v[4].i, v[5].i)));
    }

    method GetOptionalFields(ks: seq<ScalarKind>) returns (r: Option<seq<Option<Scalar>>>)
      modifies this`input
      ensures match GetOptionals(ks, old(input))
              case Fail => r == None
              case Ok(os, rest) => r == Some(os) && input == rest
    {
      if ks == [] {
        return Some([]);
      }
      var present := GetScalar(KBool);
      if present.None? {
        return None;
      }
      var o: Option<Scalar> := None;
      if present.value.b {
        o := GetScalar(ks[0]);
        if o.None? {
          return None;
        }
      }
      var xs := GetOptionalFields(ks[1..]);
      return if xs.None? then None else Some([o] + xs.value);
    }

    method GetTagChanges() returns (r: Option<Option<TagChanges>>)
      modifies this`input
      ensures match GetChanges(old(input))
              case Fail => r == None
              case Ok(changes, rest) => r == Some(changes) && input == rest
    {
      var present := GetScalar(KBool);
      if present.None? {
        return None;
      }
      if !present.value.b {
        return Some(None);
      }
      var f := GetOptionalFields(CHANGE_KINDS);
      return if f.None? then None else Some(Some(ChangesOf(f.value)));
    }

    /** get(plist) and get_str_set, get_idx_set: elements up to the end mark. */
    method GetElements(k: ScalarKind) returns (r: Option<seq<Scalar>>)
      modifies this`input
      ensures match GetMany(k, false, old(input))
              case Fail => r == None
              case Ok(es, rest) => r.Some? && input == rest && es == Bare(r.value)
    {
      var got: seq<Scalar> := [];
      PrependNothing(GetMany(k, false, input));
      while true
        invariant GetMany(k, false, old(input)) == Prepend(Bare(got), GetMany(k, false, input))
        decreases |input|
      {
        var x := GetScalar(k);
        if x.None? {
          return None;
        }
        if x.value == Stop(k) {
          assert Bare(got) + [] == Bare(got);
          return Some(got);
        }
        PrependCons(Bare(got), Entry(x.value, None), GetMany(k, false, input));
        assert Bare(got + [x.value]) == Bare(got) + [Entry(x.value, None)];
        got := got + [x.value];
      }
    }

    /** get_str_map and get_int_map: pairs up to the end mark; a key that comes
        again replaces what it had. */
    method GetPairs(k: ScalarKind) returns (r: Option<map<Scalar, Option<Str>>>)
      modifies this`input
      ensures match GetMany(k, true, old(input))
              case Fail => r == None
              case Ok(es, rest) => r == Some(Pairs(es)) && input == rest
    {
      var m: map<Scalar, Option<Str>> := map[];
      ghost var got: seq<Entry> := [];
      PrependNothing(GetMany(k, true, input));
      while true
        invariant GetMany(k, true, old(input)) == Prepend(got, GetMany(k, true, input))
        invariant m == Pairs(got)
        decreases |input|
      {
        var x := GetScalar(k);
        if x.None? {
          return None;
        }
        if x.value == Stop(k) {
          assert got + [] == got;
          return Some(m);
        }
        var s := GetScalar(KStr);
        if s.None? {
          return None;
        }
        PrependCons(got, Entry(x.value, Some(s.value.s)), GetMany(k, true, input));
        assert (got + [Entry(x.value, Some(s.value.s))])[..|got|] == got;
        got := got + [Entry(x.value, Some(s.value.s))];
        m := m[x.value := Some(s.value.s)];
      }
    }
  }

  function Bare(vs: seq<Scalar>): (es: seq<Entry>)
    ensures |es| == |vs|
  {
    seq(|vs|, k requires 0 <= k < |vs| => Entry(vs[k], None))
  }

  lemma PrependNothing<T>(r: Read<seq<T>>)
    ensures Prepend([], r) == r
  {
    if r.Ok? {
      assert [] + r.value == r.value;
    }
  }
}
