/** The ring buffer of the output path (fifo_buf.cc): a bounded sequence kept in
    a circular array. */
module FifoBuf {
  import opened Wrappers

  /** The array index of the `k`-th byte behind `pos`. */
  function Slot(pos: nat, k: nat, size: nat): nat {
    if pos + k < size then pos + k else pos + k - size
  }

  lemma SlotIsModulo(pos: nat, k: nat, size: nat)
    requires pos < size && k <= size
    ensures (pos + k) % size == Slot(pos, k, size) < size
  {
    if pos + k < size {
    } else {
      ModuloOnce(pos + k - size, size);
    }
  }

  lemma ModuloOnce(x: nat, size: nat)
    requires x < size
    ensures (x + size) % size == x
  {
    var q, r := (x + size) / size, (x + size) % size;
    assert (q - 1) * size == x - r;
    if q != 1 { AtLeast(q - 1, size); }
  }

  /** The bytes of a circular array, oldest first. */
  function Ring<T>(a: seq<T>, pos: nat, fill: nat): (r: seq<T>)
    requires fill <= |a| && (pos < |a| || pos == 0)
    ensures |r| == fill
    ensures forall k :: 0 <= k < fill ==> r[k] == a[Slot(pos, k, |a|)]
  {
    seq(fill, k requires 0 <= k < fill => a[Slot(pos, k, |a|)])
  }

  /** The stretch that one round of `get` copies and steps over. */
  lemma RingFront<T>(a: seq<T>, pos: nat, fill: nat, k: nat)
    requires k <= fill <= |a| && pos < |a| && pos + k <= |a|
    ensures Slot(pos, k, |a|) < |a| && a[pos..pos + k] == Ring(a, pos, fill)[..k]
    ensures Ring(a, Slot(pos, k, |a|), fill - k) == Ring(a, pos, fill)[k..]
  {
    var r, pos' := Ring(a, pos, fill), Slot(pos, k, |a|);
    var r' := Ring(a, pos', fill - k);
    forall x | 0 <= x < |r'|
      ensures r'[x] == r[k..][x]
    {
      assert Slot(pos', x, |a|) == Slot(pos, k + x, |a|);
    }
  }

  /** The stretch that one round of `put` fills. */
  lemma RingBack<T>(a: seq<T>, a': seq<T>, pos: nat, fill: nat, d: seq<T>)
    requires fill + |d| <= |a| && pos < |a|
    requires fill < |a|
    requires var i := Slot(pos, fill, |a|);
             i + |d| <= (if i >= pos then |a| else pos) && a' == a[..i] + d + a[i + |d|..]
    ensures Ring(a', pos, fill + |d|) == Ring(a, pos, fill) + d
  {
  }

  lemma Regroup<T>(a: seq<T>, b: seq<T>, k: nat)
    requires k <= |b|
    ensures a + b == (a + b[..k]) + b[k..]
  {
  }

  class Fifo<T> {
    const buf: array<T>
    var fill: nat
    var pos: nat

    ghost predicate Valid()
      reads this
    {
      fill <= buf.Length && (pos < buf.Length || (buf.Length == 0 && pos == 0))
    }

    ghost function Contents(): seq<T>
      reads this, buf
      requires Valid()
    {
      Ring(buf[..], pos, fill)
    }

    constructor (n: nat, init: T)
      ensures Valid() && fresh(buf) && buf.Length == n && Contents() == []
    {
      buf := new T[n](_ => init);
      fill, pos := 0, 0;
    }

    method Clear()
      requires Valid()
      modifies this
      ensures Valid() && Contents() == []
    {
      fill, pos := 0, 0;
    }

    function GetSpace(): (space: nat)
      reads this, buf
      requires Valid()
      ensures space + |Contents()| == buf.Length
    {
      buf.Length - fill
    }

    function GetFill(): (n: nat)
      reads this, buf
      requires Valid()
      ensures n == |Contents()|
    {
      fill
    }

    /** memcpy into the array. */
    method CopyIn(i: nat, d: seq<T>)
      requires i + |d| <= buf.Length
      modifies buf
      ensures buf[..] == old(buf[..i]) + d + old(buf[i + |d|..])
    {
      forall j | 0 <= j < |d| { buf[i + j] := d[j]; }
    }

    /** Appends the longest prefix of `data` that fits. */
    method Put(data: seq<T>) returns (n: nat)
      requires Valid()
      modifies this`fill, buf
      ensures Valid()
      ensures n == Min(|data|, buf.Length - |old(Contents())|)
      ensures Contents() == old(Contents()) + data[..n]
    {
      n := 0;
      var size := buf.Length;
      while fill < size && n < |data|
        invariant Valid() && n <= |data| && n == fill - old(fill)
        invariant Contents() == old(Contents()) + data[..n]
        decreases |data| - n
      {
        SlotIsModulo(pos, fill, size);
        var i := (pos + fill) % size;
        var k := Min(|data| - n, (if i >= pos then size else pos) - i);
        ghost var a := buf[..];
        CopyIn(i, data[n..n + k]);
        RingBack(a, buf[..], pos, fill, data[n..n + k]);
        assert data[..n + k][..n] == data[..n] && data[..n + k][n..] == data[n..n + k];
        Regroup(old(Contents()), data[..n + k], n);
        fill, n := fill + k, n + k;
      }
    }

    /** memcpy out of the array and a step over what was copied. */
    method CopyOut(k: nat) returns (d: seq<T>)
      requires Valid() && k <= fill && pos < buf.Length && pos + k <= buf.Length
      modifies this`fill, this`pos
      ensures Valid() && fill == old(fill) - k
      ensures d == old(Contents())[..k] && Contents() == old(Contents())[k..]
    {
      RingFront(buf[..], pos, fill, k);
      SlotIsModulo(pos, k, buf.Length);
      ghost var a := buf[..];
      d := buf[pos..pos + k];
      fill, pos := fill - k, (pos + k) % buf.Length;
      assert buf[..] == a;
    }

    /** Removes the front of the buffer, at most `count` bytes. */
    method Get(count: nat) returns (data: seq<T>)
      requires Valid()
      modifies this`fill, this`pos
      ensures Valid()
      ensures data == old(Contents())[..Min(count, |old(Contents())|)]
      ensures Contents() == old(Contents())[|data|..]
    {
      data := [];
      var n: nat, size := 0, buf.Length;
      while fill > 0 && n < count
        invariant Valid() && n == |data| <= count && n + fill == old(fill)
        invariant old(Contents()) == data + Contents()
        decreases fill
      {
        var k: nat := if pos + fill <= size then fill else size - pos;
        if k > count - n { k := count - n; }
        Regroup(data, Contents(), k);
        var d := CopyOut(k);
        data, n := data + d, n + k;
      }
      Front(data, Contents());
    }

    /** The same loop on copies of the two counters. */
    method Peek(count: nat) returns (data: seq<T>)
      requires Valid()
      ensures data == Contents()[..Min(count, |Contents()|)]
    {
      data := [];
      var fill': nat, pos': nat, n, size := fill, pos, 0, buf.Length;
      while fill' > 0 && n < count
        invariant n == |data| <= count && n + fill' == fill
        invariant pos' < size || (size == 0 && pos' == 0)
        invariant Contents() == data + Ring(buf[..], pos', fill')
        decreases fill'
      {
        var k := if pos' + fill' <= size then fill' else size - pos';
        if k > count - n { k := count - n; }
        RingFront(buf[..], pos', fill', k);
        SlotIsModulo(pos', k, size);
        ghost var r := Ring(buf[..], pos', fill');
        Regroup(data, r, k);
        data := data + buf[pos'..pos' + k];
        n := n + k;
        fill', pos' := fill' - k, (pos' + k) % size;
      }
    }
  }

  // ----- whole runs of a bounded queue of capacity `size`

  datatype Op<T> = PutOp(data: seq<T>) | GetOp(count: nat) | PeekOp(count: nat) | ClearOp

  /** The queue and what has gone in and come out since it was last cleared. */
  datatype Log<T> = Log(contents: seq<T>, accepted: seq<T>, got: seq<T>)

  function Do<T>(size: nat, l: Log<T>, op: Op<T>): Log<T> {
    match op
    case PutOp(data) =>
      var n := Min(|data|, size - |l.contents|);
      if n < 0 then l else Log(l.contents + data[..n], l.accepted + data[..n], l.got)
    case GetOp(count) =>
      var n := Min(count, |l.contents|);
      Log(l.contents[n..], l.accepted, l.got + l.contents[..n])
    case PeekOp(_) => l
    case ClearOp => Log([], [], [])
  }

  function DoAll<T>(size: nat, l: Log<T>, ops: seq<Op<T>>): Log<T>
    decreases |ops|
  {
    if ops == [] then l else DoAll(size, Do(size, l, ops[0]), ops[1..])
  }

  /** Nothing is lost, doubled or reordered: since the last clear, what came out
      followed by what is still inside is what went in, and the buffer never
      holds more than its size. */
  lemma {:induction false} Conservation<T>(size: nat, l: Log<T>, ops: seq<Op<T>>)
    requires l.got + l.contents == l.accepted && |l.contents| <= size
    ensures var e := DoAll(size, l, ops);
            e.got + e.contents == e.accepted && |e.contents| <= size
    decreases |ops|
  {
    if ops != [] {
      var l' := Do(size, l, ops[0]);
      if ops[0].GetOp? {
        var n := Min(ops[0].count, |l.contents|);
        assert l.contents == l.contents[..n] + l.contents[n..];
        assert l'.got + l'.contents == l.got + l.contents;
      }
      Conservation(size, l', ops[1..]);
    }
  }

  /** Any run of calls on a fifo is the run of the bounded queue. */
  method RunFifo<T>(f: Fifo<T>, ops: seq<Op<T>>) returns (accepted: seq<T>, got: seq<T>)
    requires f.Valid()
    modifies f, f.buf
    ensures f.Valid()
    ensures Log(f.Contents(), accepted, got) == DoAll(f.buf.Length, Log(old(f.Contents()), [], []), ops)
  {
    accepted, got := [], [];
    var k := 0;
    ghost var start := Log(f.Contents(), [], []);
    assert ops[0..] == ops;
    while k < |ops|
      invariant 0 <= k <= |ops| && f.Valid()
      invariant DoAll(f.buf.Length, Log(f.Contents(), accepted, got), ops[k..]) == DoAll(f.buf.Length, start, ops)
    {
      assert ops[k..][1..] == ops[k + 1..];
      match ops[k] {
        case PutOp(data) =>
          var n := f.Put(data);
          accepted := accepted + data[..n];
        case GetOp(count) =>
          var data := f.Get(count);
          got := got + data;
        case PeekOp(count) =>
          var data := f.Peek(count);
        case ClearOp =>
          f.Clear();
          accepted, got := [], [];
      }
      k := k + 1;
    }
  }
}
