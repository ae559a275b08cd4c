/** The AAC decoder's input buffer (server/input/aac.cc): refilled by reads of any
    size, and scanned for the next ADTS frame. */
module AacScanner {
  import Bytes

  type Byte = Bytes.Byte
  type Bits1 = n: nat | n < 2
  type Bits5 = n: nat | n < 32
  type Bits6 = n: nat | n < 64
  type Bits13 = n: nat | n < 0x2000

  /** Length of the frame whose header these six bytes are, 0 if they are none:
      sync word, layer, and the 13 bits of the length. */
  function ParseFrame(d: seq<Byte>): Bits13
    requires |d| >= 6
  {
    if d[0] != 0xFF then 0
    else if (d[1] as int / 16) * 16 != 0xF0 then 0
    else if (d[1] as int / 2) % 4 != 0 then 0
    else (d[3] as int * 2048 + d[4] as int * 8 + d[5] as int / 32) % 0x2000
  }

  /** An ADTS header (Annex 1.A of ISO/IEC 14496-3): twelve bits of ones, the
      version, the layer, which is zero, the protection bit, then bits of no
      concern here up to the frame length, and behind it. */
  function Header(version: Bits1, protection: Bits1, b2: Byte, high: Bits6, length: Bits13, low: Bits5): (d: seq<Byte>)
    ensures |d| == 6
  {
    [0xFF, (0xF0 + 8 * version + protection) as Byte, b2, (4 * high + length / 2048) as Byte,
     ((length / 8) % 256) as Byte, (32 * (length % 8) + low) as Byte]
  }

  /** The parser reads the length out of every header. */
  lemma ParsesHeader(version: Bits1, protection: Bits1, b2: Byte, high: Bits6, length: Bits13, low: Bits5)
    ensures ParseFrame(Header(version, protection, b2, high, length, low)) == length
  {
    var d := Header(version, protection, b2, high, length, low);
    var v := d[3] as int * 2048 + d[4] as int * 8 + d[5] as int / 32;
    assert d[5] as int / 32 == length % 8;
    assert v == high * 0x2000 + length;
  }

  /** And it takes nothing else for a header of positive length. */
  lemma ParsesOnlyHeaders(d: seq<Byte>) returns (version: Bits1, protection: Bits1, high: Bits6, low: Bits5)
    requires |d| == 6 && ParseFrame(d) != 0
    ensures d == Header(version, protection, d[2], high, ParseFrame(d), low)
  {
    version, protection := (d[1] as int / 8) % 2, d[1] as int % 2;
    high, low := d[3] as int / 4, d[5] as int % 32;
    var len := (d[3] as int % 4) * 2048 + d[4] as int * 8 + d[5] as int / 32;
    assert ParseFrame(d) == len by {
      assert d[3] as int * 2048 + d[4] as int * 8 + d[5] as int / 32 == high * 0x2000 + len;
    }
    LengthParts(d[3], d[4], d[5]);
    assert d[1] as int == 0xF0 + 8 * version + protection;
  }

  lemma LengthParts(d3: Byte, d4: Byte, d5: Byte)
    ensures var a, b, c := d3 as int, d4 as int, d5 as int;
            var len := (a % 4) * 2048 + b * 8 + c / 32;
            len / 2048 == a % 4 && (len / 8) % 256 == b && len % 8 == c / 32
  {
    var a, b, c := d3 as int, d4 as int, d5 as int;
    var len := (a % 4) * 2048 + b * 8 + c / 32;
    assert len / 8 == (a % 4) * 256 + b;
  }

  // ----- the scan, on the whole stream

  const GIVE_UP: nat := 32768

  /** Length of the frame at `at` of a stream, 0 if there is none. */
  function LenAt(all: seq<Byte>, at: nat): (len: nat)
    ensures len < 0x2000
  {
    if at + 6 <= |all| then ParseFrame(all[at..at + 6]) else 0
  }

  /** What a scan should come to. */
  datatype Outcome = FrameFound(at: nat, len: nat) | EndOfStream | TooFar

  /** The scan of a stream of `total` bytes in which `frame(x)` is the length of
      the frame at `x`; `tests` more offsets may be looked at. */
  function ScanFrom(frame: nat -> nat, total: nat, at: nat, tests: nat): Outcome
    decreases tests
  {
    if at + 6 > total then EndOfStream
    else if tests == 0 then TooFar
    else if frame(at) != 0 then
      if at + frame(at) <= total then FrameFound(at, frame(at)) else EndOfStream
    else ScanFrom(frame, total, at + 1, tests - 1)
  }

  predicate NoFrames(frame: nat -> nat, from: nat, to: int) {
    forall y: nat :: from <= y < to ==> frame(y) == 0
  }

  /** The frame found is the earliest one, within the allowed number of tests and
      all there; otherwise there is none, or it is cut off, or too far away. */
  lemma {:induction false} ScanFindsEarliest(frame: nat -> nat, total: nat, at: nat, tests: nat)
    ensures match ScanFrom(frame, total, at, tests)
            case FrameFound(x, len) =>
              at <= x < at + tests && len == frame(x) != 0 && x + len <= total && NoFrames(frame, at, x)
            case EndOfStream =>
              || (exists x: nat :: at <= x < at + tests && x + 6 <= total && frame(x) != 0 && x + frame(x) > total && NoFrames(frame, at, x))
              || (total < at + tests + 6 && NoFrames(frame, at, total - 5))
            case TooFar => at + tests + 6 <= total && NoFrames(frame, at, at + tests)
    decreases tests
  {
    if at + 6 <= total && tests > 0 && frame(at) == 0 {
      ScanFindsEarliest(frame, total, at + 1, tests - 1);
    }
  }

  lemma {:induction false} SkipNoFrames(frame: nat -> nat, total: nat, at: nat, n: nat, tests: nat)
    requires n <= tests && at + n + 5 <= total && NoFrames(frame, at, at + n)
    ensures ScanFrom(frame, total, at, tests) == ScanFrom(frame, total, at + n, tests - n)
    decreases n
  {
    if n > 0 { SkipNoFrames(frame, total, at + 1, n - 1, tests - 1); }
  }

  // ----- the buffer

  class AacBuffer {
    const all: seq<Byte>      // the whole stream
    ghost const frame: nat -> nat
    var pos: nat              // how much of it has been read
    const mayFail: bool       // reads may report an error
    const rbuf: array<Byte>
    var rbufLen: nat
    var rbufPos: nat

    constructor (all: seq<Byte>, mayFail: bool, size: nat)
      requires size > 0x2000
      ensures this.all == all && this.mayFail == mayFail && Valid() && At() == 0 && fresh(rbuf)
    {
      this.all, this.mayFail, pos, rbufLen, rbufPos := all, mayFail, 0, 0, 0;
      frame := (x: nat) => LenAt(all, x);
      rbuf := new Byte[size];
    }

    /** The bytes skipped so far, those in the buffer and those not yet read are
        the stream, in this order. */
    ghost predicate Valid()
      reads this, rbuf
    {
      && rbuf.Length > 0x2000
      && rbufPos <= rbufLen <= rbuf.Length && rbufLen - rbufPos <= pos <= |all|
      && (forall x :: rbufPos <= x < rbufLen ==> rbuf[x] == all[x + (pos - rbufLen)])
      && (forall x: nat {:trigger LenAt(all, x)} :: frame(x) == LenAt(all, x))
    }

    /** How much of the stream has been consumed. */
    ghost function At(): nat
      reads this, rbuf
      requires Valid()
    {
      pos - (rbufLen - rbufPos)
    }

    function BufferLength(): int
      reads this
    {
      rbufLen - rbufPos
    }

    /** Any number of bytes, the end of the stream, or an error. */
    method IoRead(max: nat) returns (n: int)
      requires Valid() && 0 < max && rbufLen + max <= rbuf.Length
      modifies this`pos, this`rbufLen, rbuf
      ensures Valid() && At() == old(At()) && (n == -1 ==> mayFail)
      ensures n <= 0 ==> pos == old(pos) && (n == 0 ==> pos == |all|)
      ensures n >= -1 && (n > 0 ==> pos == old(pos) + n)
    {
      if mayFail {
        var fails: bool :| true;
        if fails { return -1; }
      }
      if pos == |all| { return 0; }
      var k: nat :| 0 < k <= max && k <= |all| - pos;
      forall j | 0 <= j < k { rbuf[rbufLen + j] := all[pos + j]; }
      assert forall x :: rbufLen <= x < rbufLen + k ==> rbuf[x] == rbuf[rbufLen + (x - rbufLen)];
      pos, rbufLen := pos + k, rbufLen + k;
      return k;
    }

    method BufferFill() returns (rc: int)
      requires Valid()
      modifies this`pos, this`rbufLen, this`rbufPos, rbuf
      ensures Valid() && At() == old(At()) && -1 <= rc <= 1 && (rc == -1 ==> mayFail)
      ensures rc == 0 ==> pos == |all| == old(pos)
      ensures rc == 1 ==> pos > old(pos) || BufferLength() == rbuf.Length
      ensures pos >= old(pos)
    {
      if rbufPos > 0 {
        var n := BufferLength();
        forall j | 0 <= j < n { rbuf[j] := rbuf[rbufPos + j]; }
        rbufLen, rbufPos := n, 0;
      }
      if rbufLen == rbuf.Length { return 1; }
      var n := IoRead(rbuf.Length - rbufLen);
      if n == -1 { return -1; }
      if n == 0 { return 0; }
      return 1;
    }

    method BufferConsume(n: nat)
      requires Valid() && n <= BufferLength()
      modifies this`rbufPos
      ensures Valid() && At() == old(At()) + n && BufferLength() == old(BufferLength()) - n
    {
      rbufPos := rbufPos + n;
    }

    method BufferFillMin(len: nat) returns (rc: int)
      requires Valid() && len < rbuf.Length
      modifies this`pos, this`rbufLen, this`rbufPos, rbuf
      ensures Valid() && At() == old(At()) && -1 <= rc <= 1 && (rc == -1 ==> mayFail)
      ensures rc == 1 ==> BufferLength() >= len
      ensures rc == 0 ==> pos == |all| && At() + len > |all|
    {
      while BufferLength() < len
        invariant Valid() && At() == old(At())
        decreases |all| - pos, rbuf.Length - BufferLength()
      {
        rc := BufferFill();
        if rc <= 0 { return; }
      }
      return 1;
    }

    /** The first six bytes at `n` in the buffer. */
    method HeaderAt(n: nat) returns (len: nat)
      requires Valid() && n + 6 <= BufferLength()
      ensures len == frame(At() + n) < 0x2000
    {
      var d := rbuf[rbufPos + n..rbufPos + n + 6];
      assert forall j :: 0 <= j < 6 ==> d[j] == all[(rbufPos + n + j) + (pos - rbufLen)];
      assert d == all[At() + n..At() + n + 6];
      len := ParseFrame(d);
      assert len == LenAt(all, At() + n);
    }

    /** The inner loop: tests the offsets of the buffer in turn, as long as tests
        are left.  `len` is zero if no frame was found. */
    method ScanBuffer(max: nat) returns (n: nat, len: nat, left: int)
      requires Valid() && BufferLength() >= 6
      ensures n <= BufferLength() - 5 && n <= max
      ensures NoFrames(frame, At(), At() + n)
      ensures len > 0 ==> n < BufferLength() - 5 && n < max && len == frame(At() + n) < 0x2000
      ensures len > 0 ==> left == max - n - 1
      ensures len == 0 ==> (left == -1 && n == max && n < BufferLength() - 5) || (left == max - n && n == BufferLength() - 5)
    {
      n, len, left := 0, 0, max;
      while n < BufferLength() - 5
        invariant 0 <= n <= BufferLength() - 5 && n <= max && left == max - n
        invariant NoFrames(frame, At(), At() + n)
      {
        if left == 0 { return n, 0, -1; }
        left := left - 1;
        len := HeaderAt(n);
        if len != 0 { return; }
        n := n + 1;
      }
      len := 0;
    }

    /** The result `rc` is that of a scan that comes to `o`. */
    ghost predicate Reports(rc: int, o: Outcome)
      reads this, rbuf
      requires Valid()
    {
      && -1 <= rc <= 1
      && (rc == 1 ==> o == FrameFound(At(), frame(At())) && BufferLength() >= frame(At()))
      && (rc == 0 ==> o == EndOfStream)
      && (rc == -1 ==> mayFail || o == TooFar)
    }

    /** One turn of the outer loop. */
    method ScanTurn(max: nat) returns (done: bool, rc: int, left: int)
      requires Valid()
      modifies this`pos, this`rbufLen, this`rbufPos, rbuf
      ensures Valid()
      ensures done ==> Reports(rc, ScanFrom(frame, |all|, old(At()), max))
      ensures !done ==> At() > old(At()) && 0 <= left <= max
                        && ScanFrom(frame, |all|, At(), left) == ScanFrom(frame, |all|, old(At()), max)
    {
      left := max;
      rc := BufferFillMin(6);
      if rc <= 0 { return true, rc, left; }
      var n, len;
      n, len, left := ScanBuffer(max);
      SkipNoFrames(frame, |all|, At(), n, max);
      if left == -1 { return true, -1, left; }
      BufferConsume(n);
      if len != 0 {
        rc := BufferFillMin(len);
        return true, rc, left;
      }
      done := false;
    }

    /** Without read errors the result is that of the scan over the stream, however
        the reads were sized.  1 means that the buffer begins with the earliest
        frame, complete. */
    method BufferFillFrame() returns (rc: int)
      requires Valid()
      modifies this`pos, this`rbufLen, this`rbufPos, rbuf
      ensures Valid() && Reports(rc, ScanFrom(frame, |all|, old(At()), GIVE_UP))
    {
      var max: nat := GIVE_UP;
      while true
        invariant Valid() && ScanFrom(frame, |all|, At(), max) == ScanFrom(frame, |all|, old(At()), GIVE_UP)
        decreases |all| - At()
      {
        var done, left;
        done, rc, left := ScanTurn(max);
        if done { return; }
        max := left;
      }
    }
  }
}
