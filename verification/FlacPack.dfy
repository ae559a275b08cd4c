/** Interleaving of decoded FLAC channels into PCM bytes (server/input/flac.cc):
    one strided pass over the output per channel. */
module FlacPack {
  import Bytes
  import opened Wrappers
  import Audio = AudioConversion

  type Byte = Bytes.Byte
  newtype Sample = x: int | -0x8000_0000 <= x < 0x8000_0000

  /** `(byte)(v >> shift)`, the shift being arithmetic. */
  function ByteOf(v: int, divisor: int): Byte
    requires divisor > 0
  {
    ((v / divisor) % 256) as Byte
  }

  /** Bits per sample. */
  type Bps = n: nat | n == 8 || n == 16 || n == 24 || n == 32 witness 8

  /** Output bytes per sample; 24-bit samples are stored in 32. */
  function Width(bps: Bps): nat {
    if bps == 24 then 4 else bps / 8
  }

  /** Byte `b` of a sample, little end first, 24-bit samples left-aligned. */
  function PackedByte(v: Sample, bps: Bps, b: nat): Byte
    requires b < Width(bps)
  {
    if Width(bps) == 4 then
      if b == 0 then 0 else if b == 1 then ByteOf(v as int, 1) else if b == 2 then ByteOf(v as int, 0x100) else ByteOf(v as int, 0x1_0000)
    else
      if b == 0 then ByteOf(v as int, 1) else ByteOf(v as int, 0x100)
  }

  /** Where byte `b` of sample `i` of channel `ch` goes. */
  function Place(channels: nat, width: nat, i: nat, ch: nat, b: nat): nat {
    (i * channels + ch) * width + b
  }

  lemma {:induction false} MulMono(a: nat, b: nat, c: nat)
    ensures a <= b ==> a * c <= b * c
    decreases b - a
  {
    if a < b {
      MulMono(a, b - 1, c);
      assert b * c == (b - 1) * c + c;
    }
  }

  lemma NextPlace(channels: nat, width: nat, k: nat, ch: nat)
    ensures Place(channels, width, k + 1, ch, 0) == Place(channels, width, k, ch, 0) + width * channels
    ensures Place(channels, width, 0, ch, 0) == width * ch
  {
    assert (k + 1) * channels + ch == (k * channels + ch) + channels;
    assert ((k * channels + ch) + channels) * width == (k * channels + ch) * width + channels * width;
  }

  /** Places are in range, and two different bytes never share one. */
  lemma PlaceInRange(channels: nat, width: nat, n: nat, i: nat, ch: nat, b: nat)
    requires i < n && ch < channels && b < width
    ensures Place(channels, width, i, ch, b) < n * channels * width
  {
    MulMono(i + 1, n, channels);
    assert (i + 1) * channels == i * channels + channels;
    var q := i * channels + ch;
    MulMono(q + 1, n * channels, width);
    assert (q + 1) * width == q * width + width;
  }

  lemma PlaceIsInjective(channels: nat, width: nat, i: nat, ch: nat, b: nat, i': nat, ch': nat, b': nat)
    requires ch < channels && ch' < channels && b < width && b' < width
    requires Place(channels, width, i, ch, b) == Place(channels, width, i', ch', b')
    ensures i == i' && ch == ch' && b == b'
  {
    SplitUnique(i * channels + ch, b, i' * channels + ch', b', width);
    SplitUnique(i, ch, i', ch', channels);
  }

  lemma SplitUnique(q: nat, r: nat, q': nat, r': nat, n: nat)
    requires r < n && r' < n && q * n + r == q' * n + r'
    ensures q == q' && r == r'
  {
    assert (q - q') * n == r' - r;
    if q != q' { AtLeast(q - q', n); }
  }

  lemma {:induction false} PlaceExists(channels: nat, width: nat, n: nat, x: nat) returns (i: nat, ch: nat, b: nat)
    requires x < n * channels * width
    ensures i < n && ch < channels && b < width && x == Place(channels, width, i, ch, b)
  {
    var q;
    q, b := Split(x, n * channels, width);
    i, ch := Split(q, n, channels);
  }

  lemma {:induction false} Split(x: nat, m: nat, n: nat) returns (q: nat, r: nat)
    requires x < m * n
    ensures q < m && r < n && x == q * n + r
    decreases m
  {
    if x < n {
      q, r := 0, x;
    } else {
      assert x - n < (m - 1) * n;
      q, r := Split(x - n, m - 1, n);
      q := q + 1;
    }
  }

  /** Pass `ch` has stored everything of the channels before it and the first
      `k` samples of its own. */
  predicate Written(channels: nat, width: nat, i: nat, ch: nat, passes: nat, k: nat) {
    ch < passes || (ch == passes && i < k)
  }

  method PackPcmSigned(data: array<Byte>, input: seq<seq<Sample>>, wideSamples: nat, channels: nat, bps: Bps) returns (n: nat)
    requires |input| == channels && forall ch :: 0 <= ch < channels ==> |input[ch]| >= wideSamples
    requires data.Length >= wideSamples * channels * Width(bps)
    modifies data
    ensures n == wideSamples * channels * Width(bps)
    ensures Done(data, input, wideSamples, channels, bps, channels, 0)
    ensures forall x :: n <= x < data.Length ==> data[x] == old(data[x])
  {
    var width := Width(bps);
    n := wideSamples * channels * width;
    var channel := 0;
    while channel < channels
      invariant 0 <= channel <= channels
      invariant Done(data, input, wideSamples, channels, bps, channel, 0)
      invariant forall x :: n <= x < data.Length ==> data[x] == old(data[x])
    {
      PackChannel(data, input, wideSamples, channels, bps, channel, n);
      PassDone(data, input, wideSamples, channels, bps, channel);
      channel := channel + 1;
    }
  }

  /** The pass for one channel. */
  method PackChannel(data: array<Byte>, input: seq<seq<Sample>>, wideSamples: nat, channels: nat, bps: Bps, channel: nat, n: nat)
    requires |input| == channels && forall ch :: 0 <= ch < channels ==> |input[ch]| >= wideSamples
    requires channel < channels && n == wideSamples * channels * Width(bps) <= data.Length
    requires Done(data, input, wideSamples, channels, bps, channel, 0)
    modifies data
    ensures Done(data, input, wideSamples, channels, bps, channel, wideSamples)
    ensures forall x :: n <= x < data.Length ==> data[x] == old(data[x])
  {
    var width := Width(bps);
    var k := 0;
    var at := width * channel;
    NextPlace(channels, width, 0, channel);
    while k < wideSamples
      invariant 0 <= k <= wideSamples
      invariant at == Place(channels, width, k, channel, 0)
      invariant Done(data, input, wideSamples, channels, bps, channel, k)
      invariant forall x :: n <= x < data.Length ==> data[x] == old(data[x])
    {
      StoreSample(data, input, wideSamples, channels, bps, channel, k, at);
      NextPlace(channels, width, k, channel);
      at := at + width * channels;
      k := k + 1;
    }
  }

  lemma PassDone(data: array<Byte>, input: seq<seq<Sample>>, n: nat, channels: nat, bps: Bps, ch: nat)
    requires |input| == channels && forall ch :: 0 <= ch < channels ==> |input[ch]| >= n
    requires data.Length >= n * channels * Width(bps)
    requires Done(data, input, n, channels, bps, ch, n)
    ensures Done(data, input, n, channels, bps, ch + 1, 0)
  {
    forall i: nat, c: nat, b: nat | i < n && c < channels && b < Width(bps) && Written(channels, Width(bps), i, c, ch + 1, 0)
      ensures Place(channels, Width(bps), i, c, b) < n * channels * Width(bps)
      ensures data[Place(channels, Width(bps), i, c, b)] == PackedByte(input[c][i], bps, b)
    {
      assert Written(channels, Width(bps), i, c, ch, n);
    }
  }

  /** Every byte of the channels before `passes`, and of the first `k` samples of
      that one, is in its place. */
  ghost predicate Done(data: array<Byte>, input: seq<seq<Sample>>, n: nat, channels: nat, bps: Bps, passes: nat, k: nat)
    requires |input| == channels && forall ch :: 0 <= ch < channels ==> |input[ch]| >= n
    requires data.Length >= n * channels * Width(bps)
    reads data
  {
    forall i: nat, ch: nat, b: nat ::
      i < n && ch < channels && b < Width(bps) && Written(channels, Width(bps), i, ch, passes, k) ==>
        Place(channels, Width(bps), i, ch, b) < n * channels * Width(bps) &&
        data[Place(channels, Width(bps), i, ch, b)] == PackedByte(input[ch][i], bps, b)
  }

  /** The body of the inner loop. */
  method StoreSample(data: array<Byte>, input: seq<seq<Sample>>, n: nat, channels: nat, bps: Bps, ch: nat, k: nat, at: nat)
    requires |input| == channels && forall ch :: 0 <= ch < channels ==> |input[ch]| >= n
    requires data.Length >= n * channels * Width(bps)
    requires ch < channels && k < n && at == Place(channels, Width(bps), k, ch, 0)
    requires Done(data, input, n, channels, bps, ch, k)
    modifies data
    ensures Done(data, input, n, channels, bps, ch, k + 1)
    ensures forall x :: n * channels * Width(bps) <= x < data.Length ==> data[x] == old(data[x])
  {
    var width := Width(bps);
    var sample := input[ch][k];
    forall b: nat | b < width
      ensures Place(channels, width, k, ch, b) == at + b < n * channels * width
    {
      PlaceInRange(channels, width, n, k, ch, b);
    }
    assert at + width <= n * channels * width by { PlaceInRange(channels, width, n, k, ch, width - 1); }
    if bps == 8 {
      data[at] := ByteOf(sample as int, 1);
    } else if bps == 16 {
      data[at + 1] := ByteOf(sample as int, 0x100);
      data[at] := ByteOf(sample as int, 1);
    } else {
      data[at + 3] := ByteOf(sample as int, 0x1_0000);
      data[at + 2] := ByteOf(sample as int, 0x100);
      data[at + 1] := ByteOf(sample as int, 1);
      data[at] := 0;
    }
    forall i: nat, c: nat, b: nat | i < n && c < channels && b < width && Written(channels, width, i, c, ch, k + 1)
      ensures Place(channels, width, i, c, b) < n * channels * width
      ensures data[Place(channels, width, i, c, b)] == PackedByte(input[c][i], bps, b)
    {
      PlaceInRange(channels, width, n, i, c, b);
      var x := Place(channels, width, i, c, b);
      if at <= x < at + width {
        PlaceIsInjective(channels, width, i, c, b, k, ch, x - at);
      }
    }
  }

  // ----- unpacking

  function Signed(u: int, range_: int): int {
    if u < range_ / 2 then u else u - range_
  }

  /** The range of the samples of a given depth; more than 24 bits are not kept. */
  function Depth(bps: Bps): int {
    if bps == 8 then 0x100 else if bps == 16 then 0x1_0000 else 0x100_0000
  }

  /** Reading a packed sample back. */
  function Unpack(bytes: seq<Byte>, bps: Bps): int
    requires |bytes| == Width(bps)
  {
    if bps == 8 then Signed(bytes[0] as int, 0x100)
    else if bps == 16 then Signed(bytes[0] as int + 0x100 * bytes[1] as int, 0x1_0000)
    else Signed(bytes[1] as int + 0x100 * bytes[2] as int + 0x1_0000 * bytes[3] as int, 0x100_0000)
  }

  function Packed(v: Sample, bps: Bps): (bytes: seq<Byte>)
    ensures |bytes| == Width(bps)
  {
    seq(Width(bps), b requires 0 <= b < Width(bps) => PackedByte(v, bps, b))
  }

  /** A sample is recovered exactly if it is in the range of its depth, which for
      32-bit streams means that its upper eight bits are only its sign. */
  lemma UnpackRecovers(v: Sample, bps: Bps)
    ensures Unpack(Packed(v, bps), bps) == v as int <==> -Depth(bps) / 2 <= v as int < Depth(bps) / 2
  {
    var x := v as int;
    DigitsOf(x);
    var bytes := Packed(v, bps);
    if bps == 8 {
      assert bytes[0] == ByteOf(x, 1);
      assert Unpack(bytes, bps) == Signed(x % 0x100, 0x100);
      Back8(x);
    } else if bps == 16 {
      assert bytes[0] == ByteOf(x, 1) && bytes[1] == ByteOf(x, 0x100);
      assert Unpack(bytes, bps) == Signed(x % 0x1_0000, 0x1_0000);
      Back16(x);
    } else {
      assert bytes[1] == ByteOf(x, 1) && bytes[2] == ByteOf(x, 0x100) && bytes[3] == ByteOf(x, 0x1_0000);
      assert Unpack(bytes, bps) == Signed(x % 0x100_0000, 0x100_0000);
      Back24(x);
    }
  }

  /** The sample format that is announced for a depth: signed, lowest byte first. */
  function OutputFormat(bps: Bps): Audio.Format {
    Audio.Format(if bps == 8 then Audio.W8 else if bps == 16 then Audio.W16 else Audio.W32, true, Audio.Little)
  }

  /** Read as PCM of that format, a packed sample has the amplitude that the
      decoder gave it; 24-bit samples are at the upper end of 32 bits. */
  lemma PackedIsPcm(v: Sample, bps: Bps)
    requires -Depth(bps) / 2 <= v as int < Depth(bps) / 2
    ensures Audio.Bps(OutputFormat(bps).width) == Width(bps)
    ensures Audio.Amplitude(Packed(v, bps), OutputFormat(bps), 0) == v as int * (if Width(bps) == 4 then 0x100 else 1)
  {
    UnpackRecovers(v, bps);
    var b := Packed(v, bps);
    if Width(bps) == 4 {
      assert b[0] == 0;
      var u := b[1] as int + 0x100 * b[2] as int + 0x1_0000 * b[3] as int;
      assert Audio.Word(b, Audio.W32, Audio.Little, 0) == 0x100 * u;
    }
  }

  lemma Back8(x: int)
    ensures Signed(x % 0x100, 0x100) == x <==> -0x80 <= x < 0x80
  {
  }

  lemma Back16(x: int)
    ensures Signed(x % 0x1_0000, 0x1_0000) == x <==> -0x8000 <= x < 0x8000
  {
  }

  lemma Back24(x: int)
    ensures Signed(x % 0x100_0000, 0x100_0000) == x <==> -0x80_0000 <= x < 0x80_0000
  {
  }

  lemma DigitsOf(x: int)
    ensures x % 0x100 + 0x100 * ((x / 0x100) % 0x100) == x % 0x1_0000
    ensures x % 0x1_0000 + 0x1_0000 * ((x / 0x1_0000) % 0x100) == x % 0x100_0000
  {
    var q := x / 0x100;
    Remainder16(x, q / 0x100, 0x100 * (q % 0x100) + x % 0x100);
    var q' := x / 0x1_0000;
    Remainder24(x, q' / 0x100, 0x1_0000 * (q' % 0x100) + x % 0x1_0000);
  }

  lemma Remainder16(x: int, q: int, r: int)
    requires x == 0x1_0000 * q + r && 0 <= r < 0x1_0000
    ensures x % 0x1_0000 == r
  {
  }

  lemma Remainder24(x: int, q: int, r: int)
    requires x == 0x100_0000 * q + r && 0 <= r < 0x100_0000
    ensures x % 0x100_0000 == r
  {
  }

  /** So from the output all samples of all channels can be read back. */
  lemma OutputUnpacks(out: seq<Byte>, input: seq<seq<Sample>>, n: nat, channels: nat, bps: Bps, i: nat, ch: nat)
    requires |input| == channels && (forall c :: 0 <= c < channels ==> |input[c]| >= n)
    requires |out| >= n * channels * Width(bps) && i < n && ch < channels
    requires forall b: nat :: b < Width(bps) ==>
               Place(channels, Width(bps), i, ch, b) < |out|
               && out[Place(channels, Width(bps), i, ch, b)] == PackedByte(input[ch][i], bps, b)
    requires -Depth(bps) / 2 <= input[ch][i] as int < Depth(bps) / 2
    ensures Place(channels, Width(bps), i, ch, 0) + Width(bps) <= |out|
    ensures var at := Place(channels, Width(bps), i, ch, 0);
            Unpack(out[at..at + Width(bps)], bps) == input[ch][i] as int
  {
    var at, w := Place(channels, Width(bps), i, ch, 0), Width(bps);
    PlaceInRange(channels, w, n, i, ch, w - 1);
    forall b: nat | b < w
      ensures out[at..at + w][b] == PackedByte(input[ch][i], bps, b)
    {
      assert Place(channels, w, i, ch, b) == at + b;
    }
    assert out[at..at + w] == Packed(input[ch][i], bps);
    UnpackRecovers(input[ch][i], bps);
  }
}
