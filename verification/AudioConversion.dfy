/** Conversion of PCM samples (server/output/audio_conversion.cc) between integer
    formats at equal rates: byte order, width, sign and number of channels are
    changed in loops over the bytes.  The native byte order is little endian. */
module AudioConversion {
  import Bytes

  type Byte = Bytes.Byte

  type Word16 = u: int | 0 <= u < 0x1_0000
  type Word32 = u: int | 0 <= u < 0x1_0000_0000

  datatype Width = W8 | W16 | W32

  datatype Endian = Little | Big

  /** Sample formats.  8-bit formats need no byte order; whatever they carry is
      without meaning. */
  datatype Format = Format(width: Width, signed: bool, endian: Endian)

  const NATIVE := Little

  function Bps(w: Width): nat {
    match w case W8 => 1 case W16 => 2 case W32 => 4
  }

  function Range(w: Width): int {
    match w case W8 => 0x100 case W16 => 0x1_0000 case W32 => 0x1_0000_0000
  }

  /** `n` samples of the width are in `s`. */
  predicate Holds(s: seq<Byte>, w: Width, n: nat) {
    match w case W8 => |s| == n case W16 => |s| == 2 * n case W32 => |s| == 4 * n
  }

  /** The bits of sample `i`, as a number. */
  function Word(s: seq<Byte>, w: Width, e: Endian, i: nat): (u: int)
    requires match w case W8 => i < |s| case W16 => 2 * i + 1 < |s| case W32 => 4 * i + 3 < |s|
    ensures 0 <= u < Range(w)
  {
    match w
    case W8 => s[i] as int
    case W16 =>
      var a, b := s[2 * i] as int, s[2 * i + 1] as int;
      if e == Little then a + 0x100 * b else b + 0x100 * a
    case W32 =>
      var a, b, c, d := s[4 * i] as int, s[4 * i + 1] as int, s[4 * i + 2] as int, s[4 * i + 3] as int;
      if e == Little then a + 0x100 * b + 0x1_0000 * c + 0x100_0000 * d
      else d + 0x100 * c + 0x1_0000 * b + 0x100_0000 * a
  }

  /** The amplitude that the bits stand for, zero in the middle of the range. */
  function Level(u: int, w: Width, signed: bool): int {
    if !signed then u - Range(w) / 2
    else if u < Range(w) / 2 then u
    else u - Range(w)
  }

  /** The amplitude of sample `i`. */
  function Amplitude(s: seq<Byte>, f: Format, i: nat): int
    requires match f.width case W8 => i < |s| case W16 => 2 * i + 1 < |s| case W32 => 4 * i + 3 < |s|
  {
    Level(Word(s, f.width, f.endian, i), f.width, f.signed)
  }

  // ----- changing the sign

  /** Exclusive or with the top bit. */
  function FlipTop(u: int, w: Width): int {
    if u < Range(w) / 2 then u + Range(w) / 2 else u - Range(w) / 2
  }

  /** Twice is nothing, and once turns the signed representation of a level into
      the unsigned one and back. */
  lemma FlipTopKeepsLevel(u: int, w: Width, signed: bool)
    requires 0 <= u < Range(w)
    ensures 0 <= FlipTop(u, w) < Range(w) && FlipTop(FlipTop(u, w), w) == u
    ensures Level(FlipTop(u, w), w, !signed) == Level(u, w, signed)
  {
  }

  /** It is what the code does to words of each width. */
  lemma FlipTopIsXor8(t: bv8)
    ensures (t ^ 0x80) as int == FlipTop(t as int, W8)
  {
    assert t ^ 0x80 == if t < 0x80 then t + 0x80 else t - 0x80;
  }

  lemma FlipTopIsXor16(t: bv16)
    ensures (t ^ 0x8000) as int == FlipTop(t as int, W16)
  {
    assert t ^ 0x8000 == if t < 0x8000 then t + 0x8000 else t - 0x8000;
  }

  lemma FlipTopIsXor32(t: bv32)
    ensures (t ^ 0x8000_0000) as int == FlipTop(t as int, W32)
  {
    assert t ^ 0x8000_0000 == if t < 0x8000_0000 then t + 0x8000_0000 else t - 0x8000_0000;
  }

  /** The bytes of a native word. */
  function Store16(u: Word16): (b: (Byte, Byte))
    ensures b.0 as int + 0x100 * b.1 as int == u
  {
    ((u % 0x100) as Byte, (u / 0x100) as Byte)
  }

  function Store32(u: Word32): (b: (Byte, Byte, Byte, Byte))
    ensures b.0 as int + 0x100 * b.1 as int + 0x1_0000 * b.2 as int + 0x100_0000 * b.3 as int == u
  {
    var h := u / 0x1_0000;
    var (a, b) := Store16(u % 0x1_0000);
    var (c, d) := Store16(h);
    (a, b, c, d)
  }

  method ChangeSign8(buf: array<Byte>, samples: nat)
    requires buf.Length == samples
    modifies buf
    ensures forall i :: 0 <= i < samples ==> Word(buf[..], W8, NATIVE, i) == FlipTop(old(Word(buf[..], W8, NATIVE, i)), W8)
  {
    var i := 0;
    while i < samples
      invariant 0 <= i <= samples
      invariant forall k :: 0 <= k < i ==> buf[k] as int == FlipTop(old(buf[k]) as int, W8)
      invariant forall k :: i <= k < samples ==> buf[k] == old(buf[k])
    {
      buf[i] := FlipTop(buf[i] as int, W8) as Byte;
      i := i + 1;
    }
  }

  /** The word at `i`, read from the array. */
  function Load16(buf: array<Byte>, i: nat): (u: int)
    requires 2 * i + 1 < buf.Length
    reads buf
    ensures u == Word(buf[..], W16, NATIVE, i) && 0 <= u < 0x1_0000
  {
    buf[2 * i] as int + 0x100 * buf[2 * i + 1] as int
  }

  function Load32(buf: array<Byte>, i: nat): (u: int)
    requires 4 * i + 3 < buf.Length
    reads buf
    ensures u == Word(buf[..], W32, NATIVE, i) && 0 <= u < 0x1_0000_0000
  {
    buf[4 * i] as int + 0x100 * buf[4 * i + 1] as int + 0x1_0000 * buf[4 * i + 2] as int + 0x100_0000 * buf[4 * i + 3] as int
  }

  method ChangeSign16(buf: array<Byte>, samples: nat)
    requires buf.Length == 2 * samples
    modifies buf
    ensures forall i :: 0 <= i < samples ==> Load16(buf, i) == FlipTop(old(Load16(buf, i)), W16)
  {
    var i := 0;
    while i < samples
      invariant 0 <= i <= samples
      invariant forall k :: 0 <= k < i ==> Load16(buf, k) == FlipTop(old(Load16(buf, k)), W16)
      invariant forall x :: 2 * i <= x < buf.Length ==> buf[x] == old(buf[x])
    {
      var (a, b) := Store16(FlipTop(Load16(buf, i), W16));
      buf[2 * i], buf[2 * i + 1] := a, b;
      i := i + 1;
    }
  }

  method ChangeSign32(buf: array<Byte>, samples: nat)
    requires buf.Length == 4 * samples
    modifies buf
    ensures forall i :: 0 <= i < samples ==> Load32(buf, i) == FlipTop(old(Load32(buf, i)), W32)
  {
    var i := 0;
    while i < samples
      invariant 0 <= i <= samples
      invariant forall k :: 0 <= k < i ==> Load32(buf, k) == FlipTop(old(Load32(buf, k)), W32)
      invariant forall x :: 4 * i <= x < buf.Length ==> buf[x] == old(buf[x])
    {
      FlipAt32(buf, i);
      i := i + 1;
    }
  }

  method FlipAt32(buf: array<Byte>, i: nat)
    requires 4 * i + 3 < buf.Length
    modifies buf
    ensures Load32(buf, i) == FlipTop(old(Load32(buf, i)), W32)
    ensures forall x :: 0 <= x < buf.Length && !(4 * i <= x < 4 * i + 4) ==> buf[x] == old(buf[x])
  {
    var (a, b, c, d) := Store32(FlipTop(Load32(buf, i), W32));
    buf[4 * i], buf[4 * i + 1], buf[4 * i + 2], buf[4 * i + 3] := a, b, c, d;
  }

  /** The samples of `s` have the amplitudes of those of `t`. */
  predicate SameSound(s: seq<Byte>, f: Format, t: seq<Byte>, g: Format, n: nat) {
    && Holds(s, f.width, n) && Holds(t, g.width, n)
    && forall i :: 0 <= i < n ==> Amplitude(s, f, i) == Amplitude(t, g, i)
  }

  /** `size` is the size in bytes; the format afterwards has the other sign. */
  method ChangeSign(buf: array<Byte>, size: nat, f: Format, n: nat) returns (f': Format)
    requires f.endian == NATIVE || f.width == W8
    requires buf.Length == size && Holds(buf[..], f.width, n)
    modifies buf
    ensures f' == f.(signed := !f.signed) && SameSound(buf[..], f', old(buf[..]), f, n)
  {
    f' := f.(signed := !f.signed);
    match f.width {
      case W8 =>
        ChangeSign8(buf, size);
        forall i | 0 <= i < n
          ensures Amplitude(buf[..], f', i) == Amplitude(old(buf[..]), f, i)
        {
          FlipTopKeepsLevel(Word(old(buf[..]), W8, NATIVE, i), W8, f.signed);
          assert Word(buf[..], W8, NATIVE, i) == FlipTop(Word(old(buf[..]), W8, NATIVE, i), W8);
        }
      case W16 =>
        ChangeSign16(buf, size / 2);
        forall i | 0 <= i < n
          ensures Amplitude(buf[..], f', i) == Amplitude(old(buf[..]), f, i)
        {
          FlipTopKeepsLevel(Word(old(buf[..]), W16, NATIVE, i), W16, f.signed);
          assert Load16(buf, i) == FlipTop(old(Load16(buf, i)), W16);
        }
      case W32 =>
        ChangeSign32(buf, size / 4);
        forall i | 0 <= i < n
          ensures Amplitude(buf[..], f', i) == Amplitude(old(buf[..]), f, i)
        {
          FlipTopKeepsLevel(Word(old(buf[..]), W32, NATIVE, i), W32, f.signed);
          assert Load32(buf, i) == FlipTop(old(Load32(buf, i)), W32);
        }
    }
  }

  // ----- changing the byte order

  function Other(e: Endian): Endian {
    if e == Little then Big else Little
  }

  method BSwap16(buf: array<Byte>, num: nat)
    requires buf.Length == 2 * num
    modifies buf
    ensures forall i :: 0 <= i < num ==> buf[2 * i] == old(buf[2 * i + 1]) && buf[2 * i + 1] == old(buf[2 * i])
  {
    var i := 0;
    while i < num
      invariant 0 <= i <= num
      invariant forall k :: 0 <= k < i ==> buf[2 * k] == old(buf[2 * k + 1]) && buf[2 * k + 1] == old(buf[2 * k])
      invariant forall x :: 2 * i <= x < buf.Length ==> buf[x] == old(buf[x])
    {
      buf[2 * i], buf[2 * i + 1] := buf[2 * i + 1], buf[2 * i];
      i := i + 1;
    }
  }

  method BSwap32(buf: array<Byte>, num: nat)
    requires buf.Length == 4 * num
    modifies buf
    ensures forall i :: 0 <= i < num ==>
              && buf[4 * i] == old(buf[4 * i + 3]) && buf[4 * i + 1] == old(buf[4 * i + 2])
              && buf[4 * i + 2] == old(buf[4 * i + 1]) && buf[4 * i + 3] == old(buf[4 * i])
  {
    var i := 0;
    while i < num
      invariant 0 <= i <= num
      invariant forall k :: 0 <= k < i ==>
                  && buf[4 * k] == old(buf[4 * k + 3]) && buf[4 * k + 1] == old(buf[4 * k + 2])
                  && buf[4 * k + 2] == old(buf[4 * k + 1]) && buf[4 * k + 3] == old(buf[4 * k])
      invariant forall x :: 4 * i <= x < buf.Length ==> buf[x] == old(buf[x])
    {
      buf[4 * i], buf[4 * i + 1], buf[4 * i + 2], buf[4 * i + 3] := buf[4 * i + 3], buf[4 * i + 2], buf[4 * i + 1], buf[4 * i];
      i := i + 1;
    }
  }

  predicate Swapped16(s: seq<Byte>, t: seq<Byte>, i: nat)
    requires 2 * i + 1 < |s| == |t|
  {
    s[2 * i] == t[2 * i + 1] && s[2 * i + 1] == t[2 * i]
  }

  predicate Swapped32(s: seq<Byte>, t: seq<Byte>, i: nat)
    requires 4 * i + 3 < |s| == |t|
  {
    s[4 * i] == t[4 * i + 3] && s[4 * i + 1] == t[4 * i + 2] && s[4 * i + 2] == t[4 * i + 1] && s[4 * i + 3] == t[4 * i]
  }

  lemma SwappedSounds16(s: seq<Byte>, t: seq<Byte>, f: Format, i: nat)
    requires f.width == W16 && 2 * i + 1 < |s| == |t| && Swapped16(s, t, i)
    ensures Amplitude(s, f.(endian := Other(f.endian)), i) == Amplitude(t, f, i)
  {
  }

  lemma SwappedSounds32(s: seq<Byte>, t: seq<Byte>, f: Format, i: nat)
    requires f.width == W32 && 4 * i + 3 < |s| == |t| && Swapped32(s, t, i)
    ensures Amplitude(s, f.(endian := Other(f.endian)), i) == Amplitude(t, f, i)
  {
  }

  method SwapEndian(buf: array<Byte>, size: nat, f: Format, n: nat)
    requires buf.Length == size && Holds(buf[..], f.width, n)
    modifies buf
    ensures SameSound(buf[..], f.(endian := Other(f.endian)), old(buf[..]), f, n)
  {
    match f.width {
      case W8 => return;
      case W16 =>
        BSwap16(buf, size / 2);
        forall i | 0 <= i < n
          ensures Amplitude(buf[..], f.(endian := Other(f.endian)), i) == Amplitude(old(buf[..]), f, i)
        {
          SwappedSounds16(buf[..], old(buf[..]), f, i);
        }
      case W32 =>
        BSwap32(buf, size / 4);
        forall i | 0 <= i < n
          ensures Amplitude(buf[..], f.(endian := Other(f.endian)), i) == Amplitude(old(buf[..]), f, i)
        {
          SwappedSounds32(buf[..], old(buf[..]), f, i);
        }
    }
  }

  // ----- 32 to 16 bits

  /** Keeps the upper half of every native word, whatever its sign. */
  method Narrow(input: array<Byte>, samples: nat, f: Format) returns (buf: array<Byte>)
    requires f.width == W32 && f.endian == NATIVE && input.Length == 4 * samples
    ensures fresh(buf) && buf.Length == 2 * samples
    ensures forall i :: 0 <= i < samples ==>
              Amplitude(buf[..], f.(width := W16), i) == Amplitude(input[..], f, i) / 0x1_0000
  {
    buf := new Byte[samples * 2];
    var i := 0;
    while i < samples
      invariant 0 <= i <= samples
      invariant forall k :: 0 <= k < i ==> Load16(buf, k) == Load32(input, k) / 0x1_0000
    {
      var (a, b) := Store16(Load32(input, i) / 0x1_0000);
      buf[2 * i], buf[2 * i + 1] := a, b;
      i := i + 1;
    }
    forall k | 0 <= k < samples
      ensures Amplitude(buf[..], f.(width := W16), k) == Amplitude(input[..], f, k) / 0x1_0000
    {
      UpperHalf(Load32(input, k), f.signed);
    }
  }

  lemma UpperHalf(u: int, signed: bool)
    ensures Level(u / 0x1_0000, W16, signed) == Level(u, W32, signed) / 0x1_0000
  {
  }

  // ----- one channel to two

  /** Offset of sample `k`. */
  function Offset(w: Width, k: nat): nat {
    match w case W8 => k case W16 => 2 * k case W32 => 4 * k
  }

  /** Sample `x` stands twice in `stereo`. */
  predicate Twice(mono: seq<Byte>, stereo: seq<Byte>, w: Width, x: nat)
    requires Offset(w, x + 1) <= |mono| && |stereo| == 2 * |mono|
  {
    match w
    case W8 => stereo[2 * x] == mono[x] && stereo[2 * x + 1] == mono[x]
    case W16 =>
      && stereo[4 * x] == mono[2 * x] && stereo[4 * x + 1] == mono[2 * x + 1]
      && stereo[4 * x + 2] == mono[2 * x] && stereo[4 * x + 3] == mono[2 * x + 1]
    case W32 =>
      && stereo[8 * x] == mono[4 * x] && stereo[8 * x + 1] == mono[4 * x + 1]
      && stereo[8 * x + 2] == mono[4 * x + 2] && stereo[8 * x + 3] == mono[4 * x + 3]
      && stereo[8 * x + 4] == mono[4 * x] && stereo[8 * x + 5] == mono[4 * x + 1]
      && stereo[8 * x + 6] == mono[4 * x + 2] && stereo[8 * x + 7] == mono[4 * x + 3]
  }

  method MonoToStereo(mono: array<Byte>, size: nat, w: Width, n: nat) returns (stereo: array<Byte>)
    requires mono.Length == size && Holds(mono[..], w, n)
    ensures fresh(stereo) && stereo.Length == 2 * size
    ensures forall x :: 0 <= x < n ==> Twice(mono[..], stereo[..], w, x)
  {
    stereo := new Byte[size * 2];
    var bps := Bps(w);
    var i := 0;
    ghost var k := 0;
    while i < size
      invariant 0 <= k <= n && i == Offset(w, k)
      invariant forall x :: 0 <= x < k ==> Twice(mono[..], stereo[..], w, x)
    {
      ghost var before := stereo[..];
      CopyTwice(mono, stereo, i, bps);
      TwiceMade(mono[..], stereo[..], w, k);
      forall x | 0 <= x < k
        ensures Twice(mono[..], stereo[..], w, x)
      {
        TwiceStays(mono[..], before, stereo[..], w, x, k);
      }
      i := i + bps;
      k := k + 1;
    }
  }

  lemma TwiceMade(mono: seq<Byte>, t: seq<Byte>, w: Width, k: nat)
    requires Offset(w, k + 1) <= |mono| && |t| == 2 * |mono|
    requires forall x :: Offset(w, k) * 2 <= x < Offset(w, k) * 2 + Bps(w) ==> t[x] == mono[Offset(w, k) + (x - Offset(w, k) * 2)]
    requires forall x :: Offset(w, k) * 2 + Bps(w) <= x < Offset(w, k) * 2 + 2 * Bps(w) ==>
               t[x] == mono[Offset(w, k) + (x - Offset(w, k) * 2 - Bps(w))]
    ensures Twice(mono, t, w, k)
  {
  }

  lemma TwiceStays(mono: seq<Byte>, s: seq<Byte>, t: seq<Byte>, w: Width, x: nat, k: nat)
    requires x < k && Offset(w, k) <= |mono| && |s| == |t| == 2 * |mono| && Twice(mono, s, w, x)
    requires forall y :: 0 <= y < Offset(w, k) * 2 ==> t[y] == s[y]
    ensures Twice(mono, t, w, x)
  {
  }

  /** The two memcpy calls for one sample. */
  method CopyTwice(mono: array<Byte>, stereo: array<Byte>, i: nat, bps: nat)
    requires i + bps <= mono.Length && stereo.Length == 2 * mono.Length && mono != stereo
    modifies stereo
    ensures forall x :: i * 2 <= x < i * 2 + bps ==> stereo[x] == mono[i + (x - i * 2)]
    ensures forall x :: i * 2 + bps <= x < i * 2 + 2 * bps ==> stereo[x] == mono[i + (x - i * 2 - bps)]
    ensures forall x :: 0 <= x < stereo.Length && !(i * 2 <= x < i * 2 + 2 * bps) ==> stereo[x] == old(stereo[x])
  {
    forall x | i * 2 <= x < i * 2 + bps { stereo[x] := mono[i + (x - i * 2)]; }
    forall x | i * 2 + bps <= x < i * 2 + 2 * bps { stereo[x] := mono[i + (x - i * 2 - bps)]; }
  }

  /** Both copies have the amplitude of the sample. */
  lemma TwiceSounds(mono: seq<Byte>, stereo: seq<Byte>, f: Format, n: nat, x: nat)
    requires Holds(mono, f.width, n) && |stereo| == 2 * |mono| && x < n && Twice(mono, stereo, f.width, x)
    ensures Amplitude(stereo, f, 2 * x) == Amplitude(mono, f, x) && Amplitude(stereo, f, 2 * x + 1) == Amplitude(mono, f, x)
  {
  }

  // ----- the pipeline

  datatype Params = Params(channels: nat, fmt: Format)

  predicate Narrows(from: Params, to: Params) {
    from.fmt.width == W32 && to.fmt.width == W16
  }

  predicate Doubles(from: Params, to: Params) {
    from.channels == 1 && to.channels == 2
  }

  /** The conversions modelled: equal rates and equal width, or 32 to 16 bits with
      the sign unchanged; for the latter with a change of sign the code passes
      the size before narrowing on. */
  predicate Modelled(from: Params, to: Params) {
    (from.fmt.width == to.fmt.width || (Narrows(from, to) && from.fmt.signed == to.fmt.signed))
    && (from.channels == to.channels || Doubles(from, to))
  }

  /** The amplitude a sample is converted to: rounded down when bits are dropped. */
  function Converted(a: int, from: Params, to: Params): int {
    if Narrows(from, to) then a / 0x1_0000 else a
  }

  /** `input` of `n` samples sounds like `out`. */
  predicate Converts(input: seq<Byte>, out: seq<Byte>, from: Params, to: Params, n: nat)
    requires Holds(input, from.fmt.width, n)
  {
    if Doubles(from, to) then
      && Holds(out, to.fmt.width, 2 * n)
      && forall i :: 0 <= i < n ==>
           && Amplitude(out, to.fmt, 2 * i) == Converted(Amplitude(input, from.fmt, i), from, to)
           && Amplitude(out, to.fmt, 2 * i + 1) == Converted(Amplitude(input, from.fmt, i), from, to)
    else
      && Holds(out, to.fmt.width, n)
      && forall i :: 0 <= i < n ==> Amplitude(out, to.fmt, i) == Converted(Amplitude(input, from.fmt, i), from, to)
  }

  /** The part of the pipeline before the channels: native byte order, width, sign,
      byte order. */
  method ConvertFormat(from: Params, to: Params, buf: array<Byte>, n: nat) returns (sound: array<Byte>)
    requires Modelled(from, to) && Holds(buf[..], from.fmt.width, n)
    ensures fresh(sound) && Holds(sound[..], to.fmt.width, n)
    ensures forall i :: 0 <= i < n ==>
              Amplitude(sound[..], to.fmt, i) == Converted(Amplitude(buf[..], from.fmt, i), from, to)
  {
    var fmt := from.fmt;
    sound := new Byte[buf.Length];
    forall k | 0 <= k < buf.Length { sound[k] := buf[k]; }
    assert sound[..] == buf[..];
    if fmt.endian != NATIVE {
      SwapEndian(sound, sound.Length, fmt, n);
      fmt := fmt.(endian := NATIVE);
    }
    assert SameSound(sound[..], fmt, buf[..], from.fmt, n);
    if Narrows(from, to) {
      sound := Narrow(sound, sound.Length / 4, fmt);
      fmt := fmt.(width := W16);
    }
    ghost var narrowed, narrowedFmt := sound[..], fmt;
    if fmt.signed != to.fmt.signed {
      fmt := ChangeSign(sound, sound.Length, fmt, n);
    }
    assert SameSound(sound[..], fmt, narrowed, narrowedFmt, n);
    if fmt.endian != to.fmt.endian {
      SwapEndian(sound, sound.Length, fmt, n);
    }
  }

  /** audio_conv: the target's format and length, and every sample converted. */
  method AudioConv(from: Params, to: Params, buf: array<Byte>, n: nat) returns (sound: array<Byte>)
    requires Modelled(from, to) && Holds(buf[..], from.fmt.width, n)
    ensures fresh(sound) && Converts(buf[..], sound[..], from, to, n)
  {
    sound := ConvertFormat(from, to, buf, n);
    if Doubles(from, to) {
      var mono := sound;
      sound := MonoToStereo(mono, mono.Length, to.fmt.width, n);
      forall i | 0 <= i < n
        ensures Amplitude(sound[..], to.fmt, 2 * i) == Amplitude(mono[..], to.fmt, i)
        ensures Amplitude(sound[..], to.fmt, 2 * i + 1) == Amplitude(mono[..], to.fmt, i)
      {
        TwiceSounds(mono[..], sound[..], to.fmt, n, i);
      }
      forall i | 0 <= i < n
        ensures Amplitude(sound[..], to.fmt, 2 * i) == Converted(Amplitude(buf[..], from.fmt, i), from, to)
        ensures Amplitude(sound[..], to.fmt, 2 * i + 1) == Converted(Amplitude(buf[..], from.fmt, i), from, to)
      {
        assert Amplitude(mono[..], to.fmt, i) == Converted(Amplitude(buf[..], from.fmt, i), from, to);
      }
    }
  }
}
