/** Software volume in Q32 fixed point: src/pcm_volume.cpp.

    `RampTo` and `Scaled` say what a gain ramp and a scaled buffer are, over
    unbounded integers. `RampedGain`, `VolumeRampStep`, `ApplyVolume` and
    `ApplyVolumeRamp` are the code, in 64-bit arithmetic and in place; Dafny
    checks that no intermediate value leaves its type.
 */
module Volume {
  import opened Arith
  import opened Machine

  const Q32_ONE := 0x1_0000_0000
  const ROUND_TERM := 0x8000_0000
  const VOLUME_RAMP_MS := 20

  // ---------------------------------------------------------------- the gain

  /** Where a ramp from `c` toward `t` stands after `n` frames: a straight move
      of `n * step`, clamped at the target. A step of 0 means "snap". */
  function RampTo(c: nat, t: nat, step: nat, n: nat): (g: nat)
    ensures c <= t ==> c <= g <= t
    ensures t <= c ==> t <= g <= c
  {
    if step == 0 then t
    else if c <= t then Min(t, c + n * step)
    else Max(t, c - n * step)
  }

  /** Moving `a` frames and then `b` frames is moving `a + b` frames. */
  lemma RampComposes(c: nat, t: nat, step: nat, a: nat, b: nat)
    ensures RampTo(RampTo(c, t, step, a), t, step, b) == RampTo(c, t, step, a + b)
  {
    assert (a + b) * step == a * step + b * step;
  }

  /** A ramp never overtakes a longer one: more frames are never further from the target. */
  lemma RampMonotone(c: nat, t: nat, step: nat, a: nat, b: nat)
    requires a <= b
    ensures c <= t ==> RampTo(c, t, step, a) <= RampTo(c, t, step, b)
    ensures t <= c ==> RampTo(c, t, step, b) <= RampTo(c, t, step, a)
  {
    RampComposes(c, t, step, a, b - a);
  }

  /** The overflow-free closed form of the source. Its only product is guarded by a division. */
  function RampedGain(current: u64, target: u64, step: u64, frames: u64): (g: u64)
    ensures g as int == RampTo(current as int, target as int, step as int, frames as int)
  {
    if step == 0 then target
    else if current == target then target
    else
      var rising := current < target;
      var distance := if rising then target - current else current - target;
      GuardedProduct(distance as int, step as int, frames as int);
      var travelled := if frames > distance / step then distance else frames * step;
      if rising then current + travelled else current - travelled
  }

  lemma GuardedProduct(distance: nat, step: nat, frames: nat)
    requires step > 0
    ensures frames <= distance / step ==> frames * step <= distance
    ensures frames > distance / step ==> frames * step > distance
  {
    var q := distance / step;
    assert distance == q * step + distance % step;
    if frames <= q {
      assert (q - frames) * step >= 0;
    } else {
      assert (frames - q - 1) * step >= 0;
    }
  }

  /** The per-frame step for a stream rate: the whole scale over 20 ms, rounded up. */
  function VolumeRampStep(rate: u64): (step: u64)
    requires rate < 0x1_0000_0000
    ensures rate as int * VOLUME_RAMP_MS / 1000 == 0 <==> step == 0
  {
    var frames := rate * 20 / 1000;
    if frames == 0 then 0
    else
      RoundedUpCovers(frames as int);
      (0x1_0000_0000 + frames - 1) / frames
  }

  lemma RoundedUpCovers(frames: nat)
    requires frames > 0
    ensures (Q32_ONE + frames - 1) / frames * frames >= Q32_ONE
    ensures (Q32_ONE + frames - 1) / frames > 0
  {
    DivLeMul(Q32_ONE + frames - 1, frames);
    if (Q32_ONE + frames - 1) / frames <= 0 {
      MulMono((Q32_ONE + frames - 1) / frames, 0, frames);
    }
  }

  /** Any change on the Q32 scale finishes within floor(rate * 20 / 1000) frames. */
  lemma RampFinishesInWindow(rate: u64, c: nat, t: nat)
    requires rate < 0x1_0000_0000
    requires c <= Q32_ONE && t <= Q32_ONE
    requires rate as int * VOLUME_RAMP_MS / 1000 > 0
    ensures RampTo(c, t, VolumeRampStep(rate) as int, rate as int * VOLUME_RAMP_MS / 1000) == t
  {
    var frames: nat := rate as int * VOLUME_RAMP_MS / 1000;
    var step: nat := VolumeRampStep(rate) as int;
    assert step == (Q32_ONE + frames - 1) / frames;
    RoundedUpCovers(frames);
    assert frames * step >= Q32_ONE;
  }

  /** And no faster than that takes: no smaller step takes the whole scale within the window. */
  lemma NoSmallerStepFinishes(rate: u64, k: nat)
    requires rate < 0x1_0000_0000 && rate as int * VOLUME_RAMP_MS / 1000 > 0
    requires RampTo(0, Q32_ONE, k, rate as int * VOLUME_RAMP_MS / 1000) == Q32_ONE && k > 0
    ensures k >= VolumeRampStep(rate) as int
  {
    var frames: nat := rate as int * VOLUME_RAMP_MS / 1000;
    assert frames * k >= Q32_ONE;
    RoundedUpIsLeast(frames, k);
  }

  lemma RoundedUpIsLeast(frames: nat, k: nat)
    requires frames > 0 && frames * k >= Q32_ONE
    ensures k >= (Q32_ONE + frames - 1) / frames
  {
    var q := (Q32_ONE + frames - 1) / frames;
    assert q * frames <= Q32_ONE + frames - 1;
    MulDistrib(k, 1, frames);
    if k < q {
      MulMono(k + 1, q, frames);
    }
  }

  // ------------------------------------------------------------- one sample

  /** Round-to-nearest scaling; `/` by a positive constant floors, as `>> 32` on int64 does. */
  function ScaleSample(s: int, g: nat): int {
    (s * g + ROUND_TERM) / Q32_ONE
  }

  /** With gains up to unity no int64 step overflows, even for the sample -2^31
      whose product is exactly -2^63, and the result lies between 0 and the sample. */
  lemma ScaleBounds(s: int, g: nat)
    requires -0x8000_0000 <= s < 0x8000_0000 && g <= Q32_ONE
    ensures -TWO_63 <= s * g < TWO_63
    ensures -TWO_63 <= s * g + ROUND_TERM < TWO_63
    ensures 0 <= s ==> 0 <= ScaleSample(s, g) <= s
    ensures s <= 0 ==> s <= ScaleSample(s, g) <= 0
  {
    var product := s * g;
    if 0 <= s {
      MulMono(0, s, g);
      MulMono(g, Q32_ONE, s);
      assert 0 <= product <= s * Q32_ONE;
    } else {
      MulMono(s, 0, g);
      MulMono(g, Q32_ONE, -s);
      assert g * -s == -product;
      assert s * Q32_ONE <= product <= 0;
    }
    RoundedBounds(s, product);
  }

  lemma RoundedBounds(s: int, product: int)
    requires 0 <= s ==> 0 <= product <= s * Q32_ONE
    requires s < 0 ==> s * Q32_ONE <= product <= 0
    ensures 0 <= s ==> 0 <= (product + ROUND_TERM) / Q32_ONE <= s
    ensures s <= 0 ==> s <= (product + ROUND_TERM) / Q32_ONE <= 0
  {
  }

  /** The bound is tight: one count above unity the widest sample leaves int64. */
  lemma GainAboveUnityOverflows()
    ensures !(-TWO_63 <= -0x8000_0000 * (Q32_ONE + 1))
  {
  }

  // ------------------------------------------------- little-endian samples

  function Pow256(w: nat): (p: nat)
    ensures p > 0
  {
    if w == 0 then 1 else 256 * Pow256(w - 1)
  }

  function Unsigned(bs: seq<byte>): (v: nat)
    ensures v < Pow256(|bs|)
  {
    if bs == [] then 0 else bs[0] + 256 * Unsigned(bs[1..])
  }

  function Bytes(v: nat, w: nat): (bs: seq<byte>)
    ensures |bs| == w
  {
    if w == 0 then [] else [v % 256] + Bytes(v / 256, w - 1)
  }

  /** The two's complement value of a little-endian sample. */
  function Signed(bs: seq<byte>): int {
    var u := Unsigned(bs);
    if 2 * u >= Pow256(|bs|) then u - Pow256(|bs|) else u
  }

  /** The low `w` bytes of a two's complement value: what a narrowing cast and a store leave. */
  function Encode(x: int, w: nat): (bs: seq<byte>)
    ensures |bs| == w
  {
    Bytes(x % Pow256(w), w)
  }

  lemma {:induction false} UnsignedOfBytes(v: nat, w: nat)
    requires v < Pow256(w)
    ensures Unsigned(Bytes(v, w)) == v
  {
    if w > 0 {
      UnsignedOfBytes(v / 256, w - 1);
      assert Bytes(v, w)[1..] == Bytes(v / 256, w - 1);
    }
  }

  lemma {:induction false} BytesOfUnsigned(bs: seq<byte>)
    ensures Bytes(Unsigned(bs), |bs|) == bs
  {
    if bs != [] {
      BytesOfUnsigned(bs[1..]);
      assert Unsigned(bs) % 256 == bs[0] && Unsigned(bs) / 256 == Unsigned(bs[1..]);
    }
  }

  lemma EncodeSigned(bs: seq<byte>)
    ensures Encode(Signed(bs), |bs|) == bs
  {
    var u := Unsigned(bs);
    ModStep(u, Pow256(|bs|));
    SmallMod(u, Pow256(|bs|));
    BytesOfUnsigned(bs);
  }

  /** Storing a value that fits and reading it back is the identity. */
  lemma SignedEncode(x: int, w: nat)
    requires 0 <= 2 * x + Pow256(w) && 2 * x < Pow256(w)
    ensures Signed(Encode(x, w)) == x
  {
    var p := Pow256(w);
    if x < 0 {
      DivModIs(x, p, -1, x + p);
    } else {
      SmallMod(x, p);
    }
    UnsignedOfBytes(x % p, w);
  }

  /** The packed 24-bit path in the source's own spelling, on 32-bit words: shift and or to
      unpack. Here and below each is the sum, comparison or remainder, modulo 2^32, that
      `Packed24` reads and writes samples by. */
  lemma Unpacked24Bits(p0: bv32, p1: bv32, p2: bv32)
    requires p0 < 256 && p1 < 256 && p2 < 256
    ensures p0 | (p1 << 8) | (p2 << 16) == p0 + 0x100 * p1 + 0x1_0000 * p2
    ensures p0 | (p1 << 8) | (p2 << 16) < 0x100_0000
  {
  }

  /** Test and extend bit 23. */
  lemma Extended24Bits(sample: bv32)
    requires sample < 0x100_0000
    ensures sample & 0x80_0000 != 0 <==> sample >= 0x80_0000
    ensures sample | 0xFF00_0000 == sample - 0x100_0000
  {
  }

  /** Mask and shift to repack. */
  lemma Repacked24Bits(out: bv32)
    ensures out & 0xFF == out % 256
    ensures (out >> 8) & 0xFF == out / 256 % 256
    ensures (out >> 16) & 0xFF == out / 65536 % 256
  {
  }

  /** Unpacked by sums with bit 23 as the sign and repacked by remainders, a packed 24-bit sample
      is two's complement little-endian. */
  lemma Packed24(bs: seq<byte>, out: int)
    requires |bs| == 3
    ensures Signed(bs) ==
            var raw := bs[0] as int + 0x100 * bs[1] as int + 0x1_0000 * bs[2] as int;
            if raw >= 0x80_0000 then raw - 0x100_0000 else raw
    ensures Encode(out, 3) == [out % 256, out / 256 % 256, out / 65536 % 256]
  {
    Pow256Small();
    ThreeBytes(bs);
    var u := out % 0x100_0000;
    ThreeBytesOf(u);
    LowBytes(out, u);
  }

  lemma LowBytes(out: int, u: int)
    requires u == out % 0x100_0000
    ensures u % 256 == out % 256
    ensures u / 256 % 256 == out / 256 % 256
    ensures u / 65536 % 256 == out / 65536 % 256
  {
    var q := out / 0x100_0000;
    AddMultiple(u, 256, 65536 * q);
    AddMultiple(u, 65536, 256 * q);
    AddMultiple(u / 256, 256, 256 * q);
    AddMultiple(u / 65536, 256, q);
  }

  lemma ThreeBytes(bs: seq<byte>)
    requires |bs| == 3
    ensures Unsigned(bs) == bs[0] as int + 0x100 * bs[1] as int + 0x1_0000 * bs[2] as int
  {
    var tail := bs[1..];
    assert Unsigned(tail[1..]) == bs[2] + 256 * Unsigned(tail[1..][1..]);
  }

  lemma ThreeBytesOf(u: nat)
    ensures Bytes(u, 3) == [u % 256, u / 256 % 256, u / 65536 % 256]
  {
    var v := u / 256;
    assert Bytes(v / 256, 1) == [v / 256 % 256] + Bytes(v / 256 / 256, 0);
    assert Bytes(v, 2) == [v % 256] + Bytes(v / 256, 1);
  }

  // ------------------------------------------------------- a whole buffer

  predicate SampleWidth(w: nat) { 1 <= w <= 4 }

  /** How many whole `d`-byte groups fit in `n` bytes, and the bytes they span. */
  function Groups(n: nat, d: nat): (k: nat)
    requires d > 0
    decreases n
  {
    if n < d then 0 else 1 + Groups(n - d, d)
  }

  function Span(n: nat, d: nat): (cut: nat)
    requires d > 0
    ensures cut <= n < cut + d
    decreases n
  {
    if n < d then 0 else d + Span(n - d, d)
  }

  lemma {:induction false} GroupsIsDivision(n: nat, d: nat)
    requires d > 0
    ensures Groups(n, d) == n / d && Span(n, d) == n - n % d == Groups(n, d) * d
    decreases n
  {
    if n < d {
      SmallMod(n, d);
    } else {
      GroupsIsDivision(n - d, d);
      ModStep(n, d);
      MulDistrib(Groups(n - d, d), 1, d);
    }
  }

  lemma {:induction false} GroupsOfMultiple(k: nat, d: nat)
    requires d > 0
    ensures k * d >= 0 && Groups(k * d, d) == k && Span(k * d, d) == k * d
  {
    MulMono(0, k, d);
    GroupsIsDivision(k * d, d);
    DivModIs(k * d, d, k, 0);
  }

  /** Every whole sample scaled by `g`; an unknown width and a trailing partial
      sample are left alone. */
  function Scaled(bs: seq<byte>, w: nat, g: nat): (r: seq<byte>)
    ensures |r| == |bs|
  {
    if !SampleWidth(w) || |bs| < w then bs
    else Encode(ScaleSample(Signed(bs[..w]), g), w) + Scaled(bs[w..], w, g)
  }

  lemma Pow256Small()
    ensures Pow256(1) == 0x100 && Pow256(2) == 0x1_0000
    ensures Pow256(3) == 0x100_0000 && Pow256(4) == 0x1_0000_0000
  {
    assert Pow256(2) == 256 * Pow256(1);
    assert Pow256(3) == 256 * Pow256(2);
    assert Pow256(4) == 256 * Pow256(3);
  }

  lemma SampleRange(bs: seq<byte>)
    requires SampleWidth(|bs|)
    ensures -0x8000_0000 <= Signed(bs) < 0x8000_0000
    ensures 0 <= 2 * Signed(bs) + Pow256(|bs|) && 2 * Signed(bs) < Pow256(|bs|)
  {
    Pow256Small();
  }

  /** What a scaled sample reads back as, at every width: the rounded product
      itself, never a wrapped one, and never past its input or across zero. */
  lemma ScaledSampleExact(bs: seq<byte>, g: nat)
    requires SampleWidth(|bs|) && g <= Q32_ONE
    ensures Signed(Scaled(bs, |bs|, g)) == ScaleSample(Signed(bs), g)
    ensures 0 <= Signed(bs) ==> 0 <= Signed(Scaled(bs, |bs|, g)) <= Signed(bs)
    ensures Signed(bs) <= 0 ==> Signed(bs) <= Signed(Scaled(bs, |bs|, g)) <= 0
  {
    var w, s := |bs|, Signed(bs);
    SampleRange(bs);
    ScaleBounds(s, g);
    SignedEncode(ScaleSample(s, g), w);
    assert bs[..w] == bs && bs[w..] == [];
    assert Scaled(bs, w, g) == Encode(ScaleSample(s, g), w);
  }

  lemma NothingToScale(bs: seq<byte>, w: nat, g: nat)
    requires !SampleWidth(w) || |bs| < w
    ensures Scaled(bs, w, g) == bs
  {
  }

  lemma {:induction false} ScaledConcat(a: seq<byte>, b: seq<byte>, w: nat, g: nat)
    requires SampleWidth(w) ==> Span(|a|, w) == |a|
    ensures Scaled(a + b, w, g) == Scaled(a, w, g) + Scaled(b, w, g)
    decreases |a|
  {
    hide ScaleSample, Encode, Signed;
    if !SampleWidth(w) {
    } else if a == [] {
      assert a + b == b;
    } else {
      ScaledConcat(a[w..], b, w, g);
      assert (a + b)[..w] == a[..w] && (a + b)[w..] == a[w..] + b;
    }
  }

  lemma Associative(a: seq<byte>, b: seq<byte>, c: seq<byte>)
    ensures (a + b) + c == a + (b + c)
  {
  }

  /** Unity gain is exactly the identity, which is what every "skip at unity" path relies on. */
  lemma {:induction false} UnityIsIdentity(bs: seq<byte>, w: nat)
    ensures Scaled(bs, w, Q32_ONE) == bs
  {
    if SampleWidth(w) && |bs| >= w {
      UnityIsIdentity(bs[w..], w);
      var s := Signed(bs[..w]);
      assert ScaleSample(s, Q32_ONE) == s;
      EncodeSigned(bs[..w]);
      assert bs == bs[..w] + bs[w..];
    }
  }

  /** Zero gain writes zero bytes, which is what the memset fast path relies on. */
  lemma {:induction false} SilenceIsZeros(bs: seq<byte>, w: nat)
    requires SampleWidth(w) && Span(|bs|, w) == |bs|
    ensures Scaled(bs, w, 0) == Zeros(|bs|)
  {
    if bs != [] {
      SilenceIsZeros(bs[w..], w);
      ZeroBytes(w);
      assert Zeros(|bs|) == Zeros(w) + Zeros(|bs| - w);
    }
  }

  lemma {:induction false} ZeroBytes(w: nat)
    ensures Bytes(0, w) == Zeros(w)
  {
    if w > 0 {
      ZeroBytes(w - 1);
    }
  }

  /** `s` with the bytes from `p` on overwritten by `bs`. */
  function Spliced(s: seq<byte>, p: nat, bs: seq<byte>): (r: seq<byte>)
    requires p + |bs| <= |s|
    ensures |r| == |s|
  {
    s[..p] + bs + s[p + |bs|..]
  }

  lemma SplicedParts(s: seq<byte>, p: nat, hi: nat, pre: seq<byte>, head: seq<byte>, post: seq<byte>, bs: seq<byte>)
    requires s == pre + head + post && |head| == |bs| && p == |pre| && hi == p + |head|
    ensures Spliced(s, p, bs) == pre + bs + post
    ensures s[p..hi] == head && s[..p] == pre && s[hi..] == post
  {
  }

  /** The unscaled `rest` begins with `head`; regroup around it, or around what replaces it. */
  lemma Regroup(pre: seq<byte>, head: seq<byte>, tail: seq<byte>, y: seq<byte>)
    ensures pre + (head + tail) + y == pre + head + (tail + y)
    ensures pre + head + tail + y == pre + head + (tail + y)
  {
  }

  method Store(data: array<byte>, p: nat, bs: seq<byte>)
    requires p + |bs| <= data.Length
    modifies data
    ensures data[..] == Spliced(old(data[..]), p, bs)
  {
    var i := 0;
    while i < |bs|
      invariant 0 <= i <= |bs|
      invariant forall k :: 0 <= k < data.Length ==> data[k] == if p <= k < p + i then bs[k - p] else old(data[k])
    {
      data[p + i] := bs[i];
      i := i + 1;
    }
  }

  /** apply_volume(): scales data[lo..hi) in place. */
  method ApplyVolume(data: array<byte>, lo: nat, hi: nat, bytesPerSample: nat, scale: u64)
    requires lo <= hi <= data.Length
    requires scale as int <= Q32_ONE
    modifies data
    ensures data[..] == Spliced(old(data[..]), lo, Scaled(old(data[lo..hi]), bytesPerSample, scale as int))
  {
    hide Scaled, Spliced;
    ghost var pre, rest, y := data[..lo], data[lo..hi], data[hi..];
    ghost var goal := pre + Scaled(rest, bytesPerSample, scale as int);
    ThreeParts(data[..], lo, hi, pre, rest, y);
    if !SampleWidth(bytesPerSample) {
      NothingToScale(rest, bytesPerSample, scale as int);
      return;
    }
    var w, p := bytesPerSample, lo;
    while p + w <= hi
      invariant lo <= p <= hi && |pre| == p && |rest| == hi - p
      invariant data[..] == pre + rest + y
      invariant goal == pre + Scaled(rest, w, scale as int)
    {
      pre, rest := ScaleNext(data, p, w, scale, pre, rest, y);
      p := p + w;
    }
    NothingToScale(rest, w, scale as int);
  }

  lemma ThreeParts(s: seq<byte>, lo: nat, hi: nat, x: seq<byte>, mid: seq<byte>, y: seq<byte>)
    requires lo <= hi <= |s| && x == s[..lo] && mid == s[lo..hi] && y == s[hi..]
    ensures s == x + mid + y
    ensures forall r: seq<byte> {:trigger Spliced(s, lo, r)} :: |r| == |mid| ==> Spliced(s, lo, r) == x + r + y
  {
  }

  /** One sample of apply_volume(). */
  method ScaleNext(data: array<byte>, p: nat, w: nat, scale: u64, ghost pre: seq<byte>, ghost rest: seq<byte>,
      ghost y: seq<byte>)
    returns (ghost pre': seq<byte>, ghost rest': seq<byte>)
    requires SampleWidth(w) && scale as int <= Q32_ONE && |rest| >= w
    requires data[..] == pre + rest + y && p == |pre|
    modifies data
    ensures data[..] == pre' + rest' + y && |pre'| == p + w && |rest'| == |rest| - w
    ensures pre' + Scaled(rest', w, scale as int) == pre + Scaled(rest, w, scale as int)
  {
    hide Spliced, ScaleSample, Encode;
    ghost var head := rest[..w];
    rest' := rest[w..];
    assert rest == head + rest';
    Regroup(pre, head, rest', y);
    var out := ScaleBytes(data[p..p + w], scale);
    SplicedParts(data[..], p, p + w, pre, head, rest' + y, out);
    assert data[p..p + w] == data[..][p..p + w];
    Store(data, p, out);
    Regroup(pre, out, rest', y);
    pre' := pre + out;
    Associative(pre, out, Scaled(rest', w, scale as int));
  }

  /** One sample, with every intermediate value held in an int64 as the source holds it. */
  method ScaleBytes(sample: seq<byte>, scale: u64) returns (out: seq<byte>)
    requires SampleWidth(|sample|) && scale as int <= Q32_ONE
    ensures out == Encode(ScaleSample(Signed(sample), scale as int), |sample|)
  {
    var s := Signed(sample);
    SampleRange(sample);
    ScaleBounds(s, scale as int);
    var scaled: i64 := s as i64 * scale as i64 + ROUND_TERM as i64;
    out := Encode(scaled as int / Q32_ONE, |sample|);
  }

  // ------------------------------------------------------ a ramped buffer

  /** The specification of a ramp over a buffer of `bpf`-byte frames: frame `i` is
      scaled, every channel alike, by the gain `i + 1` steps on; a trailing partial frame stays. */
  function RampScaled(bs: seq<byte>, w: nat, bpf: nat, c: nat, t: nat, step: nat): (r: seq<byte>)
    ensures |r| == |bs|
    decreases |bs|
  {
    if bpf == 0 || |bs| < bpf then bs
    else
      var g := RampTo(c, t, step, 1);
      Scaled(bs[..bpf], w, g) + RampScaled(bs[bpf..], w, bpf, g, t, step)
  }

  /** Splitting is invisible. Scale only the whole frames `a`, commit the gain they
      reached, then scale `b` from there: nothing differs from one pass over both. */
  lemma {:induction false} RampScaledSplit(a: seq<byte>, b: seq<byte>, w: nat, bpf: nat, c: nat, t: nat, step: nat)
    requires bpf > 0 && Span(|a|, bpf) == |a|
    ensures RampScaled(a + b, w, bpf, c, t, step) ==
            RampScaled(a, w, bpf, c, t, step) + RampScaled(b, w, bpf, RampTo(c, t, step, Groups(|a|, bpf)), t, step)
    decreases |a|
  {
    hide RampTo, Scaled, RampScaled;
    if a == [] {
      assert a + b == b;
      RampScaledShort([], w, bpf, c, t, step);
      assert [] + RampScaled(b, w, bpf, RampTo(c, t, step, 0), t, step) ==
             RampScaled(b, w, bpf, RampTo(c, t, step, 0), t, step);
      ZeroFrameCommit(b, w, bpf, c, t, step);
    } else {
      var f, rest, g := a[..bpf], a[bpf..], RampTo(c, t, step, 1);
      var last := RampScaled(b, w, bpf, RampTo(c, t, step, Groups(|a|, bpf)), t, step);
      RampScaledSplit(rest, b, w, bpf, g, t, step);
      RampComposes(c, t, step, 1, Groups(|rest|, bpf));
      FrontOf(a, b, bpf);
      FirstFrame(a, w, bpf, c, t, step);
      FirstFrame(a + b, w, bpf, c, t, step);
      Associative(Scaled(f, w, g), RampScaled(rest, w, bpf, g, t, step), last);
    }
  }

  lemma FirstFrame(bs: seq<byte>, w: nat, bpf: nat, c: nat, t: nat, step: nat)
    requires 0 < bpf <= |bs|
    ensures var g := RampTo(c, t, step, 1);
            RampScaled(bs, w, bpf, c, t, step) == Scaled(bs[..bpf], w, g) + RampScaled(bs[bpf..], w, bpf, g, t, step)
  {
  }

  lemma FrontOf(a: seq<byte>, b: seq<byte>, n: nat)
    requires n <= |a|
    ensures (a + b)[..n] == a[..n] && (a + b)[n..] == a[n..] + b
  {
  }

  /** Committing zero frames: with a step it changes nothing; with a step of 0 it snaps, and so did the scaling. */
  lemma ZeroFrameCommit(bs: seq<byte>, w: nat, bpf: nat, c: nat, t: nat, step: nat)
    ensures RampScaled(bs, w, bpf, RampTo(c, t, step, 0), t, step) == RampScaled(bs, w, bpf, c, t, step)
    ensures RampTo(c, t, step, 0) == c <==> step > 0 || c == t
  {
    RampComposes(c, t, step, 0, 1);
  }

  /** Every frame is scaled, all channels alike, by exactly the gain one step past
      the frames before it, and a trailing partial frame is left alone. */
  lemma RampScaledFrame(before: seq<byte>, frame: seq<byte>, after: seq<byte>, w: nat, bpf: nat, c: nat, t: nat,
      step: nat)
    requires bpf > 0 && Span(|before|, bpf) == |before|
    ensures |frame| == bpf ==>
              RampScaled(before + (frame + after), w, bpf, c, t, step)[|before|..|before| + bpf] ==
              Scaled(frame, w, RampTo(c, t, step, Groups(|before|, bpf) + 1))
    ensures |frame| < bpf ==> RampScaled(before + frame, w, bpf, c, t, step)[|before|..] == frame
  {
    hide RampTo, Scaled;
    var k := Groups(|before|, bpf);
    RampComposes(c, t, step, k, 1);
    RampScaledSplit(before, frame, w, bpf, c, t, step);
    if |frame| == bpf {
      RampScaledSplit(before, frame + after, w, bpf, c, t, step);
      assert (frame + after)[..bpf] == frame;
    }
  }

  /** With the gain already at the target, a ramp is plain scaling of the whole frames. */
  lemma {:induction false} RampScaledSteady(a: seq<byte>, w: nat, bpf: nat, t: nat, step: nat)
    requires bpf > 0 && Span(|a|, bpf) == |a|
    requires SampleWidth(w) ==> Span(bpf, w) == bpf
    ensures RampScaled(a, w, bpf, t, t, step) == Scaled(a, w, t)
    decreases |a|
  {
    hide RampTo;
    if a != [] {
      RampScaledSteady(a[bpf..], w, bpf, t, step);
      ScaledConcat(a[..bpf], a[bpf..], w, t);
      assert a == a[..bpf] + a[bpf..];
    }
  }

  /** The gain the source reports: untouched when no whole frame was walked. */
  function RampReached(len: nat, bpf: nat, c: nat, t: nat, step: nat): nat {
    if bpf == 0 || Groups(len, bpf) == 0 then c else RampTo(c, t, step, Groups(len, bpf))
  }

  /** apply_volume_ramp(): scales data[..len) in place and returns the gain to carry on from. */
  method ApplyVolumeRamp(data: array<byte>, len: nat, bytesPerSample: nat, channels: nat,
                         current: u64, target: u64, step: u64)
    returns (reached: u64)
    requires len <= data.Length
    requires current as int <= Q32_ONE && target as int <= Q32_ONE
    modifies data
    ensures data[..] == Spliced(old(data[..]), 0, RampScaled(old(data[..len]), bytesPerSample,
            channels * bytesPerSample,
                                                             current as int, target as int, step as int))
    ensures reached as int == RampReached(len, channels * bytesPerSample, current as int, target as int, step as int)
  {
    reached := current;
    if bytesPerSample == 0 || channels == 0 {
      assert channels * bytesPerSample == 0;
      ThreeParts(data[..], 0, len, [], data[..len], data[len..]);
      return;
    }
    var bpf := channels * bytesPerSample;
    MulMono(1, channels, bytesPerSample);
    GroupsOfMultiple(channels, bytesPerSample);
    reached := RampFrames(data, len, bytesPerSample, bpf, current, target, step);
  }

  /** The two passes of apply_volume_ramp() once the frame width is known: frame by
      frame while the gain moves, then the steady rest at once, skipped at unity. */
  method RampFrames(data: array<byte>, len: nat, w: nat, bpf: nat, current: u64, target: u64, step: u64)
    returns (reached: u64)
    requires len <= data.Length && bpf > 0
    requires SampleWidth(w) ==> Span(bpf, w) == bpf
    requires current as int <= Q32_ONE && target as int <= Q32_ONE
    modifies data
    ensures data[..] == Spliced(old(data[..]), 0, RampScaled(old(data[..len]), w, bpf, current as int, target as int,
            step as int))
    ensures reached as int == RampReached(len, bpf, current as int, target as int, step as int)
  {
    hide RampTo, Scaled, RampScaled, Spliced, Groups, RampReached;
    ghost var was := data[..];
    ghost var y := was[len..];
    ghost var whole := RampScaled(was[..len], w, bpf, current as int, target as int, step as int);
    assert data[..len] == was[..len];
    ghost var done: seq<byte>, rest;
    var p;
    p, reached, done, rest := RampMoving(data, len, w, bpf, current, target, step, y);
    if len - p >= bpf {
      var steady := WholeSpan(len - p, bpf);
      SteadyRest(done, rest, w, bpf, target as int, step as int);
      if target != 0x1_0000_0000 {
        done, rest := ScalePiece(data, p, steady, w, target, done, rest, y);
      }
    } else {
      RampScaledShort(rest, w, bpf, reached as int, target as int, step as int);
    }
    PrefixSpliced(was, len, whole);
  }

  lemma PrefixSpliced(was: seq<byte>, len: nat, now: seq<byte>)
    requires len <= |was| && |now| == len
    ensures Spliced(was, 0, now) == now + was[len..]
  {
  }

  /** The first pass: one frame at a time until the gain arrives or the frames run out. */
  method RampMoving(data: array<byte>, len: nat, w: nat, bpf: nat, current: u64, target: u64, step: u64,
      ghost y: seq<byte>)
    returns (p: nat, reached: u64, ghost done: seq<byte>, ghost rest: seq<byte>)
    requires len <= data.Length && bpf > 0 && y == data[len..]
    requires current as int <= Q32_ONE && target as int <= Q32_ONE
    modifies data
    ensures p <= len && |done| == p && |rest| == len - p && data[..] == done + rest + y
    ensures RampScaled(old(data[..len]), w, bpf, current as int, target as int, step as int) ==
            done + RampScaled(rest, w, bpf, reached as int, target as int, step as int)
    ensures reached as int == RampReached(len, bpf, current as int, target as int, step as int)
    ensures len - p >= bpf ==> reached == target
  {
    hide RampTo, Scaled, RampScaled;
    done, rest := [], data[..len];
    ghost var body, frame := rest, 0;
    p, reached := 0, current;
    while len - p >= bpf && reached != target
      invariant |done| == p && |rest| == len - p
      invariant frame >= 0 && frame + Groups(|rest|, bpf) == Groups(len, bpf)
      invariant reached as int <= Q32_ONE
      invariant reached as int == if frame == 0
                then current as int else RampTo(current as int, target as int, step as int, frame)
      invariant data[..] == done + rest + y
      invariant RampScaled(body, w, bpf, current as int, target as int, step as int) ==
                done + RampScaled(rest, w, bpf, reached as int, target as int, step as int)
    {
      RampComposes(current as int, target as int, step as int, frame, 1);
      RampScaledNext(done, rest, w, bpf, reached as int, target as int, step as int);
      reached := RampedGain(reached, target, step, 1);
      done, rest := ScalePiece(data, p, bpf, w, reached, done, rest, y);
      p, frame := p + bpf, frame + 1;
    }
    if len - p >= bpf {
      RampEnds(current as int, target as int, step as int, frame, Groups(len, bpf));
    }
  }

  method WholeSpan(n: nat, d: nat) returns (cut: nat)
    requires d > 0
    ensures cut == Span(n, d)
  {
    GroupsIsDivision(n, d);
    cut := n / d * d;
  }

  lemma RampEnds(c: nat, t: nat, step: nat, k: nat, n: nat)
    requires k < n
    requires if k == 0 then c == t else RampTo(c, t, step, k) == t
    ensures RampTo(c, t, step, n) == t
  {
    RampMonotone(c, t, step, k, n);
  }

  lemma RampScaledShort(bs: seq<byte>, w: nat, bpf: nat, c: nat, t: nat, step: nat)
    requires |bs| < bpf
    ensures RampScaled(bs, w, bpf, c, t, step) == bs
  {
  }

  lemma RampScaledNext(done: seq<byte>, rest: seq<byte>, w: nat, bpf: nat, c: nat, t: nat, step: nat)
    requires 0 < bpf <= |rest|
    ensures var g := RampTo(c, t, step, 1);
            done + RampScaled(rest, w, bpf, c, t, step) ==
            done + Scaled(rest[..bpf], w, g) + RampScaled(rest[bpf..], w, bpf, g, t, step)
  {
  }

  /** What the single steady pass leaves, scaled at the target or skipped at unity. */
  lemma SteadyRest(done: seq<byte>, rest: seq<byte>, w: nat, bpf: nat, t: nat, step: nat)
    requires bpf > 0
    requires SampleWidth(w) ==> Span(bpf, w) == bpf
    ensures var cut := Span(|rest|, bpf);
            done + RampScaled(rest, w, bpf, t, t, step) == done + Scaled(rest[..cut], w, t) + rest[cut..]
    ensures t == Q32_ONE ==> RampScaled(rest, w, bpf, t, t, step) == rest
  {
    hide RampTo, Scaled;
    var cut := Span(|rest|, bpf);
    var a, b := rest[..cut], rest[cut..];
    SpanOfSpan(|rest|, bpf);
    assert rest == a + b;
    RampScaledSplit(a, b, w, bpf, t, t, step);
    RampScaledSteady(a, w, bpf, t, step);
    RampScaledShort(b, w, bpf, t, t, step);
    UnityIsIdentity(a, w);
    assert RampTo(t, t, step, Groups(|a|, bpf)) == t;
    Associative(done, Scaled(a, w, t), b);
  }

  lemma {:induction false} SpanOfSpan(n: nat, d: nat)
    requires d > 0
    ensures Span(Span(n, d), d) == Span(n, d) && Groups(Span(n, d), d) == Groups(n, d)
    decreases n
  {
    if n >= d {
      SpanOfSpan(n - d, d);
    }
  }

  /** Scales the next `n` bytes at one gain. */
  method ScalePiece(data: array<byte>, p: nat, n: nat, w: nat, scale: u64, ghost pre: seq<byte>,
      ghost rest: seq<byte>, ghost y: seq<byte>)
    returns (ghost pre': seq<byte>, ghost rest': seq<byte>)
    requires scale as int <= Q32_ONE && n <= |rest|
    requires data[..] == pre + rest + y && p == |pre|
    modifies data
    ensures data[..] == pre' + rest' + y
    ensures pre' == pre + Scaled(rest[..n], w, scale as int) && rest' == rest[n..]
  {
    hide Spliced, Scaled;
    ghost var head := rest[..n];
    rest' := rest[n..];
    assert rest == head + rest';
    Regroup(pre, head, rest', y);
    ghost var out := Scaled(head, w, scale as int);
    SplicedParts(data[..], p, p + n, pre, head, rest' + y, out);
    assert data[p..p + n] == data[..][p..p + n];
    ApplyVolume(data, p, p + n, w, scale);
    Regroup(pre, out, rest', y);
    pre' := pre + out;
  }
}
