/** The bit codec of candle windows: eight bits a candle, packed into bytes, and back. */
module WindowCodec {
  import opened Common

  type Bit = b: nat | b < 2
  type Byte = b: nat | b < 256

  const BITS_PER_CANDLE := 8
  const EPSILON_ATR := 0.00000001
  const MAX_DELTA_BUCKET := 7
  const MAX_ATR_BUCKET := 3

  // ---------------------------------------------------------------- integers and bits

  function Pow2(n: nat): nat {
    if n == 0 then 1 else 2 * Pow2(n - 1)
  }

  lemma Pow2Positive(n: nat)
    ensures Pow2(n) > 0
  {
  }

  /** `(value >> (width - 1 - i)) & 1` for each `i`: most significant bit first. */
  function IntToBits(value: nat, width: nat): (r: seq<Bit>)
    ensures |r| == width
  {
    if width == 0 then [] else IntToBits(value / 2, width - 1) + [value % 2]
  }

  function BitsToInt(bits: seq<Bit>): nat {
    if bits == [] then 0 else 2 * BitsToInt(bits[..|bits| - 1]) + bits[|bits| - 1]
  }

  /** A number that fits its width comes back. */
  lemma {:induction false} IntRoundTrip(value: nat, width: nat)
    requires value < Pow2(width)
    ensures BitsToInt(IntToBits(value, width)) == value
  {
    if width > 0 {
      IntRoundTrip(value / 2, width - 1);
      var front := IntToBits(value / 2, width - 1);
      assert (front + [value % 2])[..width - 1] == front;
    }
  }

  /** And so does a bit string. */
  lemma {:induction false} BitsRoundTrip(bits: seq<Bit>)
    ensures BitsToInt(bits) < Pow2(|bits|)
    ensures IntToBits(BitsToInt(bits), |bits|) == bits
  {
    if bits != [] {
      BitsRoundTrip(bits[..|bits| - 1]);
    }
  }

  method BitsToIntLoop(bits: seq<Bit>) returns (value: nat)
    ensures value == BitsToInt(bits)
  {
    value := 0;
    for k := 0 to |bits|
      invariant value == BitsToInt(bits[..k])
    {
      assert bits[..k + 1][..k] == bits[..k];
      value := 2 * value + bits[k];
    }
    assert bits[..|bits|] == bits;
  }

  // ---------------------------------------------------------------- bits and bytes

  function Zeros(n: nat): (r: seq<Bit>)
    ensures |r| == n
  {
    seq(n, _ => 0)
  }

  /** Up to eight bits, left-aligned in a byte. */
  function ByteOf(chunk: seq<Bit>): Byte
    requires |chunk| <= 8
  {
    BitsRoundTrip(chunk + Zeros(8 - |chunk|));
    assert Pow2(8) == 256;
    BitsToInt(chunk + Zeros(8 - |chunk|))
  }

  function Pack(bits: seq<Bit>): seq<Byte> {
    if |bits| <= 8 then (if bits == [] then [] else [ByteOf(bits)])
    else [ByteOf(bits[..8])] + Pack(bits[8..])
  }

  function UnpackAll(data: seq<Byte>): seq<Bit> {
    if data == [] then [] else IntToBits(data[0], 8) + UnpackAll(data[1..])
  }

  /** Unpack, but no more than `length` bits. */
  function Unpack(data: seq<Byte>, length: nat): seq<Bit> {
    if length < |UnpackAll(data)| then UnpackAll(data)[..length] else UnpackAll(data)
  }

  lemma ByteRoundTrip(chunk: seq<Bit>)
    requires |chunk| <= 8
    ensures IntToBits(ByteOf(chunk), 8) == chunk + Zeros(8 - |chunk|)
  {
    BitsRoundTrip(chunk + Zeros(8 - |chunk|));
  }

  /** Unpacking packed bits returns them, padding aside. */
  lemma {:induction false} UnpackAllPack(bits: seq<Bit>)
    ensures |UnpackAll(Pack(bits))| >= |bits|
    ensures UnpackAll(Pack(bits))[..|bits|] == bits
  {
    if |bits| <= 8 {
      if bits != [] {
        ByteRoundTrip(bits);
        assert [ByteOf(bits)][1..] == [];
        assert UnpackAll(Pack(bits)) == bits + Zeros(8 - |bits|);
      }
    } else {
      ByteRoundTrip(bits[..8]);
      UnpackAllPack(bits[8..]);
      var rest := Pack(bits[8..]);
      assert ([ByteOf(bits[..8])] + rest)[1..] == rest;
      assert UnpackAll(Pack(bits)) == bits[..8] + UnpackAll(rest);
      assert bits == bits[..8] + bits[8..];
    }
  }

  /** For bit strings of any length, partial last bytes included. */
  lemma PackRoundTrip(bits: seq<Bit>)
    ensures Unpack(Pack(bits), |bits|) == bits
  {
    hide Pack, UnpackAll;
    UnpackAllPack(bits);
    var all := UnpackAll(Pack(bits));
    assert all[..|all|] == all;
  }

  /** One step of packing. */
  lemma PackStep(bits: seq<Bit>)
    requires bits != []
    ensures var n := if 8 < |bits| then 8 else |bits|;
            Pack(bits) == [ByteOf(bits[..n])] + Pack(bits[n..])
  {
    if |bits| <= 8 {
      assert bits[..|bits|] == bits && bits[|bits|..] == [];
    }
  }

  method PackChunk(chunk: seq<Bit>) returns (b: Byte)
    requires |chunk| <= 8
    ensures b == ByteOf(chunk)
  {
    var value: nat := 0;
    for k := 0 to |chunk|
      invariant value == BitsToInt(chunk[..k])
    {
      assert chunk[..k + 1][..k] == chunk[..k];
      value := 2 * value + chunk[k];
    }
    assert chunk[..|chunk|] == chunk == chunk + Zeros(0);
    for k := 0 to 8 - |chunk|
      invariant value == BitsToInt(chunk + Zeros(k))
    {
      assert (chunk + Zeros(k + 1))[..|chunk| + k] == chunk + Zeros(k);
      value := 2 * value;
    }
    assert value == ByteOf(chunk);
    b := value % 256;
  }

  method BitsToBytes(bits: seq<Bit>) returns (buf: seq<Byte>)
    ensures buf == Pack(bits)
  {
    hide ByteOf, Pack;
    buf := [];
    var idx := 0;
    assert bits[0..] == bits;
    while idx < |bits|
      invariant idx <= |bits|
      invariant buf + Pack(bits[idx..]) == Pack(bits)
    {
      var end := if idx + 8 < |bits| then idx + 8 else |bits|;
      PackStep(bits[idx..]);
      assert bits[idx..][..end - idx] == bits[idx..end] && bits[idx..][end - idx..] == bits[end..];
      var b := PackChunk(bits[idx..end]);
      buf := buf + [b];
      idx := end;
    }
    assert bits[idx..] == [];
    PackNothing();
  }

  lemma PackNothing()
    ensures Pack([]) == []
  {
  }

  /** Append the bits of one byte, stopping as soon as `length` bits are there. */
  method AppendByte(bits0: seq<Bit>, b: Byte, length: nat) returns (bits: seq<Bit>, done: bool)
    requires length == 0 || |bits0| < length
    ensures var all := bits0 + IntToBits(b, 8);
            if done then |bits| == length <= |all| && bits == all[..length]
            else bits == all && (length == 0 || |all| < length)
  {
    bits, done := bits0, false;
    ghost var byteBits := IntToBits(b, 8);
    for k := 0 to 8
      invariant bits == bits0 + byteBits[..k]
      invariant length == 0 || |bits| < length
    {
      BitAt(b, 8, k);
      bits := bits + [b / Pow2(7 - k) % 2];
      if |bits| == length {
        done := true;
        assert bits == (bits0 + byteBits)[..length];
        return;
      }
    }
  }

  method BytesToBits(data: seq<Byte>, length: nat) returns (bits: seq<Bit>)
    ensures bits == Unpack(data, length)
  {
    hide IntToBits;
    bits := [];
    ghost var all := UnpackAll(data);
    assert data[0..] == data;
    for n := 0 to |data|
      invariant bits + UnpackAll(data[n..]) == all
      invariant |bits| < length || length == 0
    {
      assert data[n..][1..] == data[n + 1..];
      ghost var longer := bits + IntToBits(data[n], 8);
      assert all == longer + UnpackAll(data[n + 1..]);
      var done;
      bits, done := AppendByte(bits, data[n], length);
      if done {
        assert longer[..length] == all[..length];
        return;
      }
    }
    assert bits == all;
    if length == 0 {
      bits := [];
    }
  }

  /** Shifting and masking picks the same bit. */
  lemma {:induction false} BitAt(value: nat, width: nat, k: nat)
    requires k < width
    ensures Pow2(width - 1 - k) > 0
    ensures IntToBits(value, width)[k] == value / Pow2(width - 1 - k) % 2
  {
    Pow2Positive(width - 1 - k);
    if k < width - 1 {
      BitAt(value / 2, width - 1, k);
      Pow2Positive(width - 2 - k);
      DivideTwice(value, Pow2(width - 2 - k));
    }
  }

  lemma DivideTwice(value: nat, d: nat)
    requires d > 0
    ensures value / 2 / d == value / (2 * d)
  {
    var q := value / (2 * d);
    var r := value % (2 * d);
    assert value == 2 * d * q + r;
    assert value / 2 == d * q + r / 2;
    assert 0 <= r / 2 < d;
    QuotientUnique(value / 2, d, q, r / 2);
  }

  lemma QuotientUnique(a: nat, d: nat, q: nat, r: nat)
    requires d > 0 && a == d * q + r && r < d
    ensures a / d == q
  {
    var p, s := a / d, a % d;
    assert a == d * p + s && 0 <= s < d;
    if p < q {
      TimesMonotone(d, p + 1, q);
    } else if q < p {
      TimesMonotone(d, q + 1, p);
    }
  }

  // ---------------------------------------------------------------- candles

  datatype Candle = Candle(high: real, low: real, close: real, volume: real, spread: Option<real>)

  /** Python's `round`: ties go to the even neighbour. */
  function RoundHalfEven(x: real): int {
    var f := x.Floor;
    var d := x - f as real;
    if d < 0.5 then f else if d > 0.5 then f + 1 else if f % 2 == 0 then f else f + 1
  }

  function Bucket(ratio: real, max: nat): int {
    var b := RoundHalfEven(ratio * max as real);
    if max < b then max else b
  }

  /** It goes to the nearest number, from half way to the even one. */
  lemma RoundsToNearest(x: real)
    ensures var r := RoundHalfEven(x);
            && r as real - 0.5 <= x <= r as real + 0.5
            && (x == r as real - 0.5 || x == r as real + 0.5 ==> r % 2 == 0)
  {
  }

  datatype Splits = Splits(volume: real, spread: real)

  /** What a candle says, next to the close before it: direction, two ratios capped at one, two flags. */
  datatype Features = Features(direction: Bit, deltaRatio: real, rangeRatio: real, liquidity: Bit, volume: Bit)

  function FeaturesOf(c: Candle, lastClose: real, atr: real, s: Splits): Features {
    var safe := MaxR(atr, EPSILON_ATR);
    var delta := c.close - lastClose;
    var range := MaxR(MaxR(c.high - c.low, AbsR(c.high - lastClose)), AbsR(c.low - lastClose));
    var spread := if c.spread.Some? && c.spread.value > 0.0 then c.spread.value else c.high - c.low;
    Features(if delta >= 0.0 then 1 else 0,
             MinR(1.0, AbsR(delta) / safe),
             MinR(1.0, range / safe),
             if s.spread <= 0.0 || spread <= s.spread then 1 else 0,
             if c.volume >= s.volume then 1 else 0)
  }

  /** The smallest span that holds the candle and the close before it. */
  function TrueRange(c: Candle, lastClose: real): real {
    (if c.high < lastClose then lastClose else c.high) - (if c.low < lastClose then c.low else lastClose)
  }

  /** A ratio of `size` to `unit`, except that everything from `unit` up is one. */
  predicate IsCappedRatio(ratio: real, size: real, unit: real) {
    if size < unit then ratio * unit == size else ratio == 1.0
  }

  lemma CappedRatio(size: real, unit: real)
    requires unit > 0.0
    ensures IsCappedRatio(MinR(1.0, size / unit), size, unit)
  {
    var q := size / unit;
    assert q * unit == size;
    if size < unit {
      assert (1.0 - q) * unit > 0.0;
    } else {
      assert (q - 1.0) * unit >= 0.0;
    }
  }

  /** What the features of a candle say: whether it closed no lower than the one before, how far it moved and how far it
      ranged, both against the typical range, whether its spread is within the split, and whether its volume reaches
      its own. A candle without a spread is as wide as its range. */
  lemma FeaturesSay(c: Candle, lastClose: real, atr: real, s: Splits)
    requires c.low <= c.high
    ensures var f, unit := FeaturesOf(c, lastClose, atr, s), if atr < EPSILON_ATR then EPSILON_ATR else atr;
            && (f.direction == 1 <==> c.close >= lastClose)
            && IsCappedRatio(f.deltaRatio,
                             if c.close < lastClose then lastClose - c.close else c.close - lastClose, unit)
            && IsCappedRatio(f.rangeRatio, TrueRange(c, lastClose), unit)
            && (f.liquidity == 0 <==>
                  s.spread > 0.0
                  && s.spread < if c.spread.Some? && c.spread.value > 0.0 then c.spread.value else c.high - c.low)
            && (f.volume == 1 <==> c.volume >= s.volume)
  {
    var unit := MaxR(atr, EPSILON_ATR);
    var range := MaxR(MaxR(c.high - c.low, AbsR(c.high - lastClose)), AbsR(c.low - lastClose));
    assert range == TrueRange(c, lastClose);
    CappedRatio(AbsR(c.close - lastClose), unit);
    CappedRatio(range, unit);
  }

  lemma RatiosInRange(c: Candle, lastClose: real, atr: real, s: Splits)
    ensures var f := FeaturesOf(c, lastClose, atr, s); 0.0 <= f.deltaRatio <= 1.0 && 0.0 <= f.rangeRatio <= 1.0
  {
  }

  /** A bucket of a ratio between zero and one fits, and its middle is close to the ratio. */
  lemma DeltaBucketIsClose(ratio: real)
    requires 0.0 <= ratio <= 1.0
    ensures 0 <= Bucket(ratio, MAX_DELTA_BUCKET) <= MAX_DELTA_BUCKET
    ensures AbsR((Bucket(ratio, MAX_DELTA_BUCKET) as real + 0.5) / 8.0 - ratio) <= 1.0 / 8.0
  {
  }

  lemma RangeBucketIsClose(ratio: real)
    requires 0.0 <= ratio <= 1.0
    ensures 0 <= Bucket(ratio, MAX_ATR_BUCKET) <= MAX_ATR_BUCKET
    ensures AbsR((Bucket(ratio, MAX_ATR_BUCKET) as real + 0.5) / 4.0 - ratio) <= 1.0 / 4.0
  {
  }

  function BitsOfFeatures(f: Features): (r: seq<Bit>)
    requires 0.0 <= f.deltaRatio <= 1.0 && 0.0 <= f.rangeRatio <= 1.0
    ensures |r| == BITS_PER_CANDLE
  {
    DeltaBucketIsClose(f.deltaRatio);
    RangeBucketIsClose(f.rangeRatio);
    IntToBits(f.direction, 1) + IntToBits(Bucket(f.deltaRatio, MAX_DELTA_BUCKET), 3)
    + IntToBits(Bucket(f.rangeRatio, MAX_ATR_BUCKET), 2) + IntToBits(f.liquidity, 1) + IntToBits(f.volume, 1)
  }

  function CloseBefore(candles: seq<Candle>, prevClose: real, k: nat): real
    requires k <= |candles|
  {
    if k == 0 then prevClose else candles[k - 1].close
  }

  /** Candles and ranges are paired up as far as both go. */
  function Paired(candles: seq<Candle>, atr: seq<real>): nat {
    if |atr| < |candles| then |atr| else |candles|
  }

  function FeaturesAt(candles: seq<Candle>, atr: seq<real>, s: Splits, prevClose: real, k: nat): Features
    requires k < Paired(candles, atr)
  {
    FeaturesOf(candles[k], CloseBefore(candles, prevClose, k), atr[k], s)
  }

  /** The bits of the first `n` candles. */
  function BitsUpTo(candles: seq<Candle>, atr: seq<real>, s: Splits, prevClose: real, n: nat): (r: seq<Bit>)
    requires n <= Paired(candles, atr)
    ensures |r| == BITS_PER_CANDLE * n
  {
    if n == 0 then []
    else
      RatiosInRange(candles[n - 1], CloseBefore(candles, prevClose, n - 1), atr[n - 1], s);
      BitsUpTo(candles, atr, s, prevClose, n - 1) + BitsOfFeatures(FeaturesAt(candles, atr, s, prevClose, n - 1))
  }

  /** What is kept beside the bits: the mean range, which scales both ratios, and the two splits. */
  datatype Meta = Meta(deltaScale: real, atrScale: real, volumeSplit: real, spreadSplit: real)

  function MeanOr(xs: seq<real>, default: real): real {
    if xs == [] then default else Sum(xs) / |xs| as real
  }

  function MetaOf(atr: seq<real>, s: Splits): Meta {
    Meta(MeanOr(atr, 1.0), MeanOr(atr, 1.0), s.volume, s.spread)
  }

  /** Both scales are the mean range, one if there is none, and the splits are kept as they are. */
  lemma MetaSays(atr: seq<real>, s: Splits)
    ensures var meta := MetaOf(atr, s);
            && meta.deltaScale == meta.atrScale && meta.atrScale * |atr| as real == Sum(atr)
            && (atr == [] ==> meta.atrScale == 1.0)
            && meta.volumeSplit == s.volume && meta.spreadSplit == s.spread
  {
    if atr != [] {
      var n := |atr| as real;
      assert MeanOr(atr, 1.0) == Sum(atr) / n;
      assert Sum(atr) / n * n == Sum(atr);
    }
  }

  /** Ranges are not negative, so neither is the scale. */
  lemma {:induction false} MeanIsNonNegative(xs: seq<real>, default: real)
    requires default >= 0.0 && forall k :: 0 <= k < |xs| ==> xs[k] >= 0.0
    ensures Sum(xs) >= 0.0 && MeanOr(xs, default) >= 0.0
  {
    if xs != [] {
      MeanIsNonNegative(xs[..|xs| - 1], default);
    }
  }

  method EncodeBits(candles: seq<Candle>, atr: seq<real>, s: Splits, prevClose: real)
    returns (bits: seq<Bit>, meta: Meta)
    ensures bits == BitsUpTo(candles, atr, s, prevClose, Paired(candles, atr))
    ensures meta == MetaOf(atr, s)
  {
    bits := [];
    var lastClose := prevClose;
    for n := 0 to Paired(candles, atr)
      invariant bits == BitsUpTo(candles, atr, s, prevClose, n)
      invariant lastClose == CloseBefore(candles, prevClose, n)
    {
      RatiosInRange(candles[n], lastClose, atr[n], s);
      var f := FeaturesOf(candles[n], lastClose, atr[n], s);
      DeltaBucketIsClose(f.deltaRatio);
      RangeBucketIsClose(f.rangeRatio);
      bits := bits + (IntToBits(f.direction, 1) + IntToBits(Bucket(f.deltaRatio, MAX_DELTA_BUCKET), 3)
                      + IntToBits(Bucket(f.rangeRatio, MAX_ATR_BUCKET), 2)
                      + IntToBits(f.liquidity, 1) + IntToBits(f.volume, 1));
      lastClose := candles[n].close;
    }
    meta := MetaOf(atr, s);
  }

  // ---------------------------------------------------------------- decoding

  datatype Record = Record(direction: Bit, absDelta: real, atrRatio: real, liquidity: Bit, volume: real)

  /** The middle of a bucket, in units of `scale`. */
  function Estimate(bucket: int, divisor: real, scale: real): real
    requires divisor != 0.0
  {
    (bucket as real + 0.5) / divisor * scale
  }

  function VolumeEstimate(flag: Bit, split: real): real {
    split * (if flag == 1 then 1.25 else 0.75)
  }

  function RecordOf(bits: seq<Bit>, meta: Meta): Record
    requires |bits| == BITS_PER_CANDLE
  {
    Record(bits[0],
           Estimate(BitsToInt(bits[1..4]), 8.0, meta.deltaScale),
           Estimate(BitsToInt(bits[4..6]), 4.0, meta.atrScale),
           bits[6],
           VolumeEstimate(bits[7], meta.volumeSplit))
  }

  method DecodeWindowBits(data: seq<Byte>, length: nat, meta: Meta) returns (records: seq<Record>)
    ensures var bits := Unpack(data, length);
            && |records| == |bits| / BITS_PER_CANDLE
            && forall k :: 0 <= k < |records| ==> records[k] == RecordOf(bits[8 * k..8 * k + 8], meta)
  {
    hide Unpack, RecordOf;
    var bits := BytesToBits(data, length);
    records := [];
    var idx := 0;
    while idx + BITS_PER_CANDLE <= |bits|
      invariant idx == BITS_PER_CANDLE * |records| <= |bits|
      invariant forall k :: 0 <= k < |records| ==> records[k] == RecordOf(bits[8 * k..8 * k + 8], meta)
    {
      var record := DecodeRecord(bits, idx, meta);
      idx := idx + BITS_PER_CANDLE;
      records := records + [record];
    }
  }

  method DecodeRecord(bits: seq<Bit>, idx: nat, meta: Meta) returns (record: Record)
    requires idx + BITS_PER_CANDLE <= |bits|
    ensures record == RecordOf(bits[idx..idx + 8], meta)
  {
    hide Estimate, VolumeEstimate;
    SliceOfSlice(bits, idx, idx + 8, 1, 4);
    SliceOfSlice(bits, idx, idx + 8, 4, 6);
    var deltaBucket := BitsToIntLoop(bits[idx + 1..idx + 4]);
    var atrBucket := BitsToIntLoop(bits[idx + 4..idx + 6]);
    record := Record(bits[idx],
                     Estimate(deltaBucket, 8.0, meta.deltaScale),
                     Estimate(atrBucket, 4.0, meta.atrScale),
                     bits[idx + 6],
                     VolumeEstimate(bits[idx + 7], meta.volumeSplit));
  }

  lemma SliceOfSlice(bits: seq<Bit>, i: nat, j: nat, a: nat, b: nat)
    requires i <= j <= |bits| && a <= b <= j - i
    ensures bits[i..j][a..b] == bits[i + a..i + b]
  {
    var x, y := bits[i..j][a..b], bits[i + a..i + b];
    assert |x| == |y|;
    forall k | 0 <= k < |x|
      ensures x[k] == y[k]
    {
      assert x[k] == bits[i..j][a + k];
    }
  }

  // ---------------------------------------------------------------- there and back

  lemma {:induction false} ChunkOfBits(candles: seq<Candle>, atr: seq<real>, s: Splits, prevClose: real, n: nat, k: nat)
    requires k < n <= Paired(candles, atr)
    ensures 0.0 <= FeaturesAt(candles, atr, s, prevClose, k).deltaRatio <= 1.0
    ensures 0.0 <= FeaturesAt(candles, atr, s, prevClose, k).rangeRatio <= 1.0
    ensures BitsUpTo(candles, atr, s, prevClose, n)[8 * k..8 * k + 8]
            == BitsOfFeatures(FeaturesAt(candles, atr, s, prevClose, k))
    decreases n
  {
    hide BitsOfFeatures, FeaturesOf, CloseBefore;
    RatiosInRange(candles[k], CloseBefore(candles, prevClose, k), atr[k], s);
    var front := BitsUpTo(candles, atr, s, prevClose, n - 1);
    var bits := BitsUpTo(candles, atr, s, prevClose, n);
    if k < n - 1 {
      ChunkOfBits(candles, atr, s, prevClose, n - 1, k);
      assert bits[8 * k..8 * k + 8] == front[8 * k..8 * k + 8];
    } else {
      RatiosInRange(candles[n - 1], CloseBefore(candles, prevClose, n - 1), atr[n - 1], s);
    }
  }

  lemma SlicesOfParts(d: seq<Bit>, a: seq<Bit>, g: seq<Bit>, l: seq<Bit>, v: seq<Bit>)
    requires |d| == 1 && |a| == 3 && |g| == 2 && |l| == 1 && |v| == 1
    ensures var bits := d + a + g + l + v;
            bits[0] == d[0] && bits[1..4] == a && bits[4..6] == g && bits[6] == l[0] && bits[7] == v[0]
  {
  }

  lemma OneBit(b: Bit)
    ensures IntToBits(b, 1) == [b]
  {
  }

  /** What the decoder is expected to recover of a candle. */
  ghost predicate Recovers(f: Features, r: Record, meta: Meta) {
    && r.direction == f.direction
    && r.liquidity == f.liquidity
    && r.volume * 4.0 == meta.volumeSplit * (if f.volume == 1 then 5.0 else 3.0)
    && WithinBucket(r.absDelta, f.deltaRatio, 8.0, meta.deltaScale)
    && WithinBucket(r.atrRatio, f.rangeRatio, 4.0, meta.atrScale)
  }

  /** An estimate is off by at most one bucket's width. */
  predicate WithinBucket(estimate: real, ratio: real, divisor: real, scale: real)
    requires divisor != 0.0
  {
    AbsR(estimate - ratio * scale) <= 1.0 / divisor * scale
  }

  lemma ScaledError(bucket: int, divisor: real, ratio: real, scale: real)
    requires divisor > 0.0 && AbsR((bucket as real + 0.5) / divisor - ratio) <= 1.0 / divisor && scale >= 0.0
    ensures WithinBucket(Estimate(bucket, divisor, scale), ratio, divisor, scale)
  {
    var e := (bucket as real + 0.5) / divisor - ratio;
    assert Estimate(bucket, divisor, scale) - ratio * scale == e * scale;
    if e >= 0.0 {
      assert e * scale <= 1.0 / divisor * scale;
    } else {
      assert (0.0 - e) * scale <= 1.0 / divisor * scale;
    }
  }

  /** The bits of a candle, field by field. */
  lemma FieldsOfFeatures(f: Features)
    requires 0.0 <= f.deltaRatio <= 1.0 && 0.0 <= f.rangeRatio <= 1.0
    ensures var bits := BitsOfFeatures(f);
            && bits[0] == f.direction && bits[6] == f.liquidity && bits[7] == f.volume
            && BitsToInt(bits[1..4]) == Bucket(f.deltaRatio, MAX_DELTA_BUCKET)
            && BitsToInt(bits[4..6]) == Bucket(f.rangeRatio, MAX_ATR_BUCKET)
  {
    DeltaBucketIsClose(f.deltaRatio);
    RangeBucketIsClose(f.rangeRatio);
    hide Bucket, IntToBits, BitsToInt;
    var delta, range := Bucket(f.deltaRatio, MAX_DELTA_BUCKET), Bucket(f.rangeRatio, MAX_ATR_BUCKET);
    SlicesOfParts(IntToBits(f.direction, 1), IntToBits(delta, 3), IntToBits(range, 2),
                  IntToBits(f.liquidity, 1), IntToBits(f.volume, 1));
    OneBit(f.direction);
    OneBit(f.liquidity);
    OneBit(f.volume);
    assert Pow2(3) == 8 && Pow2(2) == 4;
    IntRoundTrip(delta, 3);
    IntRoundTrip(range, 2);
  }

  lemma RecordOfEncoded(f: Features, meta: Meta)
    requires 0.0 <= f.deltaRatio <= 1.0 && 0.0 <= f.rangeRatio <= 1.0
    ensures RecordOf(BitsOfFeatures(f), meta)
            == Record(f.direction,
                      Estimate(Bucket(f.deltaRatio, MAX_DELTA_BUCKET), 8.0, meta.deltaScale),
                      Estimate(Bucket(f.rangeRatio, MAX_ATR_BUCKET), 4.0, meta.atrScale),
                      f.liquidity,
                      VolumeEstimate(f.volume, meta.volumeSplit))
  {
    hide Bucket, BitsOfFeatures, BitsToInt, Estimate, VolumeEstimate;
    FieldsOfFeatures(f);
  }

  lemma FeaturesRoundTrip(f: Features, meta: Meta)
    requires 0.0 <= f.deltaRatio <= 1.0 && 0.0 <= f.rangeRatio <= 1.0
    requires meta.deltaScale >= 0.0 && meta.atrScale >= 0.0
    ensures Recovers(f, RecordOf(BitsOfFeatures(f), meta), meta)
  {
    hide Bucket, RecordOf, BitsOfFeatures, AbsR, Estimate, WithinBucket;
    RecordOfEncoded(f, meta);
    DeltaBucketIsClose(f.deltaRatio);
    RangeBucketIsClose(f.rangeRatio);
    var delta, range := Bucket(f.deltaRatio, MAX_DELTA_BUCKET), Bucket(f.rangeRatio, MAX_ATR_BUCKET);
    ScaledError(delta, 8.0, f.deltaRatio, meta.deltaScale);
    ScaledError(range, 4.0, f.rangeRatio, meta.atrScale);
  }

  /** Decoding an encoded window: every direction and flag is back, and both ratios are within a bucket of
      the clamped originals. */
  lemma WindowRoundTrip(candles: seq<Candle>, atr: seq<real>, s: Splits, prevClose: real, meta: Meta,
                        records: seq<Record>)
    requires meta.deltaScale >= 0.0 && meta.atrScale >= 0.0
    requires var bits := BitsUpTo(candles, atr, s, prevClose, Paired(candles, atr));
             var decoded := Unpack(Pack(bits), |bits|);
             && |records| == |decoded| / BITS_PER_CANDLE
             && forall k :: 0 <= k < |records| ==> records[k] == RecordOf(decoded[8 * k..8 * k + 8], meta)
    ensures |records| == Paired(candles, atr)
    ensures forall k :: 0 <= k < Paired(candles, atr) ==>
            Recovers(FeaturesAt(candles, atr, s, prevClose, k), records[k], meta)
  {
    hide Recovers, RecordOf, FeaturesOf, BitsOfFeatures;
    PackRoundTrip(BitsUpTo(candles, atr, s, prevClose, Paired(candles, atr)));
    forall k | 0 <= k < Paired(candles, atr)
      ensures Recovers(FeaturesAt(candles, atr, s, prevClose, k), records[k], meta)
    {
      ChunkOfBits(candles, atr, s, prevClose, Paired(candles, atr), k);
      FeaturesRoundTrip(FeaturesAt(candles, atr, s, prevClose, k), meta);
    }
  }

  /** Each candle's eight bits, told from the candles: the first says whether it closed no lower than the one before,
      the last two whether its spread and its volume are on the right side of their splits; in between the rounded
      ratios. */
  lemma EncodedBitsSay(candles: seq<Candle>, atr: seq<real>, s: Splits, prevClose: real, k: nat)
    requires k < Paired(candles, atr) && candles[k].low <= candles[k].high
    ensures var bits := BitsUpTo(candles, atr, s, prevClose, Paired(candles, atr));
            var c, before := candles[k], if k == 0 then prevClose else candles[k - 1].close;
            var f := FeaturesAt(candles, atr, s, prevClose, k);
            && |bits| >= 8 * k + 8
            && (bits[8 * k] == 1 <==> c.close >= before)
            && BitsToInt(bits[8 * k + 1..8 * k + 4]) == Bucket(f.deltaRatio, MAX_DELTA_BUCKET)
            && BitsToInt(bits[8 * k + 4..8 * k + 6]) == Bucket(f.rangeRatio, MAX_ATR_BUCKET)
            && (bits[8 * k + 6] == 0 <==>
                  s.spread > 0.0
                  && s.spread < if c.spread.Some? && c.spread.value > 0.0 then c.spread.value else c.high - c.low)
            && (bits[8 * k + 7] == 1 <==> c.volume >= s.volume)
  {
    hide FeaturesOf, BitsOfFeatures, BitsToInt, Bucket, BitsUpTo, TrueRange, IsCappedRatio;
    var n := Paired(candles, atr);
    var bits := BitsUpTo(candles, atr, s, prevClose, n);
    var f := FeaturesAt(candles, atr, s, prevClose, k);
    FeaturesSay(candles[k], CloseBefore(candles, prevClose, k), atr[k], s);
    ChunkOfBits(candles, atr, s, prevClose, n, k);
    FieldsOfFeatures(f);
    assert 8 * k + 8 <= 8 * n == |bits|;
    SliceOfSlice(bits, 8 * k, 8 * k + 8, 1, 4);
    SliceOfSlice(bits, 8 * k, 8 * k + 8, 4, 6);
    var chunk := bits[8 * k..8 * k + 8];
    assert chunk[0] == bits[8 * k] && chunk[6] == bits[8 * k + 6] && chunk[7] == bits[8 * k + 7];
  }

  /** With the scales the encoder keeps beside the bits, for ranges that are not negative. */
  lemma OwnScalesRoundTrip(candles: seq<Candle>, atr: seq<real>, s: Splits, prevClose: real, records: seq<Record>)
    requires forall k :: 0 <= k < |atr| ==> atr[k] >= 0.0
    requires var bits := BitsUpTo(candles, atr, s, prevClose, Paired(candles, atr));
             var decoded := Unpack(Pack(bits), |bits|);
             && |records| == |decoded| / BITS_PER_CANDLE
             && forall k :: 0 <= k < |records| ==> records[k] == RecordOf(decoded[8 * k..8 * k + 8], MetaOf(atr, s))
    ensures |records| == Paired(candles, atr)
    ensures forall k :: 0 <= k < Paired(candles, atr) ==>
              Recovers(FeaturesAt(candles, atr, s, prevClose, k), records[k], MetaOf(atr, s))
  {
    hide Recovers, RecordOf, FeaturesOf, BitsUpTo, Pack, Unpack, MeanOr;
    MeanIsNonNegative(atr, 1.0);
    WindowRoundTrip(candles, atr, s, prevClose, MetaOf(atr, s), records);
  }
}
