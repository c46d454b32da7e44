/** The audio-reactive transform of one animation frame (renderer.js, renderLoop):
    three frequency bands are averaged from the analyser's byte snapshot, turned into
    targets for scale, skew and rotation, each axis is smoothed toward its target with
    a fixed lerp weight, and on loud frames a random draw may mirror the skin. */
module Animation {
  import opened Bytes

  /** The analyser is created with fftSize 256, so a snapshot has 128 bins. */
  const FFT_SIZE: int := 256
  const BIN_COUNT: int := FFT_SIZE / 2

  /** Fixed bin ranges [lo, hi) of the three bands, and the bin whose parity
      picks the skew direction. */
  const BASS_LO: int := 0
  const BASS_HI: int := 4
  const MID_LO: int := 10
  const MID_HI: int := 20
  const HIGH_LO: int := 80
  const HIGH_HI: int := 120
  const SKEW_DIR_BIN: int := 15

  /** Constants of the target formulas. */
  const SCALE_AMP: real := 8.0
  const SCALE_BIAS: real := -4.0
  const SCALE_FLOOR: real := 0.8
  const SCALE_MAX: real := SCALE_AMP + SCALE_BIAS
  const SKEW_AMP: real := 80.0
  const ROTATE_AMP: real := 60.0
  const ROTATE_BIAS: real := -5.0

  /** Per-axis smoothing weights. */
  const SCALE_LERP: real := 0.9
  const SKEW_LERP: real := 0.3
  const ROTATE_LERP: real := 0.2

  /** The skin may be mirrored only when bass exceeds this level, and only when
      the random draw exceeds FLIP_DRAW. */
  const FLIP_THRESHOLD: real := 200.0
  const FLIP_DRAW: real := 0.6

  /** The horizontal mirror factor is always +1 or -1. */
  type Sign = x: int | x == 1 || x == -1 witness 1

  // ---------------------------------------------------------------------------
  // Band extraction
  // ---------------------------------------------------------------------------

  /** Sum of a run of bins, added from the front as the source's loops do. */
  function Sum(s: seq<Byte>): int
    decreases |s|
  {
    if s == [] then 0 else Sum(s[..|s| - 1]) + s[|s| - 1]
  }

  lemma {:induction false} SumBounds(s: seq<Byte>)
    ensures 0 <= Sum(s) <= BYTE_MAX * |s|
    decreases |s|
  {
    if s != [] {
      SumBounds(s[..|s| - 1]);
    }
  }

  /** The mean of a non-empty run of bins is itself a byte level. */
  function Mean(s: seq<Byte>): (r: real)
    requires |s| > 0
    ensures 0.0 <= r <= BYTE_MAX as real
  {
    SumBounds(s);
    Sum(s) as real / |s| as real
  }

  /** Adds up bins lo .. hi-1 with an accumulating loop; the band level is this
      total divided by the band's width. */
  method BandSum(data: seq<Byte>, lo: int, hi: int) returns (total: int)
    requires 0 <= lo < hi <= |data|
    ensures total == Sum(data[lo..hi])
    ensures total as real / (hi - lo) as real == Mean(data[lo..hi])
    ensures 0 <= total <= BYTE_MAX * (hi - lo)
  {
    total := 0;
    for i := lo to hi
      invariant total == Sum(data[lo..i])
    {
      assert data[lo..i + 1][..i - lo] == data[lo..i];
      total := total + data[i];
    }
    SumBounds(data[lo..hi]);
  }

  /** A run of bins adds up to nothing exactly when every bin in it is silent. */
  lemma {:induction false} SumZero(s: seq<Byte>)
    ensures Sum(s) == 0 <==> forall i :: 0 <= i < |s| ==> s[i] == 0
    decreases |s|
  {
    if s != [] {
      var init := s[..|s| - 1];
      SumZero(init);
      SumBounds(init);
      assert forall i :: 0 <= i < |init| ==> init[i] == s[i];
    }
  }

  /** The same for a band of the snapshot: the bins lo..hi-1 add up to zero
      exactly when each of them is zero. */
  lemma BandSilent(data: seq<Byte>, lo: int, hi: int)
    requires 0 <= lo <= hi <= |data|
    ensures Sum(data[lo..hi]) == 0 <==> forall i :: lo <= i < hi ==> data[i] == 0
  {
    var band := data[lo..hi];
    SumZero(band);
    assert forall i :: lo <= i < hi ==> data[i] == band[i - lo];
    assert forall j :: 0 <= j < |band| ==> band[j] == data[lo + j];
  }

  /** Bass level: the mean of bins 0..3, in [0, 255], zero exactly when those
      bins are all silent. */
  function Bass(data: seq<Byte>): (r: real)
    requires |data| == BIN_COUNT
    ensures 0.0 <= r <= BYTE_MAX as real
    ensures r * 4.0 == Sum(data[BASS_LO..BASS_HI]) as real
    ensures r == 0.0 <==> forall i :: BASS_LO <= i < BASS_HI ==> data[i] == 0
  {
    BandSilent(data, BASS_LO, BASS_HI);
    Mean(data[BASS_LO..BASS_HI])
  }

  /** Mid level: the mean of bins 10..19, in [0, 255], zero exactly when those
      bins are all silent. */
  function Mid(data: seq<Byte>): (r: real)
    requires |data| == BIN_COUNT
    ensures 0.0 <= r <= BYTE_MAX as real
    ensures r * 10.0 == Sum(data[MID_LO..MID_HI]) as real
    ensures r == 0.0 <==> forall i :: MID_LO <= i < MID_HI ==> data[i] == 0
  {
    BandSilent(data, MID_LO, MID_HI);
    Mean(data[MID_LO..MID_HI])
  }

  /** The mid band before division by its width, from which the skew is computed. */
  function MidSum(data: seq<Byte>): (r: int)
    requires |data| == BIN_COUNT
    ensures 0 <= r <= 10 * BYTE_MAX
    ensures Mid(data) == r as real / 10.0
  {
    SumBounds(data[MID_LO..MID_HI]);
    Sum(data[MID_LO..MID_HI])
  }

  /** High level: the mean of bins 80..119, in [0, 255], zero exactly when
      those bins are all silent. */
  function High(data: seq<Byte>): (r: real)
    requires |data| == BIN_COUNT
    ensures 0.0 <= r <= BYTE_MAX as real
    ensures r * 40.0 == Sum(data[HIGH_LO..HIGH_HI]) as real
    ensures r == 0.0 <==> forall i :: HIGH_LO <= i < HIGH_HI ==> data[i] == 0
  {
    BandSilent(data, HIGH_LO, HIGH_HI);
    Mean(data[HIGH_LO..HIGH_HI])
  }

  /** Every bin the frame reads lies inside the 128-bin snapshot, and every band
      is a level in [0, 255]. */
  lemma BandsInRange(data: seq<Byte>)
    requires |data| == BIN_COUNT
    ensures BASS_HI <= BIN_COUNT && MID_HI <= BIN_COUNT && HIGH_HI <= BIN_COUNT
    ensures SKEW_DIR_BIN < BIN_COUNT
    ensures 0.0 <= Bass(data) <= 255.0 && 0.0 <= Mid(data) <= 255.0 && 0.0 <= High(data) <= 255.0
    ensures Bass(data) == Sum(data[0..4]) as real / 4.0
    ensures Mid(data) == Sum(data[10..20]) as real / 10.0
    ensures High(data) == Sum(data[80..120]) as real / 40.0
  {
  }

  // ---------------------------------------------------------------------------
  // Smoothing
  // ---------------------------------------------------------------------------

  function Min(a: real, b: real): real { if a <= b then a else b }
  function Max(a: real, b: real): real { if a <= b then b else a }
  function Abs(a: real): real { if a < 0.0 then -a else a }

  /** Linear interpolation from start toward end by amt. It leaves a value that
      is already at its target where it is and shrinks the distance to the
      target by the factor (1 - amt). */
  function Lerp(start: real, end: real, amt: real): (r: real)
    ensures r - end == (1.0 - amt) * (start - end)
  {
    LerpAlgebra(start, end, amt);
    (1.0 - amt) * start + amt * end
  }

  /** Interpolating between equal ends gives that value, whatever the weight. */
  lemma LerpAtTarget(a: real, amt: real)
    ensures Lerp(a, a, amt) == a
  {
  }

  /** For a weight in [0, 1] the interpolated value lies between the two ends. */
  lemma LerpBetween(start: real, end: real, amt: real)
    requires 0.0 <= amt <= 1.0
    ensures Min(start, end) <= Lerp(start, end, amt) <= Max(start, end)
  {
    if start <= end {
      LerpUp(start, end, amt);
    } else {
      LerpDown(start, end, amt);
    }
  }

  lemma LerpUp(start: real, end: real, amt: real)
    requires 0.0 <= amt <= 1.0 && start <= end
    ensures start <= Lerp(start, end, amt) <= end
  {
    FractionBelow(1.0 - amt, end - start);
    assert (1.0 - amt) * (start - end) == -((1.0 - amt) * (end - start));
  }

  lemma LerpDown(start: real, end: real, amt: real)
    requires 0.0 <= amt <= 1.0 && end <= start
    ensures end <= Lerp(start, end, amt) <= start
  {
    FractionBelow(1.0 - amt, start - end);
  }

  /** The interpolated value's distance to the end, regrouped. */
  lemma LerpAlgebra(s: real, e: real, a: real)
    ensures (1.0 - a) * s + a * e - e == (1.0 - a) * (s - e)
  {
    assert (1.0 - a) * e == e - a * e;
    assert (1.0 - a) * (s - e) == (1.0 - a) * s - (1.0 - a) * e;
  }

  /** A fraction in [0, 1] of a non-negative d lies between 0 and d. */
  lemma FractionBelow(a: real, d: real)
    requires 0.0 <= a <= 1.0 && d >= 0.0
    ensures 0.0 <= a * d <= d
  {
    assert a * d <= 1.0 * d;
  }

  lemma MulRegroup(p: real, b: real, g: real)
    ensures p * (b * g) == (b * p) * g
  {
  }

  function Power(b: real, n: nat): real
  {
    if n == 0 then 1.0 else b * Power(b, n - 1)
  }

  /** The value of an axis after n frames whose target stays the same. */
  function Smooth(current: real, target: real, amt: real, n: nat): real
    decreases n
  {
    if n == 0 then current else Smooth(Lerp(current, target, amt), target, amt, n - 1)
  }

  /** After n frames the gap to a constant target is (1 - amt)^n times the first gap. */
  lemma {:induction false} SmoothGap(current: real, target: real, amt: real, n: nat)
    ensures Smooth(current, target, amt, n) - target == Power(1.0 - amt, n) * (current - target)
    decreases n
  {
    if n > 0 {
      var next := Lerp(current, target, amt);
      SmoothGap(next, target, amt, n - 1);
      SmoothUnfold(current, target, amt, n);
      PowerUnfold(1.0 - amt, n);
      GapRegroup(Smooth(current, target, amt, n) - target, next - target, current - target,
                 1.0 - amt, Power(1.0 - amt, n - 1), Power(1.0 - amt, n));
    } else {
      assert Power(1.0 - amt, n) == 1.0;
    }
  }

  lemma SmoothUnfold(current: real, target: real, amt: real, n: nat)
    requires n > 0
    ensures Smooth(current, target, amt, n) == Smooth(Lerp(current, target, amt), target, amt, n - 1)
  {
  }

  lemma PowerUnfold(b: real, n: nat)
    requires n > 0
    ensures Power(b, n) == b * Power(b, n - 1)
  {
  }

  /** The gap after a frame and then p more is p times b times the first gap. */
  lemma GapRegroup(lastGap: real, nextGap: real, gap: real, b: real, p: real, pn: real)
    requires lastGap == p * nextGap
    requires nextGap == b * gap
    requires pn == b * p
    ensures lastGap == pn * gap
  {
    MulRegroup(p, b, gap);
  }

  lemma {:induction false} PowerShrinks(b: real, n: nat)
    requires 0.0 <= b <= 1.0
    ensures 0.0 <= Power(b, n + 1) <= Power(b, n) <= 1.0
    decreases n
  {
    if n > 0 {
      PowerShrinks(b, n - 1);
    }
    FractionBelow(b, Power(b, n));
  }

  /** With a weight in (0, 1] and a constant target, every frame brings the axis
      closer to the target (or keeps it there) and never overshoots it. */
  lemma {:induction false} SmoothApproaches(current: real, target: real, amt: real, n: nat)
    requires 0.0 <= amt <= 1.0
    ensures current >= target ==>
      target <= Smooth(current, target, amt, n + 1) <= Smooth(current, target, amt, n) <= current
    ensures current <= target ==>
      current <= Smooth(current, target, amt, n) <= Smooth(current, target, amt, n + 1) <= target
    decreases n
  {
    var next := Lerp(current, target, amt);
    LerpBetween(current, target, amt);
    if n > 0 {
      SmoothApproaches(next, target, amt, n - 1);
    }
  }

  /** Bernoulli's inequality in the form smoothing needs: (1 - a)^n is at most
      1 / (1 + n a), so it tends to 0 when a > 0. */
  lemma {:induction false} PowerBernoulli(a: real, n: nat)
    requires 0.0 <= a <= 1.0
    ensures Power(1.0 - a, n) * (1.0 + n as real * a) <= 1.0
    decreases n
  {
    if n > 0 {
      PowerBernoulli(a, n - 1);
      PowerShrinks(1.0 - a, n - 1);
      PowerUnfold(1.0 - a, n);
      BernoulliStep(Power(1.0 - a, n - 1), a, (n - 1) as real);
    }
  }

  /** One step of the induction: multiplying by (1 - a) pays for one more a. */
  lemma BernoulliStep(p: real, a: real, k: real)
    requires 0.0 <= a <= 1.0 && 0.0 <= p && 0.0 <= k
    requires p * (1.0 + k * a) <= 1.0
    ensures (1.0 - a) * p * (1.0 + (k + 1.0) * a) <= 1.0
  {
    var q := (k + 1.0) * a * a;
    assert (1.0 - a) * p * (1.0 + (k + 1.0) * a) == p * (1.0 + k * a) - p * q;
    FractionBelow(a, (k + 1.0) * a);
    assert 0.0 <= q;
    MulNonNegative(p, q);
  }

  /** Smoothing converges: after n frames toward a constant target the gap is
      at most the first gap divided by 1 + n amt, on the same side. */
  lemma SmoothConverges(current: real, target: real, amt: real, n: nat)
    requires 0.0 <= amt <= 1.0
    ensures current >= target ==>
      0.0 <= (Smooth(current, target, amt, n) - target) * (1.0 + n as real * amt) <= current - target
    ensures current <= target ==>
      current - target <= (Smooth(current, target, amt, n) - target) * (1.0 + n as real * amt) <= 0.0
  {
    SmoothGap(current, target, amt, n);
    GapShrinks(current, target, Smooth(current, target, amt, n), amt, n);
  }

  /** The same bound for any value s whose gap is (1 - amt)^n times the first. */
  lemma GapShrinks(current: real, target: real, s: real, amt: real, n: nat)
    requires 0.0 <= amt <= 1.0
    requires s - target == Power(1.0 - amt, n) * (current - target)
    ensures current >= target ==> 0.0 <= (s - target) * (1.0 + n as real * amt) <= current - target
    ensures current <= target ==> current - target <= (s - target) * (1.0 + n as real * amt) <= 0.0
  {
    var p, w := Power(1.0 - amt, n), 1.0 + n as real * amt;
    PowerFacts(amt, n);
    ScaledGap(s - target, p, current - target, w);
  }

  lemma PowerFacts(a: real, n: nat)
    requires 0.0 <= a <= 1.0
    ensures 0.0 <= Power(1.0 - a, n)
    ensures 0.0 <= 1.0 + n as real * a
    ensures Power(1.0 - a, n) * (1.0 + n as real * a) <= 1.0
  {
    PowerBernoulli(a, n);
    PowerShrinks(1.0 - a, n);
    MulNonNegative(n as real, a);
  }

  /** A gap g = p d, scaled by w with 0 <= p w <= 1, stays between 0 and d. */
  lemma ScaledGap(g: real, p: real, d: real, w: real)
    requires g == p * d && 0.0 <= p && 0.0 <= w && p * w <= 1.0
    ensures d >= 0.0 ==> 0.0 <= g * w <= d
    ensures d <= 0.0 ==> d <= g * w <= 0.0
  {
    var q := p * w;
    MulSwap(p, d, w);
    MulNonNegative(p, w);
    assert g * w == q * d;
    if d >= 0.0 {
      FractionBelow(q, d);
    } else {
      FractionBelow(q, -d);
      assert q * -d == -(q * d);
    }
  }

  lemma MulSwap(p: real, d: real, w: real)
    ensures (p * d) * w == (p * w) * d
  {
  }

  lemma MulNonNegative(x: real, y: real)
    requires 0.0 <= x && 0.0 <= y
    ensures 0.0 <= x * y
  {
  }

  /** For any tolerance eps > 0 and weight amt > 0, every frame n with
      n amt eps >= |gap| lies within eps of the target. */
  lemma SmoothWithin(current: real, target: real, amt: real, eps: real, n: nat)
    requires 0.0 < amt <= 1.0 && 0.0 < eps
    requires n as real * amt * eps >= current - target >= -(n as real * amt * eps)
    ensures -eps <= Smooth(current, target, amt, n) - target <= eps
  {
    SmoothConverges(current, target, amt, n);
    MulNonNegative(n as real, amt);
    GapWithin(current, target, Smooth(current, target, amt, n), n as real * amt, eps);
  }

  /** A value whose gap, scaled by 1 + k, is bounded by a first gap of at most
      k eps lies within eps of the target. */
  lemma GapWithin(current: real, target: real, s: real, k: real, eps: real)
    requires 0.0 <= k && 0.0 < eps
    requires k * eps >= current - target >= -(k * eps)
    requires current >= target ==> 0.0 <= (s - target) * (1.0 + k) <= current - target
    requires current <= target ==> current - target <= (s - target) * (1.0 + k) <= 0.0
    ensures -eps <= s - target <= eps
  {
    if current >= target {
      WithinTolerance(s - target, k, current - target, eps);
    } else {
      assert (target - s) * (1.0 + k) == -((s - target) * (1.0 + k));
      WithinTolerance(target - s, k, target - current, eps);
    }
  }

  /** If 0 <= g (1 + k) <= d and k eps >= d then g <= eps. */
  lemma WithinTolerance(g: real, k: real, d: real, eps: real)
    requires 0.0 <= k && 0.0 < eps && k * eps >= d
    requires 0.0 <= g * (1.0 + k) <= d
    ensures 0.0 <= g <= eps
  {
    assert g * (1.0 + k) == g + g * k;
  }

  // ---------------------------------------------------------------------------
  // Targets
  // ---------------------------------------------------------------------------

  /** Math.pow(x, 1.2) is taken as any curve on [0, 1] that is monotone, maps
      into [0, 1] and fixes 0 and 1. */
  ghost predicate IsUnitCurve(pow: real -> real)
  {
    && pow(0.0) == 0.0
    && pow(1.0) == 1.0
    && forall x, y :: 0.0 <= x <= y <= 1.0 ==> 0.0 <= pow(x) <= pow(y) <= 1.0
  }

  /** Scale target: a power curve of the bass level, floored at 0.8. */
  function ScaleTarget(bass: real, pow: real -> real): (r: real)
    requires 0.0 <= bass <= 255.0
    requires IsUnitCurve(pow)
    ensures SCALE_FLOOR <= r <= SCALE_MAX
  {
    assert 0.0 <= pow(bass / 255.0) <= pow(1.0);
    Max(pow(bass / 255.0) * SCALE_AMP + SCALE_BIAS, SCALE_FLOOR)
  }

  /** Louder bass never gives a smaller scale target. */
  lemma ScaleTargetMonotone(b1: real, b2: real, pow: real -> real)
    requires 0.0 <= b1 <= b2 <= 255.0
    requires IsUnitCurve(pow)
    ensures ScaleTarget(b1, pow) <= ScaleTarget(b2, pow)
  {
    assert pow(b1 / 255.0) <= pow(b2 / 255.0);
  }

  /** Silent bass gives the floor 0.8, full bass gives 8 - 4 = 4.0. */
  lemma ScaleTargetExtremes(pow: real -> real)
    requires IsUnitCurve(pow)
    ensures ScaleTarget(0.0, pow) == 0.8
    ensures ScaleTarget(255.0, pow) == 4.0
  {
  }

  /** Number of bins in the mid band, and the largest sum they can reach. */
  const MID_WIDTH: int := MID_HI - MID_LO
  const MID_SUM_MAX: int := MID_WIDTH * BYTE_MAX

  /** Skew target: (mid/255)^2 * 80 degrees, negated when the direction bin is
      even. The mid level is the band sum over 10, so the square is taken of the
      band sum: (midSum / 2550)^2 * 80 is the same number. */
  function SkewTarget(midSum: int, dirBin: Byte): (r: real)
    requires 0 <= midSum <= MID_SUM_MAX
    ensures -SKEW_AMP <= r <= SKEW_AMP
    ensures r < 0.0 <==> midSum > 0 && dirBin % 2 == 0
    ensures r > 0.0 <==> midSum > 0 && dirBin % 2 == 1
  {
    var square := midSum * midSum;
    SquareBounds(midSum, MID_SUM_MAX);
    var magnitude := square as real * (SKEW_AMP / 6502500.0);
    if dirBin % 2 == 0 then -magnitude else magnitude
  }

  lemma SquareBounds(n: int, m: int)
    requires 0 <= n <= m
    ensures 0 <= n * n <= m * m
    ensures n > 0 ==> n * n > 0
  {
    assert n * n <= n * m <= m * m;
  }

  /** The skew's size is (mid/255)^2 * 80 for the mid level mid = midSum / 10. */
  lemma SkewTargetMagnitude(midSum: int, dirBin: Byte)
    requires 0 <= midSum <= MID_SUM_MAX
    ensures var level := (midSum as real / MID_WIDTH as real) / BYTE_MAX as real;
            Abs(SkewTarget(midSum, dirBin)) == level * level * SKEW_AMP
  {
    var level := (midSum as real / MID_WIDTH as real) / BYTE_MAX as real;
    assert level == midSum as real / 2550.0;
    assert (midSum * midSum) as real == midSum as real * midSum as real;
  }

  /** The direction bin decides only the sign of the skew, never its size. */
  lemma SkewTargetSymmetric(midSum: int, even: Byte, odd: Byte)
    requires 0 <= midSum <= MID_SUM_MAX
    requires even % 2 == 0 && odd % 2 == 1
    ensures SkewTarget(midSum, even) == -SkewTarget(midSum, odd)
  {
  }

  /** Rotation target: (high/255) * 60 - 5 degrees. */
  function RotateTarget(high: real): (r: real)
    requires 0.0 <= high <= 255.0
    ensures ROTATE_BIAS <= r <= ROTATE_AMP + ROTATE_BIAS
  {
    (high / 255.0) * ROTATE_AMP + ROTATE_BIAS
  }

  lemma RotateTargetMonotone(h1: real, h2: real)
    requires 0.0 <= h1 <= h2 <= 255.0
    ensures RotateTarget(h1) <= RotateTarget(h2)
  {
  }

  // ---------------------------------------------------------------------------
  // Flip
  // ---------------------------------------------------------------------------

  /** The mirror factor toggles exactly when bass exceeds 200 and the random
      draw exceeds 0.6; it stays +1 or -1 either way. */
  function NextFlip(flipX: Sign, bass: real, draw: real): (r: Sign)
    ensures r != flipX <==> bass > FLIP_THRESHOLD && draw > FLIP_DRAW
  {
    if bass > FLIP_THRESHOLD && draw > FLIP_DRAW then -(flipX as int) else flipX
  }

  // ---------------------------------------------------------------------------
  // One frame
  // ---------------------------------------------------------------------------

  /** The animation values that persist across frames. */
  datatype AnimationState = AnimationState(scale: real, skew: real, rotate: real, flipX: Sign)

  const INITIAL: AnimationState := AnimationState(1.0, 0.0, 0.0, 1)

  /** The ranges every target lies in; smoothing keeps each axis inside them. */
  ghost predicate InRange(s: AnimationState)
  {
    && SCALE_FLOOR <= s.scale <= SCALE_MAX
    && -SKEW_AMP <= s.skew <= SKEW_AMP
    && ROTATE_BIAS <= s.rotate <= ROTATE_AMP + ROTATE_BIAS
  }

  lemma InitialInRange()
    ensures InRange(INITIAL)
  {
  }

  /** The state after one frame on snapshot data with random draw draw. Each axis
      moves toward its own target with its own weight, independently of the others;
      the ranges are kept, and the mirror changes only on a loud frame. */
  function Step(s: AnimationState, data: seq<Byte>, pow: real -> real, draw: real): (r: AnimationState)
    requires |data| == BIN_COUNT
    requires IsUnitCurve(pow)
    ensures InRange(s) ==> InRange(r)
    ensures r.flipX != s.flipX ==> Bass(data) > FLIP_THRESHOLD
  {
    LerpBetween(s.scale, ScaleTarget(Bass(data), pow), SCALE_LERP);
    LerpBetween(s.skew, SkewTarget(MidSum(data), data[SKEW_DIR_BIN]), SKEW_LERP);
    LerpBetween(s.rotate, RotateTarget(High(data)), ROTATE_LERP);
    AnimationState(
      Lerp(s.scale, ScaleTarget(Bass(data), pow), SCALE_LERP),
      Lerp(s.skew, SkewTarget(MidSum(data), data[SKEW_DIR_BIN]), SKEW_LERP),
      Lerp(s.rotate, RotateTarget(High(data)), ROTATE_LERP),
      NextFlip(s.flipX, Bass(data), draw))
  }

  /** An axis already at its target is left unchanged by a frame. */
  lemma StepKeepsSettledAxes(s: AnimationState, data: seq<Byte>, pow: real -> real, draw: real)
    requires |data| == BIN_COUNT
    requires IsUnitCurve(pow)
    ensures s.scale == ScaleTarget(Bass(data), pow) ==> Step(s, data, pow, draw).scale == s.scale
    ensures s.skew == SkewTarget(MidSum(data), data[SKEW_DIR_BIN]) ==> Step(s, data, pow, draw).skew == s.skew
    ensures s.rotate == RotateTarget(High(data)) ==> Step(s, data, pow, draw).rotate == s.rotate
  {
  }

  /** The states after running one frame per draw on the same snapshot. */
  function Frames(s: AnimationState, data: seq<Byte>, pow: real -> real, draws: seq<real>): AnimationState
    requires |data| == BIN_COUNT
    requires IsUnitCurve(pow)
    decreases |draws|
  {
    if draws == [] then s else Frames(Step(s, data, pow, draws[0]), data, pow, draws[1..])
  }

  /** On a repeated snapshot each axis follows its own smoothing sequence toward a
      fixed target, whatever the random draws, and the mirror never changes while
      the bass stays at or below the threshold. */
  lemma {:induction false} FramesSmoothEachAxis(s: AnimationState, data: seq<Byte>, pow: real -> real, draws: seq<real>)
    requires |data| == BIN_COUNT
    requires IsUnitCurve(pow)
    ensures Frames(s, data, pow, draws).scale == Smooth(s.scale, ScaleTarget(Bass(data), pow), SCALE_LERP, |draws|)
    ensures Frames(s, data, pow, draws).skew == Smooth(s.skew, SkewTarget(MidSum(data), data[SKEW_DIR_BIN]), SKEW_LERP, |draws|)
    ensures Frames(s, data, pow, draws).rotate == Smooth(s.rotate, RotateTarget(High(data)), ROTATE_LERP, |draws|)
    ensures Bass(data) <= FLIP_THRESHOLD ==> Frames(s, data, pow, draws).flipX == s.flipX
    decreases |draws|
  {
    if draws != [] {
      FramesSmoothEachAxis(Step(s, data, pow, draws[0]), data, pow, draws[1..]);
    }
  }

  // ---------------------------------------------------------------------------
  // Output
  // ---------------------------------------------------------------------------

  /** The CSS transform the frame writes: scale(sx, sy) skewX(skew) rotate(rotate). */
  datatype Transform = Transform(scaleX: real, scaleY: real, skewDeg: real, rotateDeg: real)

  /** What the stop path writes: scale(1). */
  const IDENTITY: Transform := Transform(1.0, 1.0, 0.0, 0.0)

  /** The horizontal scale is the vertical scale mirrored by flipX. */
  function ToTransform(s: AnimationState): (t: Transform)
    ensures t.scaleY == s.scale && t.skewDeg == s.skew && t.rotateDeg == s.rotate
    ensures s.flipX == 1 ==> t.scaleX == t.scaleY
    ensures s.flipX == -1 ==> t.scaleX == -t.scaleY
  {
    Transform(s.scale * s.flipX as real, s.scale, s.skew, s.rotate)
  }
}
