/**
 * Codeword-dependent cepstral normalization (CDCN) of a block of frames, as
 * blk_cdcn_norm.c does it once the codebook has been estimated: each frame's
 * cepstrum is replaced by an estimate of the clean speech, a mixture over the
 * codewords weighted by each codeword's Gaussian score against the frame.
 *
 * Cepstra are `real`s rather than C floats, and the exponential is a
 * parameter `exp`; the width of a frame, NUM_COEFF+1 in the C header, is the
 * length of the tilt vector.
 */
module Cdcn {
  import opened Wrappers

  type Vec = seq<real>

  /**
   * The estimated distortion model: per codeword its mean cepstrum, its
   * correction vector, its variances and its probability weight; the spectral
   * tilt; and a noise estimate, which normalization never reads.
   */
  datatype Codebook = Codebook(
    means: seq<Vec>,
    corrbook: seq<Vec>,
    variance: seq<Vec>,
    prob: seq<real>,
    tilt: Vec,
    noise: Vec)

  /** The part of the CDCN variables that `block_cdcn_norm` consults. */
  datatype CdcnVariables = CdcnVariables(runCdcn: bool, firstCall: bool, codebook: Codebook)

  /** The number of coefficients of a frame (NUM_COEFF+1). */
  function Dim(cb: Codebook): nat {
    |cb.tilt|
  }

  function NumCodes(cb: Codebook): nat {
    |cb.prob|
  }

  /**
   * A codebook normalization can use: at least one codeword (codeword 0 is
   * always read), every vector as wide as a frame, and no zero variance.
   */
  ghost predicate ValidCodebook(cb: Codebook) {
    && 1 <= Dim(cb) && 1 <= NumCodes(cb)
    && |cb.means| == NumCodes(cb) && |cb.corrbook| == NumCodes(cb) && |cb.variance| == NumCodes(cb)
    && (forall k :: 0 <= k < NumCodes(cb) ==>
          |cb.means[k]| == Dim(cb) && |cb.corrbook[k]| == Dim(cb) && |cb.variance[k]| == Dim(cb))
    && (forall k, j :: 0 <= k < NumCodes(cb) && 0 <= j < |cb.variance[k]| ==> cb.variance[k][j] != 0.0)
  }

  /** Every frame of the utterance has the codebook's width. */
  ghost predicate FramesShaped(cb: Codebook, z: seq<Vec>) {
    forall i :: 0 <= i < |z| ==> |z[i]| == Dim(cb)
  }

  // ---------------------------------------------------------------------
  // The estimator, as sums
  // ---------------------------------------------------------------------

  /** Coefficient `j` of the frame minus tilt, mean and correction of codeword `k`. */
  function Difference(zf: Vec, cb: Codebook, k: nat, j: nat): real
    requires ValidCodebook(cb) && |zf| == Dim(cb) && k < NumCodes(cb) && j < Dim(cb)
  {
    zf[j] - cb.tilt[j] - cb.means[k][j] - cb.corrbook[k][j]
  }

  /** The variance-weighted squared distance to codeword `k` over the first `n` coefficients. */
  function DistanceUpTo(zf: Vec, cb: Codebook, k: nat, n: nat): real
    requires ValidCodebook(cb) && |zf| == Dim(cb) && k < NumCodes(cb) && n <= Dim(cb)
  {
    if n == 0 then 0.0
    else DistanceUpTo(zf, cb, k, n - 1) + Difference(zf, cb, k, n - 1) * Difference(zf, cb, k, n - 1) / cb.variance[k][n - 1]
  }

  function Distance(zf: Vec, cb: Codebook, k: nat): (d: real)
    requires ValidCodebook(cb) && |zf| == Dim(cb) && k < NumCodes(cb)
    ensures (forall j :: 0 <= j < Dim(cb) ==> cb.variance[k][j] > 0.0) ==> d >= 0.0
    ensures (forall j :: 0 <= j < Dim(cb) ==> Difference(zf, cb, k, j) == 0.0) ==> d == 0.0
  {
    DistanceZeroAtCodeword(zf, cb, k, Dim(cb));
    if forall j :: 0 <= j < Dim(cb) ==> cb.variance[k][j] > 0.0 then
      DistanceNonNegative(zf, cb, k, Dim(cb));
      DistanceUpTo(zf, cb, k, Dim(cb))
    else
      DistanceUpTo(zf, cb, k, Dim(cb))
  }

  /** `fk`: the Gaussian score of codeword `k` times its probability weight. */
  function Weight(zf: Vec, cb: Codebook, exp: real -> real, k: nat): (w: real)
    requires ValidCodebook(cb) && |zf| == Dim(cb) && k < NumCodes(cb)
    ensures cb.prob[k] == 0.0 ==> w == 0.0
  {
    exp(-Distance(zf, cb, k) / 2.0) * cb.prob[k]
  }

  /** The sum of the weights of the first `n` codewords. */
  function DenUpTo(zf: Vec, cb: Codebook, exp: real -> real, n: nat): real
    requires ValidCodebook(cb) && |zf| == Dim(cb) && n <= NumCodes(cb)
  {
    if n == 0 then 0.0 else DenUpTo(zf, cb, exp, n - 1) + Weight(zf, cb, exp, n - 1)
  }

  /** `den`: the weights of all codewords, codeword 0 included. */
  function Den(zf: Vec, cb: Codebook, exp: real -> real): (d: real)
    requires ValidCodebook(cb) && |zf| == Dim(cb)
    ensures (forall t :: exp(t) >= 0.0) && (forall k :: 0 <= k < NumCodes(cb) ==> cb.prob[k] >= 0.0) ==> d >= 0.0
    ensures (forall t :: exp(t) == 0.0) ==> d == 0.0
  {
    DenSign(zf, cb, exp);
    DenUpTo(zf, cb, exp, NumCodes(cb))
  }

  /** The sign of the full `den` under each assumption on the exponential. */
  lemma DenSign(zf: Vec, cb: Codebook, exp: real -> real)
    requires ValidCodebook(cb) && |zf| == Dim(cb)
    ensures (forall t :: exp(t) >= 0.0) && (forall k :: 0 <= k < NumCodes(cb) ==> cb.prob[k] >= 0.0) ==>
      DenUpTo(zf, cb, exp, NumCodes(cb)) >= 0.0
    ensures (forall t :: exp(t) == 0.0) ==> DenUpTo(zf, cb, exp, NumCodes(cb)) == 0.0
  {
    if (forall t :: exp(t) >= 0.0) && (forall k :: 0 <= k < NumCodes(cb) ==> cb.prob[k] >= 0.0) {
      DenNonNegative(zf, cb, exp, NumCodes(cb));
    }
    if forall t :: exp(t) == 0.0 {
      DenVanishes(zf, cb, exp, NumCodes(cb));
    }
  }

  /** The clean-speech estimate of coefficient `j` under codeword `k`: frame minus tilt minus correction. */
  function Estimate(zf: Vec, cb: Codebook, k: nat, j: nat): real
    requires ValidCodebook(cb) && |zf| == Dim(cb) && k < NumCodes(cb) && j < Dim(cb)
  {
    zf[j] - cb.tilt[j] - cb.corrbook[k][j]
  }

  /** Codeword `k`'s weighted estimate of coefficient `j`. */
  function Term(zf: Vec, cb: Codebook, exp: real -> real, k: nat, j: nat): real
    requires ValidCodebook(cb) && |zf| == Dim(cb) && k < NumCodes(cb) && j < Dim(cb)
  {
    Estimate(zf, cb, k, j) * Weight(zf, cb, exp, k)
  }

  /** `x[j]` after the codewords 1 .. n-1: the estimator's numerator leaves codeword 0 out. */
  function NumUpTo(zf: Vec, cb: Codebook, exp: real -> real, j: nat, n: nat): real
    requires ValidCodebook(cb) && |zf| == Dim(cb) && j < Dim(cb) && 1 <= n <= NumCodes(cb)
  {
    if n == 1 then 0.0 else NumUpTo(zf, cb, exp, j, n - 1) + Term(zf, cb, exp, n - 1, j)
  }

  function Num(zf: Vec, cb: Codebook, exp: real -> real, j: nat): (x: real)
    requires ValidCodebook(cb) && |zf| == Dim(cb) && j < Dim(cb)
    ensures x == InclusiveNumUpTo(zf, cb, exp, j, NumCodes(cb)) - Term(zf, cb, exp, 0, j)
  {
    NumeratorSkipsFirstCodeword(zf, cb, exp, j, NumCodes(cb));
    NumUpTo(zf, cb, exp, j, NumCodes(cb))
  }

  /** The numerator over the first `n` codewords, codeword 0 included, as `den` counts them. */
  function InclusiveNumUpTo(zf: Vec, cb: Codebook, exp: real -> real, j: nat, n: nat): real
    requires ValidCodebook(cb) && |zf| == Dim(cb) && j < Dim(cb) && n <= NumCodes(cb)
  {
    if n == 0 then 0.0 else InclusiveNumUpTo(zf, cb, exp, j, n - 1) + Term(zf, cb, exp, n - 1, j)
  }

  // ---------------------------------------------------------------------
  // Normalization of a frame
  // ---------------------------------------------------------------------

  /**
   * The final step of the frame loop as written: with a non-zero `den` every
   * coefficient becomes `x[j] / den`; otherwise the tilt is subtracted at the
   * index `j` the loops left behind. An index outside the frame is a write
   * out of bounds, for which the result is None.
   */
  function NormalizeAsWritten(zf: Vec, x: Vec, den: real, j: int, tilt: Vec): (r: Option<Vec>)
    requires |x| == |zf| == |tilt|
    ensures den != 0.0 ==> r.Some? && |r.value| == |x| && forall i :: 0 <= i < |x| ==> r.value[i] * den == x[i]
    ensures den == 0.0 ==> (r.Some? <==> 0 <= j < |zf|)
  {
    if den != 0.0 then Some(seq(|x|, i requires 0 <= i < |x| => x[i] / den))
    else if 0 <= j < |zf| then Some(zf[j := zf[j] - tilt[j]])
    else None
  }

  /** The final step with the degenerate case repaired: a frame whose weights all vanish loses its tilt. */
  function Normalize(zf: Vec, x: Vec, den: real, tilt: Vec): (r: Vec)
    requires |x| == |zf| == |tilt|
    ensures |r| == |zf|
    ensures den != 0.0 ==> forall i :: 0 <= i < |x| ==> r[i] * den == x[i]
    ensures den == 0.0 ==> forall i :: 0 <= i < |zf| ==> r[i] + tilt[i] == zf[i]
  {
    if den != 0.0 then seq(|x|, i requires 0 <= i < |x| => x[i] / den)
    else seq(|zf|, i requires 0 <= i < |zf| => zf[i] - tilt[i])
  }

  /** The repaired step and the step as written agree wherever the latter is defined and `den` is non-zero. */
  lemma NormalizeAgreesWhenDenNonZero(zf: Vec, x: Vec, den: real, j: int, tilt: Vec)
    requires |x| == |zf| == |tilt| && den != 0.0
    ensures NormalizeAsWritten(zf, x, den, j, tilt) == Some(Normalize(zf, x, den, tilt))
  {
  }

  /** The estimator's numerator vector `x`. */
  function NumVec(zf: Vec, cb: Codebook, exp: real -> real): (x: Vec)
    requires ValidCodebook(cb) && |zf| == Dim(cb)
    ensures |x| == Dim(cb)
  {
    seq(Dim(cb), j requires 0 <= j < Dim(cb) => Num(zf, cb, exp, j))
  }

  /** The cleaned frame, with the degenerate case repaired. */
  function CleanFrame(zf: Vec, cb: Codebook, exp: real -> real): (r: Vec)
    requires ValidCodebook(cb) && |zf| == Dim(cb)
    ensures |r| == Dim(cb)
    ensures Den(zf, cb, exp) != 0.0 ==>
      forall j :: 0 <= j < Dim(cb) ==> r[j] * Den(zf, cb, exp) == Num(zf, cb, exp, j)
    ensures Den(zf, cb, exp) == 0.0 ==> forall j :: 0 <= j < Dim(cb) ==> r[j] == zf[j] - cb.tilt[j]
  {
    Normalize(zf, NumVec(zf, cb, exp), Den(zf, cb, exp), cb.tilt)
  }

  /**
   * The distance loop of `block_actual_cdcn_norm` for codeword `k`: coefficient
   * 0 starts the sum, coefficients 1 .. NUM_COEFF add to it. Also returns the
   * index the loop leaves behind.
   */
  method CodewordDistance(zf: Vec, cb: Codebook, k: nat) returns (distance: real, j: int)
    requires ValidCodebook(cb) && |zf| == Dim(cb) && k < NumCodes(cb)
    ensures distance == Distance(zf, cb, k)
    ensures j == Dim(cb)
  {
    var difference := zf[0] - cb.means[k][0] - cb.corrbook[k][0] - cb.tilt[0];
    distance := difference * difference / cb.variance[k][0];
    j := 1;
    while j < |cb.tilt|
      invariant 1 <= j <= Dim(cb)
      invariant distance == DistanceUpTo(zf, cb, k, j)
    {
      difference := zf[j] - cb.tilt[j] - cb.means[k][j] - cb.corrbook[k][j];
      distance := distance + difference * difference / cb.variance[k][j];
      j := j + 1;
    }
  }

  /**
   * The update loop of `block_actual_cdcn_norm` for codeword `k >= 1`: every
   * coefficient of `x` gains codeword `k`'s weighted estimate. Also returns the
   * index the loop leaves behind.
   */
  method AddCodeword(zf: Vec, cb: Codebook, exp: real -> real, k: nat, fk: real, x: Vec) returns (x': Vec, j: int)
    requires ValidCodebook(cb) && |zf| == Dim(cb) && 1 <= k < NumCodes(cb)
    requires fk == Weight(zf, cb, exp, k)
    requires |x| == Dim(cb) && forall i :: 0 <= i < Dim(cb) ==> x[i] == NumUpTo(zf, cb, exp, i, k)
    ensures |x'| == Dim(cb) && forall i :: 0 <= i < Dim(cb) ==> x'[i] == NumUpTo(zf, cb, exp, i, k + 1)
    ensures j == Dim(cb)
  {
    x' := x;
    j := 0;
    while j < |cb.tilt|
      invariant 0 <= j <= Dim(cb) && |x'| == Dim(cb)
      invariant forall i :: 0 <= i < j ==> x'[i] == NumUpTo(zf, cb, exp, i, k + 1)
      invariant forall i :: j <= i < Dim(cb) ==> x'[i] == NumUpTo(zf, cb, exp, i, k)
    {
      assert NumUpTo(zf, cb, exp, j, k + 1) == x'[j] + Estimate(zf, cb, k, j) * fk;
      x' := x'[j := x'[j] + (zf[j] - cb.tilt[j] - cb.corrbook[k][j]) * fk];
      j := j + 1;
    }
  }

  /**
   * The weight `fk` of codeword `k`, from the distance loop. Also returns the
   * index the distance loop leaves behind.
   */
  method CodewordWeight(zf: Vec, cb: Codebook, exp: real -> real, k: nat) returns (fk: real, j: int)
    requires ValidCodebook(cb) && |zf| == Dim(cb) && k < NumCodes(cb)
    ensures fk == Weight(zf, cb, exp, k)
    ensures j == Dim(cb)
  {
    var distance;
    distance, j := CodewordDistance(zf, cb, k);
    fk := exp(-distance / 2.0) * cb.prob[k];
  }

  /**
   * One pass of the codeword loop for codeword `k >= 1`: its weight joins
   * `den` and its weighted estimate joins `x`.
   */
  method NextCodeword(zf: Vec, cb: Codebook, exp: real -> real, k: nat, x: Vec, den: real)
    returns (x': Vec, den': real, j: int)
    requires ValidCodebook(cb) && |zf| == Dim(cb) && 1 <= k < NumCodes(cb)
    requires den == DenUpTo(zf, cb, exp, k)
    requires |x| == Dim(cb) && forall i :: 0 <= i < Dim(cb) ==> x[i] == NumUpTo(zf, cb, exp, i, k)
    ensures den' == DenUpTo(zf, cb, exp, k + 1)
    ensures |x'| == Dim(cb) && forall i :: 0 <= i < Dim(cb) ==> x'[i] == NumUpTo(zf, cb, exp, i, k + 1)
    ensures j == Dim(cb)
  {
    var fk;
    fk, j := CodewordWeight(zf, cb, exp, k);
    x', j := AddCodeword(zf, cb, exp, k, fk, x);
    den' := den + fk;
  }

  /**
   * The loops of `block_actual_cdcn_norm` for one frame: the weight of
   * codeword 0 starts `den`; every further codeword adds its weight to `den`
   * and its weighted estimate to `x`. Also returns the coefficient index the
   * loops leave behind.
   */
  method ReestimateFrame(zf: Vec, cb: Codebook, exp: real -> real) returns (x: Vec, den: real, j: int)
    requires ValidCodebook(cb) && |zf| == Dim(cb)
    ensures x == NumVec(zf, cb, exp)
    ensures den == Den(zf, cb, exp)
    ensures j == Dim(cb)
  {
    x := seq(|cb.tilt|, _ => 0.0);
    var fk;
    fk, j := CodewordWeight(zf, cb, exp, 0);
    den := fk;
    assert den == DenUpTo(zf, cb, exp, 1);
    var k := 1;
    while k < |cb.prob|
      invariant 1 <= k <= NumCodes(cb)
      invariant j == Dim(cb) && |x| == Dim(cb)
      invariant den == DenUpTo(zf, cb, exp, k)
      invariant forall i :: 0 <= i < Dim(cb) ==> x[i] == NumUpTo(zf, cb, exp, i, k)
    {
      x, den, j := NextCodeword(zf, cb, exp, k, x, den);
      k := k + 1;
    }
    assert den == DenUpTo(zf, cb, exp, NumCodes(cb));
    NumVecFromCoefficients(zf, cb, exp, x);
  }

  /** A vector whose every coefficient is the numerator is the numerator vector. */
  lemma NumVecFromCoefficients(zf: Vec, cb: Codebook, exp: real -> real, x: Vec)
    requires ValidCodebook(cb) && |zf| == Dim(cb)
    requires |x| == Dim(cb) && forall i :: 0 <= i < Dim(cb) ==> x[i] == NumUpTo(zf, cb, exp, i, NumCodes(cb))
    ensures x == NumVec(zf, cb, exp)
  {
  }

  /**
   * One frame of `block_actual_cdcn_norm` as written: when `den` is zero the
   * tilt is subtracted at the index the loops left behind, one past the
   * frame, so the frame has no defined result.
   */
  method NormalizeFrameAsWritten(zf: Vec, cb: Codebook, exp: real -> real) returns (r: Option<Vec>)
    requires ValidCodebook(cb) && |zf| == Dim(cb)
    ensures Den(zf, cb, exp) != 0.0 ==> r == Some(CleanFrame(zf, cb, exp))
    ensures Den(zf, cb, exp) == 0.0 ==> r == None
  {
    var x, den, j := ReestimateFrame(zf, cb, exp);
    r := NormalizeAsWritten(zf, x, den, j, cb.tilt);
  }

  /** One frame of `block_actual_cdcn_norm`, with the degenerate case repaired. */
  method NormalizeFrame(zf: Vec, cb: Codebook, exp: real -> real) returns (r: Vec)
    requires ValidCodebook(cb) && |zf| == Dim(cb)
    ensures r == CleanFrame(zf, cb, exp)
  {
    var x, den, _ := ReestimateFrame(zf, cb, exp);
    r := zf;
    var j := 0;
    while j < |r|
      invariant 0 <= j <= |r| == Dim(cb)
      invariant forall i :: 0 <= i < j ==> r[i] == CleanFrame(zf, cb, exp)[i]
      invariant forall i :: j <= i < |r| ==> r[i] == zf[i]
    {
      if den != 0.0 {
        r := r[j := x[j] / den];
      } else {
        r := r[j := r[j] - cb.tilt[j]];
      }
      j := j + 1;
    }
  }

  // ---------------------------------------------------------------------
  // Blocks of frames
  // ---------------------------------------------------------------------

  /** The utterance after normalization: the first `numFrames` frames cleaned, the rest as they were. */
  function CleanBlock(cb: Codebook, exp: real -> real, z: seq<Vec>, numFrames: int): (r: seq<Vec>)
    requires ValidCodebook(cb) && FramesShaped(cb, z)
    ensures |r| == |z|
    ensures forall i :: 0 <= i < |z| && i < numFrames ==> r[i] == CleanFrame(z[i], cb, exp)
    ensures forall i :: 0 <= i < |z| && numFrames <= i ==> r[i] == z[i]
  {
    seq(|z|, i requires 0 <= i < |z| => if i < numFrames then CleanFrame(z[i], cb, exp) else z[i])
  }

  /**
   * `block_actual_cdcn_norm`: every frame below `num_frames` is cleaned on
   * its own; the frames from `num_frames` on are not touched.
   */
  method BlockActualCdcnNorm(cb: Codebook, exp: real -> real, z: seq<Vec>, numFrames: int) returns (r: seq<Vec>)
    requires ValidCodebook(cb) && FramesShaped(cb, z) && numFrames <= |z|
    ensures |r| == |z|
    ensures forall i :: 0 <= i < numFrames ==> r[i] == CleanFrame(z[i], cb, exp)
    ensures forall i :: 0 <= i < |z| && numFrames <= i ==> r[i] == z[i]
    ensures r == CleanBlock(cb, exp, z, numFrames)
  {
    r := z;
    var i := 0;
    while i < numFrames
      invariant 0 <= i <= |z| && |r| == |z|
      invariant numFrames >= 0 ==> i <= numFrames
      invariant numFrames < 0 ==> i == 0
      invariant forall f :: 0 <= f < i ==> r[f] == CleanFrame(z[f], cb, exp)
      invariant forall f :: i <= f < |z| ==> r[f] == z[f]
    {
      var cleaned := NormalizeFrame(z[i], cb, exp);
      r := r[i := cleaned];
      i := i + 1;
    }
  }

  /**
   * `block_cdcn_norm`: nothing happens unless CDCN is switched on and its
   * variables have been estimated; then the block is normalized.
   */
  method BlockCdcnNorm(vars: CdcnVariables, exp: real -> real, z: seq<Vec>, numFrames: int) returns (r: seq<Vec>)
    requires vars.runCdcn && !vars.firstCall ==>
      ValidCodebook(vars.codebook) && FramesShaped(vars.codebook, z) && numFrames <= |z|
    ensures !vars.runCdcn || vars.firstCall ==> r == z
    ensures vars.runCdcn && !vars.firstCall ==> r == CleanBlock(vars.codebook, exp, z, numFrames)
  {
    if !vars.runCdcn {
      return z;
    }
    if vars.firstCall {
      return z;
    }
    r := BlockActualCdcnNorm(vars.codebook, exp, z, numFrames);
  }

  // ---------------------------------------------------------------------
  // Properties
  // ---------------------------------------------------------------------

  /** A frame's normalization reads no other frame. */
  lemma FramesIndependent(cb: Codebook, exp: real -> real, z1: seq<Vec>, z2: seq<Vec>, numFrames: int, i: int)
    requires ValidCodebook(cb) && FramesShaped(cb, z1) && FramesShaped(cb, z2)
    requires 0 <= i < |z1| && i < |z2| && z1[i] == z2[i]
    ensures CleanBlock(cb, exp, z1, numFrames)[i] == CleanBlock(cb, exp, z2, numFrames)[i]
  {
  }

  /** With positive variances every partial distance is non-negative. */
  lemma {:induction false} DistanceNonNegative(zf: Vec, cb: Codebook, k: nat, n: nat)
    requires ValidCodebook(cb) && |zf| == Dim(cb) && k < NumCodes(cb) && n <= Dim(cb)
    requires forall j :: 0 <= j < Dim(cb) ==> cb.variance[k][j] > 0.0
    ensures DistanceUpTo(zf, cb, k, n) >= 0.0
  {
    if n > 0 {
      DistanceNonNegative(zf, cb, k, n - 1);
      var d := Difference(zf, cb, k, n - 1);
      assert d * d >= 0.0;
      assert d * d / cb.variance[k][n - 1] >= 0.0;
    }
  }

  /** A frame that coincides with codeword `k` once tilt and correction are removed is at distance zero from it. */
  lemma {:induction false} DistanceZeroAtCodeword(zf: Vec, cb: Codebook, k: nat, n: nat)
    requires ValidCodebook(cb) && |zf| == Dim(cb) && k < NumCodes(cb) && n <= Dim(cb)
    ensures (forall j :: 0 <= j < Dim(cb) ==> Difference(zf, cb, k, j) == 0.0) ==> DistanceUpTo(zf, cb, k, n) == 0.0
  {
    if n > 0 {
      DistanceZeroAtCodeword(zf, cb, k, n - 1);
    }
  }

  /** With a non-negative exponential and non-negative probability weights, `den` is non-negative. */
  lemma {:induction false} DenNonNegative(zf: Vec, cb: Codebook, exp: real -> real, n: nat)
    requires ValidCodebook(cb) && |zf| == Dim(cb) && n <= NumCodes(cb)
    requires forall t :: exp(t) >= 0.0
    requires forall k :: 0 <= k < NumCodes(cb) ==> cb.prob[k] >= 0.0
    ensures DenUpTo(zf, cb, exp, n) >= 0.0
  {
    if n > 0 {
      DenNonNegative(zf, cb, exp, n - 1);
      var e := exp(-Distance(zf, cb, n - 1) / 2.0);
      assert e >= 0.0 && cb.prob[n - 1] >= 0.0;
      assert e * cb.prob[n - 1] >= 0.0;
    }
  }

  /** The numerator is the inclusive one less codeword 0's term, which `den` nevertheless counts. */
  lemma {:induction false} NumeratorSkipsFirstCodeword(zf: Vec, cb: Codebook, exp: real -> real, j: nat, n: nat)
    requires ValidCodebook(cb) && |zf| == Dim(cb) && j < Dim(cb) && 1 <= n <= NumCodes(cb)
    ensures NumUpTo(zf, cb, exp, j, n) == InclusiveNumUpTo(zf, cb, exp, j, n) - Term(zf, cb, exp, 0, j)
  {
    if n > 1 {
      NumeratorSkipsFirstCodeword(zf, cb, exp, j, n - 1);
    }
  }

  /**
   * When every codeword carries the same correction `c`, the numerator is the
   * common estimate times the weight of all codewords but the first.
   */
  lemma {:induction false} SharedCorrectionNumerator(zf: Vec, cb: Codebook, exp: real -> real, j: nat, n: nat)
    requires ValidCodebook(cb) && |zf| == Dim(cb) && j < Dim(cb) && 1 <= n <= NumCodes(cb)
    requires forall k :: 0 <= k < NumCodes(cb) ==> cb.corrbook[k] == cb.corrbook[0]
    ensures NumUpTo(zf, cb, exp, j, n)
      == Estimate(zf, cb, 0, j) * (DenUpTo(zf, cb, exp, n) - Weight(zf, cb, exp, 0))
  {
    if n > 1 {
      SharedCorrectionNumerator(zf, cb, exp, j, n - 1);
      assert Estimate(zf, cb, n - 1, j) == Estimate(zf, cb, 0, j);
      assert DenUpTo(zf, cb, exp, n) == DenUpTo(zf, cb, exp, n - 1) + Weight(zf, cb, exp, n - 1);
    } else {
      assert DenUpTo(zf, cb, exp, 1) == Weight(zf, cb, exp, 0);
    }
  }

  /** With a single codeword and a non-zero `den`, the cleaned frame is all zeros. */
  lemma {:induction false} SingleCodewordGivesZeros(zf: Vec, cb: Codebook, exp: real -> real)
    requires ValidCodebook(cb) && |zf| == Dim(cb) && NumCodes(cb) == 1
    requires Den(zf, cb, exp) != 0.0
    ensures forall j :: 0 <= j < Dim(cb) ==> CleanFrame(zf, cb, exp)[j] == 0.0
  {
    forall j | 0 <= j < Dim(cb)
      ensures CleanFrame(zf, cb, exp)[j] == 0.0
    {
      assert Num(zf, cb, exp, j) == 0.0;
    }
  }

  /**
   * The leftover index of the frame loops is one past the frame, so the
   * degenerate branch as written has no defined result: this happens for every
   * frame when the exponential underflows to zero for all codewords.
   */
  lemma {:induction false} DegenerateFrameWritesOutOfBounds(zf: Vec, cb: Codebook)
    requires ValidCodebook(cb) && |zf| == Dim(cb)
    ensures var exp := (t: real) => 0.0;
      && Den(zf, cb, exp) == 0.0
      && NormalizeAsWritten(zf, NumVec(zf, cb, exp), Den(zf, cb, exp), Dim(cb), cb.tilt) == None
  {
    var exp := (t: real) => 0.0;
    DenVanishes(zf, cb, exp, NumCodes(cb));
  }

  /** With an exponential that is zero everywhere, every partial `den` is zero. */
  lemma {:induction false} DenVanishes(zf: Vec, cb: Codebook, exp: real -> real, n: nat)
    requires ValidCodebook(cb) && |zf| == Dim(cb) && n <= NumCodes(cb)
    requires forall t :: exp(t) == 0.0
    ensures DenUpTo(zf, cb, exp, n) == 0.0
  {
    if n > 0 {
      DenVanishes(zf, cb, exp, n - 1);
    }
  }
}
