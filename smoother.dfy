/**
  The exponential moving average `ewma<uint32_t, HalfLife>` of recept.cpp.

  The smoother is either empty or tracking.  The first sample after it was
  emptied is stored verbatim; every later sample is blended into the stored
  value with the decay coefficient `alpha`, the positive number whose
  `HalfLife`-th power is 1/2 (the source computes it as
  `exp(log(0.5) / HalfLife)`).  The stored value is a real number here where
  the source keeps a `float`; reading it converts to `uint32_t`, which
  truncates toward zero.
 */
module Smoother {

  import opened Ints

  /** A stored value that converts to `uint32_t` without leaving its range. */
  predicate InRange(m: real)
  {
    0.0 <= m <= U32_MAX as real
  }

  /** `a` raised to the natural power `n`. */
  function Pow(a: real, n: nat): real
  {
    if n == 0 then 1.0 else a * Pow(a, n - 1)
  }

  /** A sample as the smoother stores it. */
  function Sample(v: uint32): real
  {
    v as real
  }

  /** The two fields `add` and `clear` update: `is_empty` and `m_value`. */
  datatype EwmaState = EwmaState(isEmpty: bool, mValue: real)

  /** The state of a freshly constructed smoother: empty, and (being a static
      object) with its value zero-initialised. */
  const Initial: EwmaState := EwmaState(true, 0.0)

  /** `alpha * current + (1 - alpha) * sample`: the new value `add` stores
      once the smoother is tracking. */
  function Blend(alpha: real, current: real, sample: real): real
  {
    alpha * current + (1.0 - alpha) * sample
  }

  /** A blend lies between the value it starts from and the sample, and it
      moves off the sample whenever the two differ (no sample is taken
      verbatim once tracking). */
  lemma BlendBetween(alpha: real, current: real, sample: real)
    requires 0.0 < alpha < 1.0
    ensures current <= sample ==> current <= Blend(alpha, current, sample) <= sample
    ensures sample <= current ==> sample <= Blend(alpha, current, sample) <= current
    ensures current != sample ==> Blend(alpha, current, sample) != sample
  {
    var r := Blend(alpha, current, sample);
    if current <= sample {
      var d := sample - current;
      assert r - current == (1.0 - alpha) * d;
      assert sample - r == alpha * d;
      ScaledSign(alpha, d);
      ScaledSign(1.0 - alpha, d);
    } else {
      var d := current - sample;
      assert current - r == (1.0 - alpha) * d;
      assert r - sample == alpha * d;
      ScaledSign(alpha, d);
      ScaledSign(1.0 - alpha, d);
    }
  }

  /** A positive factor keeps the sign of what it scales. */
  lemma ScaledSign(a: real, d: real)
    requires 0.0 < a
    ensures 0.0 <= d ==> 0.0 <= a * d
    ensures 0.0 < d ==> 0.0 < a * d
  {
  }

  /** `clear()`: the state after the smoother was emptied. */
  function Cleared(s: EwmaState): EwmaState
  {
    s.(isEmpty := true)
  }

  /** `add(v)`: the state after folding in one sample. */
  function Added(alpha: real, s: EwmaState, v: uint32): EwmaState
  {
    EwmaState(false, if s.isEmpty then Sample(v) else Blend(alpha, s.mValue, Sample(v)))
  }

  /** `add` keeps the stored value convertible to `uint32_t`: a blend of two
      values in range is in range. */
  lemma AddedInRange(alpha: real, s: EwmaState, v: uint32)
    requires 0.0 < alpha < 1.0
    requires InRange(s.mValue) || s.isEmpty
    ensures InRange(Added(alpha, s, v).mValue)
  {
    BlendBetween(alpha, s.mValue, Sample(v));
  }

  /** `value()`: the stored value converted to `uint32_t`, truncating toward zero. */
  function Truncated(m: real): (r: uint32)
    requires InRange(m)
    ensures Sample(r) <= m < Sample(r) + 1.0
  {
    m.Floor
  }

  /** The state after folding in the samples `vs` in order. */
  function Feed(alpha: real, s: EwmaState, vs: seq<uint32>): EwmaState
    requires 0.0 < alpha < 1.0
    decreases |vs|
  {
    if vs == [] then s else Added(alpha, Feed(alpha, s, vs[..|vs| - 1]), vs[|vs| - 1])
  }

  /** `clear()` only sets the empty flag; a second `clear()` changes nothing. */
  lemma ClearIdempotent(s: EwmaState)
    ensures Cleared(s).isEmpty && Cleared(s).mValue == s.mValue
    ensures Cleared(Cleared(s)) == Cleared(s)
  {
  }

  /** After any `add`, the smoother is tracking, whatever it was before. */
  lemma AddTracks(alpha: real, s: EwmaState, v: uint32)
    requires 0.0 < alpha < 1.0
    ensures !Added(alpha, s, v).isEmpty
  {
  }

  /** The first sample after `clear()` is read back exactly. */
  lemma FirstSampleVerbatim(alpha: real, s: EwmaState, v: uint32)
    requires 0.0 < alpha < 1.0
    ensures Added(alpha, Cleared(s), v).mValue == Sample(v)
    ensures Truncated(Added(alpha, Cleared(s), v).mValue) == v
  {
  }

  /** A power of a number at least one is at least one. */
  lemma {:induction false} PowAtLeastOne(a: real, n: nat)
    requires 1.0 <= a
    ensures 1.0 <= Pow(a, n)
  {
    if n > 0 {
      PowAtLeastOne(a, n - 1);
      assert a * Pow(a, n - 1) >= 1.0 * Pow(a, n - 1);
    }
  }

  /** A positive half-life root of 1/2 is a decay coefficient strictly inside (0, 1). */
  lemma AlphaBelowOne(alpha: real, halfLife: nat)
    requires 0.0 < alpha && Pow(alpha, halfLife) == 0.5
    ensures alpha < 1.0
  {
    if alpha >= 1.0 {
      PowAtLeastOne(alpha, halfLife);
    }
  }

  /** Once tracking, the smoothed value never leaves the range of the stored
      value and the samples fed since; in particular it stays a `uint32_t`. */
  lemma {:induction false} FeedBetween(alpha: real, s: EwmaState, vs: seq<uint32>, lo: real, hi: real)
    requires 0.0 < alpha < 1.0
    requires s.isEmpty ==> vs != []
    requires !s.isEmpty ==> lo <= s.mValue <= hi
    requires forall i :: 0 <= i < |vs| ==> lo <= Sample(vs[i]) <= hi
    ensures lo <= Feed(alpha, s, vs).mValue <= hi
    ensures !Feed(alpha, s, vs).isEmpty || vs == []
    decreases |vs|
  {
    if vs != [] {
      var init := vs[..|vs| - 1];
      if init != [] || !s.isEmpty {
        FeedBetween(alpha, s, init, lo, hi);
      }
      BlendBetween(alpha, Feed(alpha, s, init).mValue, Sample(vs[|vs| - 1]));
    }
  }

  /** The smoothed value is linear in the value it started from: after `n`
      more samples, the old value contributes `alpha^n` times itself. */
  lemma {:induction false} FeedLinear(alpha: real, m: real, vs: seq<uint32>)
    requires 0.0 < alpha < 1.0
    ensures Feed(alpha, EwmaState(false, m), vs).mValue
         == Pow(alpha, |vs|) * m + Feed(alpha, EwmaState(false, 0.0), vs).mValue
    decreases |vs|
  {
    if vs != [] {
      var init, x := vs[..|vs| - 1], Sample(vs[|vs| - 1]);
      var a := Feed(alpha, EwmaState(false, m), init).mValue;
      var z := Feed(alpha, EwmaState(false, 0.0), init).mValue;
      FeedLinear(alpha, m, init);
      assert Feed(alpha, EwmaState(false, m), vs).mValue == Blend(alpha, a, x) by {
        FeedNonEmpty(alpha, EwmaState(false, m), init);
      }
      assert Feed(alpha, EwmaState(false, 0.0), vs).mValue == Blend(alpha, z, x) by {
        FeedNonEmpty(alpha, EwmaState(false, 0.0), init);
      }
      assert Pow(alpha, |vs|) == alpha * Pow(alpha, |init|);
      BlendShift(alpha, a, Pow(alpha, |init|), m, z, x, Pow(alpha, |vs|));
    } else {
      assert Pow(alpha, |vs|) == 1.0;
    }
  }

  /** Blending a value of the form `p * m + z` scales its `m` part by `alpha`. */
  lemma BlendShift(alpha: real, c: real, p: real, m: real, z: real, x: real, q: real)
    requires 0.0 < alpha < 1.0
    requires c == p * m + z && q == alpha * p
    ensures Blend(alpha, c, x) == q * m + Blend(alpha, z, x)
  {
    assert alpha * (p * m + z) == (alpha * p) * m + alpha * z;
  }

  /** Feeding samples into a tracking smoother keeps it tracking. */
  lemma {:induction false} FeedNonEmpty(alpha: real, s: EwmaState, vs: seq<uint32>)
    requires 0.0 < alpha < 1.0
    requires !s.isEmpty
    ensures !Feed(alpha, s, vs).isEmpty
    decreases |vs|
  {
    if vs != [] {
      FeedNonEmpty(alpha, s, vs[..|vs| - 1]);
    }
  }

  /** The meaning of the half-life: after `halfLife` further samples, the
      value the smoother held contributes exactly half of itself. */
  lemma HalfLifeHalves(alpha: real, halfLife: nat, m: real, vs: seq<uint32>)
    requires 0.0 < alpha && Pow(alpha, halfLife) == 0.5
    requires |vs| == halfLife
    ensures 0.0 < alpha < 1.0
    ensures Feed(alpha, EwmaState(false, m), vs).mValue
         == 0.5 * m + Feed(alpha, EwmaState(false, 0.0), vs).mValue
  {
    AlphaBelowOne(alpha, halfLife);
    FeedLinear(alpha, m, vs);
  }

  /** One smoother, `ewma<uint32_t, HalfLife>`, updated in place. */
  class Ewma {
    /** `m_alpha`, the decay coefficient `exp(log(0.5) / HalfLife)`: fixed at
        construction, never written afterwards. */
    const alpha: real
    /** `is_empty` */
    var isEmpty: bool
    /** `m_value` */
    var mValue: real

    ghost predicate Valid()
      reads this
    {
      && 0.0 < alpha < 1.0
      && InRange(mValue)
    }

    /** The two fields `add` and `clear` update, as a value. */
    function State(): EwmaState
      reads this
    {
      EwmaState(isEmpty, mValue)
    }

    /** A smoother with decay coefficient `alpha`; for a positive half-life
        the source's coefficient lies in (0, 1) (see `AlphaBelowOne`). */
    constructor (alpha: real)
      requires 0.0 < alpha < 1.0
      ensures Valid()
      ensures this.alpha == alpha
      ensures State() == Initial
    {
      this.alpha := alpha;
      isEmpty := true;
      mValue := 0.0;
    }

    /** `clear()` */
    method Clear()
      requires Valid()
      modifies this
      ensures Valid()
      ensures State() == Cleared(old(State()))
    {
      isEmpty := true;
    }

    /** `add(value)` */
    method Add(v: uint32)
      requires Valid()
      modifies this
      ensures Valid()
      ensures State() == Added(alpha, old(State()), v)
    {
      AddedInRange(alpha, State(), v);
      if isEmpty {
        mValue := Sample(v);
      } else {
        mValue := Blend(alpha, mValue, Sample(v));
      }
      isEmpty := false;
    }

    /** `value()`: the largest `uint32_t` not above the stored value. */
    function Value(): (r: uint32)
      reads this
      requires Valid()
      ensures Sample(r) <= mValue < Sample(r) + 1.0
    {
      Truncated(mValue)
    }
  }
}
