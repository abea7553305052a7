/**
 Pressure binning: a pressure value is mapped to the lower edge of the bin of
 width `binSize` that holds it, `(pressure // binSize) * binSize`, with exact
 decimal arithmetic. Decimal `//` keeps the integer part of the true quotient,
 that is, it truncates toward zero.
 */
module Binning {

  /** The integer part of `x`, truncated toward zero (Decimal `//`). */
  function Trunc(x: real): (k: int)
    ensures 0.0 <= x ==> k as real <= x < k as real + 1.0
    ensures x < 0.0 ==> x <= k as real < x + 1.0
  {
    if 0.0 <= x then x.Floor else -((-x).Floor)
  }

  function Abs(x: real): real
  {
    if x < 0.0 then -x else x
  }

  /** `bin_pressure`: the bin key of pressure `p`. A zero bin size makes Decimal raise; callers rule it out. */
  function BinPressure(p: real, binSize: real): real
    requires binSize != 0.0
  {
    Trunc(p / binSize) as real * binSize
  }

  /** The quotient of a bin by the bin size is a whole number. */
  lemma BinIsMultiple(p: real, binSize: real)
    requires binSize != 0.0
    ensures BinPressure(p, binSize) / binSize == Trunc(p / binSize) as real
  {
    var k := Trunc(p / binSize) as real;
    assert k * binSize / binSize == k;
  }

  /**
   A non-negative pressure lies in `[bin, bin + |binSize|)`; a negative one,
   truncated toward zero, in `(bin - |binSize|, bin]`.
   */
  lemma BinBounds(p: real, binSize: real)
    requires binSize != 0.0
    ensures 0.0 <= p ==> 0.0 <= BinPressure(p, binSize) <= p < BinPressure(p, binSize) + Abs(binSize)
    ensures p < 0.0 ==> BinPressure(p, binSize) - Abs(binSize) < p <= BinPressure(p, binSize) <= 0.0
  {
    var q := p / binSize;
    var k := Trunc(q) as real;
    var w := Abs(binSize);
    // Write the pressure and its bin as multiples of the positive width w.
    var qw, kw := if 0.0 < binSize then q else -q, if 0.0 < binSize then k else -k;
    var bin := BinPressure(p, binSize);
    assert p == qw * w && bin == kw * w;
    if 0.0 <= p {
      assert 0.0 <= kw <= qw < kw + 1.0;
      ScaleBelow(kw, qw, w);
      calc {
        bin;
      ==
        kw * w;
      <=
        qw * w;
      ==
        p;
      }
      calc {
        p;
      ==
        qw * w;
      <
        kw * w + w;
      ==
        bin + w;
      }
    } else {
      assert qw <= kw <= 0.0 && kw < qw + 1.0;
      ScaleAbove(kw, qw, w);
      calc {
        bin - w;
      ==
        kw * w - w;
      <
        qw * w;
      ==
        p;
      }
      calc {
        p;
      ==
        qw * w;
      <=
        kw * w;
      ==
        bin;
      }
    }
  }

  /** `q` in `[k, k + 1)` with `k >= 0`, scaled by `w > 0`. */
  lemma ScaleBelow(k: real, q: real, w: real)
    requires 0.0 < w && 0.0 <= k <= q < k + 1.0
    ensures 0.0 <= k * w <= q * w < k * w + w
  {
    assert (k + 1.0) * w == k * w + w;
    assert q * w < (k + 1.0) * w;
  }

  /** `q` in `(k - 1, k]` with `k <= 0`, scaled by `w > 0`. */
  lemma ScaleAbove(k: real, q: real, w: real)
    requires 0.0 < w && q <= k <= 0.0 && k < q + 1.0
    ensures k * w - w < q * w <= k * w <= 0.0
  {
    assert (q + 1.0) * w == q * w + w;
    assert k * w < (q + 1.0) * w;
  }

  lemma MulMono(x: real, y: real, c: real)
    requires x <= y && 0.0 < c
    ensures x * c <= y * c
  {
  }

  lemma MulMonoStrict(x: real, y: real, c: real)
    requires x < y && 0.0 < c
    ensures x * c < y * c
  {
  }

  /** Binning a bin gives the same bin. */
  lemma BinIdempotent(p: real, binSize: real)
    requires binSize != 0.0
    ensures BinPressure(BinPressure(p, binSize), binSize) == BinPressure(p, binSize)
  {
    BinIsMultiple(p, binSize);
    var k := Trunc(p / binSize);
    assert Trunc(k as real) == k;
  }

  /** A larger pressure never falls in a lower bin. */
  lemma BinMonotone(p: real, q: real, binSize: real)
    requires binSize != 0.0 && p <= q
    ensures BinPressure(p, binSize) <= BinPressure(q, binSize)
  {
    var kp, kq := Trunc(p / binSize), Trunc(q / binSize);
    if 0.0 < binSize {
      MulMono(p, q, 1.0 / binSize);
      assert p / binSize <= q / binSize;
      assert kp <= kq;
      MulMono(kp as real, kq as real, binSize);
    } else {
      MulMono(p, q, 1.0 / -binSize);
      assert q / binSize <= p / binSize;
      assert kq <= kp;
      MulMono(kq as real, kp as real, -binSize);
    }
  }

  /**
   For a positive bin size, a non-negative pressure has bin `k * binSize`
   exactly when it lies in the half-open interval `[k * binSize, (k + 1) * binSize)`.
   */
  lemma BinInterval(p: real, binSize: real, k: int)
    requires 0.0 < binSize && 0.0 <= p
    ensures BinPressure(p, binSize) == k as real * binSize <==>
              k as real * binSize <= p < (k + 1) as real * binSize
  {
    var q := p / binSize;
    assert p == q * binSize;
    if k as real * binSize <= p < (k + 1) as real * binSize {
      var kr := k as real;
      assert (k + 1) as real == kr + 1.0;
      assert kr <= q by {
        if q < kr {
          MulMonoStrict(q, kr, binSize);
        }
      }
      assert q < kr + 1.0 by {
        if kr + 1.0 <= q {
          MulMono(kr + 1.0, q, binSize);
        }
      }
      assert Trunc(q) == k;
    }
    if BinPressure(p, binSize) == k as real * binSize {
      assert Trunc(q) as real * binSize == k as real * binSize;
      assert Trunc(q) == k by {
        if Trunc(q) < k { MulMonoStrict(Trunc(q) as real, k as real, binSize); }
        if Trunc(q) > k { MulMonoStrict(k as real, Trunc(q) as real, binSize); }
      }
      BinBounds(p, binSize);
      assert (k + 1) as real * binSize == k as real * binSize + binSize;
    }
  }
}
