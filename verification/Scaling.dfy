// The arithmetic between human values and raw integers, over the reals:
// parser.py, scaled_to_raw and the scaled branch of parse_record.

module Scaling {

  // math.floor(x + 0.5), the rounding of Java's Math.round.
  function Round(x: real): int {
    (x + 0.5).Floor
  }

  function ScaledToRaw(value: real, scale: real): int
    requires scale != 0.0
  {
    Round(value / scale)
  }

  // A scaled record is reported with two decimals.
  function Scaled(raw: int, scale: real): real {
    Round(raw as real * scale * 100.0) as real / 100.0
  }

  lemma RoundBounds(x: real)
    ensures x - 0.5 < Round(x) as real <= x + 0.5
  {
  }

  // Rounding absorbs any floating point error of less than half a step, and
  // half a step down, but nothing else.
  lemma RoundingAbsorbs(k: int, error: real)
    ensures Round(k as real + error) == k <==> -0.5 <= error < 0.5
  {
    RoundBounds(k as real + error);
  }

  lemma Monotone(a: real, b: real, s: real)
    requires s > 0.0
    ensures a <= b <==> a * s <= b * s
  {
    if a <= b {
      assert (b - a) * s >= 0.0;
    } else {
      assert (a - b) * s > 0.0;
    }
  }

  lemma DivideBounds(x: real, s: real, c: real)
    requires s > 0.0
    ensures c * s <= x <==> c <= x / s
    ensures x <= c * s <==> x / s <= c
  {
    assert x / s * s == x;
    Monotone(c, x / s, s);
    Monotone(x / s, c, s);
  }

  // A value within half a step of k is encoded as k.
  lemma EncodesNearby(shown: real, k: int, s: real)
    requires s > 0.0
    requires k as real * s - 0.5 * s <= shown < k as real * s + 0.5 * s
    ensures ScaledToRaw(shown, s) == k
  {
    HalfSteps(k as real, s);
    DivideBounds(shown, s, k as real - 0.5);
    DivideBounds(shown, s, k as real + 0.5);
  }

  lemma HalfSteps(k: real, s: real)
    ensures (k - 0.5) * s == k * s - 0.5 * s
    ensures (k + 0.5) * s == k * s + 0.5 * s
  {
  }

  function Size(s: real): real {
    if s < 0.0 then -s else s
  }

  // A value is encoded as the step it lies next to.
  lemma EncodesNext(x: real, k: int, s: real)
    requires s != 0.0 && -(Size(s) / 2.0) < x - k as real * s < Size(s) / 2.0
    ensures ScaledToRaw(x, s) == k
  {
    var q := x / s;
    assert q * s == x;
    if s > 0.0 {
      EncodesNearby(x, k, s);
    } else {
      HalfSteps(k as real, -s);
      assert q * -s == -x && k as real * -s == -(k as real * s);
      Between(k as real, q, -s, -x, -(k as real * s));
      RoundBounds(q);
    }
  }

  lemma Between(k: real, q: real, s: real, x: real, y: real)
    requires s > 0.0 && q * s == x && k * s == y && -(s / 2.0) < x - y < s / 2.0
    ensures k - 0.5 < q < k + 0.5
  {
    var above, below := (k + 0.5) * s, (k - 0.5) * s;
    HalfSteps(k, s);
    assert above == y + 0.5 * s && below == y - 0.5 * s;
    Monotone(k + 0.5, q, s);
    Monotone(q, k - 0.5, s);
  }

  // Reading back what a step encodes: at a scale of 0.01 or more, in either
  // direction, the two decimals lose nothing.
  lemma DecodeEncode(k: int, s: real)
    requires Size(s) >= 0.01
    ensures ScaledToRaw(Scaled(k, s), s) == k
  {
    var exact := k as real * s;
    RoundBounds(exact * 100.0);
    if s == 0.01 {
      assert exact * 100.0 == k as real;
    } else if s == -0.01 {
      assert exact * 100.0 == -k as real;
    }
    EncodesNext(Scaled(k, s), k, s);
  }

  // A displayed step is displayed alike after it has been written back, at every
  // scale: below 0.01 the step may change, but not what is shown.
  lemma DisplayIsStable(k: int, s: real)
    requires s != 0.0
    ensures Scaled(ScaledToRaw(Scaled(k, s), s), s) == Scaled(k, s)
  {
    if Size(s) >= 0.01 {
      DecodeEncode(k, s);
    } else {
      FineSteps(Round(k as real * s * 100.0), s);
    }
  }

  // A written value is at most half a step away.
  lemma HalfStepAway(x: real, s: real)
    requires s != 0.0
    ensures -(Size(s) / 2.0) <= ScaledToRaw(x, s) as real * s - x <= Size(s) / 2.0
  {
    RoundBounds(x / s);
    if s > 0.0 {
      HalfUp(ScaledToRaw(x, s) as real, x, s);
    } else {
      Turned(ScaledToRaw(x, s) as real, x, s);
      HalfUp(ScaledToRaw(x, s) as real, -x, -s);
    }
  }

  lemma Turned(r: real, x: real, s: real)
    requires s < 0.0
    ensures -x / -s == x / s && r * -s == -(r * s)
  {
    assert x / s * -s == -x;
  }

  lemma HalfUp(r: real, x: real, s: real)
    requires s > 0.0 && r - 0.5 <= x / s <= r + 0.5
    ensures -(s / 2.0) <= r * s - x <= s / 2.0
  {
    HalfSteps(r, s);
    DivideBounds(x, s, r - 0.5);
    DivideBounds(x, s, r + 0.5);
  }

  // Below 0.01, each hundredth is shown by the step written for it.
  lemma FineSteps(j: int, s: real)
    requires s != 0.0 && Size(s) < 0.01
    ensures Scaled(ScaledToRaw(j as real / 100.0, s), s) == j as real / 100.0
  {
    var shown := j as real / 100.0;
    HalfStepAway(shown, s);
    var y := ScaledToRaw(shown, s) as real * s;
    assert -(Size(s) / 2.0) <= y - shown <= Size(s) / 2.0;
    WellWithin(y - shown, Size(s));
    ShowsNearest(ScaledToRaw(shown, s), j, y, shown, s);
  }

  lemma WellWithin(away: real, size: real)
    requires -(size / 2.0) <= away <= size / 2.0 && size < 0.01
    ensures -0.005 < away < 0.005
  {
  }

  lemma ShowsNearest(raw: int, j: int, y: real, shown: real, s: real)
    requires y == raw as real * s && shown == j as real / 100.0 && -0.005 < y - shown < 0.005
    ensures Scaled(raw, s) == shown
  {
    NearestIs(j, y);
    assert y * 100.0 == raw as real * s * 100.0;
  }

  lemma NearestIs(j: int, y: real)
    requires -0.005 < y - j as real / 100.0 < 0.005
    ensures Round(y * 100.0) == j
  {
    RoundBounds(y * 100.0);
  }

  // A step outside a field of m values is never displayed like the step it
  // wraps around to, if it was written for a displayed value.
  lemma WrapShows(k: int, w: int, m: int, s: real)
    requires s != 0.0 && m >= 2
    requires var raw := ScaledToRaw(Scaled(k, s), s);
             (raw - w >= m || w - raw >= m) && -m <= 2 * w <= m && (raw == 0 ==> w == 0)
    ensures Scaled(w, s) != Scaled(k, s)
  {
    var raw := ScaledToRaw(Scaled(k, s), s);
    if Size(s) >= 0.01 {
      DecodeEncode(w, s);
    } else if Scaled(w, s) == Scaled(k, s) {
      HalfStepAway(Scaled(k, s), s);
      ShownNearby(w, s);
      var j := Round(w as real * s * 100.0);
      if s > 0.0 {
        WrapShowsZero(raw, w, m, j, s);
      } else {
        assert raw as real * s == (-raw) as real * -s && w as real * s == (-w) as real * -s;
        WrapShowsZero(-raw, -w, m, j, -s);
      }
    }
  }

  lemma ShownNearby(w: int, s: real)
    ensures -0.005 <= w as real * s - Scaled(w, s) <= 0.005
  {
    RoundBounds(w as real * s * 100.0);
  }

  lemma WrapShowsZero(raw: int, w: int, m: int, j: int, s: real)
    requires 0.0 < s < 0.01
    requires -(s / 2.0) <= raw as real * s - j as real / 100.0 <= s / 2.0
    requires -0.005 <= w as real * s - j as real / 100.0 <= 0.005
    requires (raw - w >= m || w - raw >= m) && -m <= 2 * w <= m
    ensures j == 0 && raw == 0
  {
    var r, u, d := Distance(raw, w, m, s);
    BothShowZero(r, u, d, j, s);
    Small(raw, j as real / 100.0, s);
  }

  lemma BothShowZero(r: real, w: real, m: real, j: int, s: real)
    requires 0.0 < s < 0.01 && -(s / 2.0) <= r - j as real / 100.0 <= s / 2.0
    requires (r - w >= m || w - r >= m) && m + 2.0 * w >= 0.0 && m - 2.0 * w >= 0.0
    requires -0.005 <= w - j as real / 100.0 <= 0.005
    ensures j == 0
  {
    assert -0.005 < w < 0.005;
  }

  // Multiples of s that are m steps apart, the smaller one within half of m.
  lemma Distance(raw: int, w: int, m: int, s: real) returns (r: real, u: real, d: real)
    requires s > 0.0 && (raw - w >= m || w - raw >= m) && -m <= 2 * w <= m
    ensures r == raw as real * s && u == w as real * s
    ensures (r - u >= d || u - r >= d) && d + 2.0 * u >= 0.0 && d - 2.0 * u >= 0.0
  {
    r, u, d := raw as real * s, w as real * s, m as real * s;
    if raw - w >= m {
      Sums(raw as real, w as real, m as real, s, r, u, d);
    } else {
      Sums(w as real, raw as real, m as real, s, u, r, d);
    }
    Sums(m as real, -(w as real), -(w as real), s, d, -u, -u);
    Sums(m as real, w as real, w as real, s, d, u, u);
  }

  // Products with s keep differences.
  lemma Sums(a: real, b: real, c: real, s: real, x: real, y: real, z: real)
    requires s > 0.0 && x == a * s && y == b * s && z == c * s
    ensures a - b >= c ==> x - y >= z
  {
    Monotone(c, a - b, s);
    assert (a - b) * s == x - y;
  }

  lemma Small(raw: int, x: real, s: real)
    requires s > 0.0 && x == 0.0 && -(s / 2.0) <= raw as real * s - x <= s / 2.0
    ensures raw == 0
  {
    Monotone(1.0, raw as real, s);
    Monotone(raw as real, -1.0, s);
  }

  // Writing any value moves it by at most half a step, plus the two decimals.
  lemma EncodeDecode(v: real, s: real)
    requires s != 0.0
    ensures var moved := Scaled(ScaledToRaw(v, s), s) - v;
            -(Size(s) / 2.0 + 0.005) <= moved <= Size(s) / 2.0 + 0.005
  {
    HalfStepAway(v, s);
    ShownNearby(ScaledToRaw(v, s), s);
  }

  // When the limits are whole steps, rounding never leaves the range.
  lemma RoundingStaysInRange(v: real, s: real, lo: int, hi: int)
    requires s > 0.0 && lo as real * s <= v <= hi as real * s
    ensures lo <= ScaledToRaw(v, s) <= hi
  {
    DivideBounds(v, s, lo as real);
    DivideBounds(v, s, hi as real);
    RoundBounds(v / s);
  }

  // Below 0.01 some step is lost, whatever the scale ...
  lemma {:induction false} ALostStep(s: real) returns (k: nat)
    requires 0.0 < s < 0.01
    ensures ScaledToRaw(Scaled(k, s), s) != k
  {
    // The first step whose drift k * gap from the two-decimal grid reaches
    // half of t, where t is the scale in units of the grid.
    var t := s * 100.0;
    var gap := 1.0 - t;
    var ratio := t / 2.0 / gap;
    k := -(-ratio).Floor;
    DivideBounds(t / 2.0, gap, k as real);
    DivideBounds(t / 2.0, gap, k as real - 1.0);
    assert (k as real - 1.0) * gap == k as real * gap - gap;
    StepIsLost(k, s);
  }

  // The drift makes the step come back as a neighbour.
  lemma StepIsLost(k: nat, s: real)
    requires 0.0 < s < 0.01
    requires var t, drift := s * 100.0, k as real * (1.0 - s * 100.0);
             t / 2.0 <= drift < 1.0 - t / 2.0
    ensures ScaledToRaw(Scaled(k, s), s) != k
  {
    var t := s * 100.0;
    var y := k as real * s * 100.0;
    assert y == k as real - k as real * (1.0 - t);
    var r := Round(y);
    RoundBounds(y);
    var shown := Scaled(k, s);
    assert shown == r as real / 100.0;
    assert k as real * s == y / 100.0;
    if r == k {
      assert shown - k as real * s >= 0.5 * s;
      assert (k as real + 0.5) * s == k as real * s + 0.5 * s;
      DivideBounds(shown, s, k as real + 0.5);
      assert shown / s >= k as real + 0.5;
    } else {
      assert r <= k - 1;
      assert shown - k as real * s < -0.5 * s;
      assert (k as real - 0.5) * s == k as real * s - 0.5 * s;
      DivideBounds(shown, s, k as real - 0.5);
      assert shown / s < k as real - 0.5;
    }
    RoundBounds(shown / s);
  }

  // ... so 0.01 is exactly the finest scale that survives.
  lemma FinestScale(s: real)
    requires s > 0.0
    ensures (forall k: int :: ScaledToRaw(Scaled(k, s), s) == k) <==> s >= 0.01
  {
    if s >= 0.01 {
      forall k: int
        ensures ScaledToRaw(Scaled(k, s), s) == k
      {
        DecodeEncode(k, s);
      }
    } else {
      var k := ALostStep(s);
    }
  }
}
