/**
  The 20-cell percentage bar drawn in the volume and the brightness
  notifications: `filled = int(p / 100 * 20)` full cells, then empty cells up
  to 20. Python's `int()` truncates toward zero and `"█" * n` is empty for
  n <= 0, so the bar is exactly 20 cells only for percentages in [0, 100].
*/
module Bars {
  import opened Text

  const Width := 20
  const Full := '█'   // █
  const Empty := '░'  // ░

  /** `int(p / 100 * 20)`, over the integers: a fifth of `p`, truncated toward zero. */
  function Filled(p: int): int {
    if p >= 0 then p * Width / 100 else -((-p) * Width / 100)
  }

  /** `"█" * filled + "░" * (20 - filled)`. */
  function Bar(p: int): string {
    Repeat(Full, Filled(p)) + Repeat(Empty, Width - Filled(p))
  }

  /** Within [0, 100] the filled part is within [0, 20]; it is 0 at 0 and 20 at 100. */
  lemma FilledRange(p: int)
    requires 0 <= p <= 100
    ensures 0 <= Filled(p) <= Width
    ensures Filled(p) == 0 <==> p < 5
    ensures Filled(p) == Width <==> p == 100
  {
    assert Filled(p) == p / 5;
  }

  /** More percent never fills fewer cells. */
  lemma FilledMonotone(p: int, q: int)
    requires p <= q
    ensures Filled(p) <= Filled(q)
  {
    if 0 <= p {
      assert Filled(p) == p / 5 && Filled(q) == q / 5;
      DivMonotone(p, q);
    } else if 0 <= q {
      assert Filled(p) <= 0 <= Filled(q);
    } else {
      assert Filled(p) == -((-p) / 5) && Filled(q) == -((-q) / 5);
      DivMonotone(-q, -p);
    }
  }

  lemma DivMonotone(a: nat, b: nat)
    requires a <= b
    ensures a / 5 <= b / 5
  {
  }

  /**
    For a percentage in [0, 100] the bar has exactly 20 cells: full cells up to
    `Filled(p)`, empty cells after.
  */
  lemma BarShape(p: int)
    requires 0 <= p <= 100
    ensures |Bar(p)| == Width
    ensures forall k :: 0 <= k < Width ==> (Bar(p)[k] == Full <==> k < Filled(p))
    ensures forall k :: 0 <= k < Width ==> (Bar(p)[k] == Empty <==> Filled(p) <= k)
  {
    FilledRange(p);
    var b := Bar(p);
    var f := Filled(p);
    forall k | 0 <= k < Width
      ensures (b[k] == Full <==> k < f) && (b[k] == Empty <==> f <= k)
    {
      if k < f {
        assert b[k] == Repeat(Full, f)[k];
      } else {
        assert b[k] == Repeat(Empty, Width - f)[k - f];
      }
    }
  }

  /** Past 100 percent the empty part vanishes; from 105 on the bar grows beyond 20 cells. */
  lemma BarPastFull(p: int)
    requires p > 100
    ensures |Bar(p)| == Filled(p) >= Width
    ensures p >= 105 ==> |Bar(p)| > Width
    ensures forall k :: 0 <= k < |Bar(p)| ==> Bar(p)[k] == Full
  {
    assert Filled(p) == p / 5;
    DivMonotone(100, p);
    if p >= 105 {
      DivMonotone(105, p);
    }
    assert Bar(p) == Repeat(Full, Filled(p)) + "";
  }

  /** Below 0 the full part vanishes: only empty cells, more than 20 of them from -5 down. */
  lemma BarBelowZero(p: int)
    requires p < 0
    ensures Filled(p) <= 0
    ensures |Bar(p)| == Width - Filled(p)
    ensures p <= -5 ==> |Bar(p)| > Width
    ensures forall k :: 0 <= k < |Bar(p)| ==> Bar(p)[k] == Empty
  {
    assert Filled(p) == -((-p) / 5);
    if p <= -5 {
      DivMonotone(5, -p);
    }
    assert Bar(p) == "" + Repeat(Empty, Width - Filled(p));
  }
}
