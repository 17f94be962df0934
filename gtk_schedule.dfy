/**
 * The GTK animation schedules: the opacity and slide offset a timer step
 * applies. An opacity `(double)n / d` is kept as the exact ratio of its two
 * integers; `Value` is the real number it stands for.
 */
module GtkSchedule {
  import CInt

  /** The opacity `n / d` of a `gtk_widget_set_opacity` call. */
  datatype Ratio = Ratio(num: int, den: int) {
    function Value(): real
      requires den != 0
    {
      num as real / den as real
    }
  }

  /** The final `gtk_widget_set_opacity(..., 1.0)` of the fade-in. */
  const FULL: Ratio := Ratio(1, 1)

  /** Fade-in opacity at a step: `(double)current_step / total_steps`. */
  function FadeInOpacity(step: int, total: int): (o: Ratio)
    requires total > 0 && 0 <= step <= total
    ensures o.den == total && 0 <= o.num <= o.den
  {
    Ratio(step, total)
  }

  /** Exit opacity at a step: `(double)(total_steps - current_step) / total_steps`. */
  function FadeOutOpacity(step: int, total: int): (o: Ratio)
    requires total > 0 && 0 <= step <= total
    ensures o.den == total && 0 <= o.num <= o.den
    ensures o.num + FadeInOpacity(step, total).num == total
  {
    Ratio(total - step, total)
  }

  lemma RealCancel(x: real, y: real, t: real)
    requires t > 0.0 && x * t == y * t
    ensures x == y
  {
    assert (x - y) * t == x * t - y * t;
  }

  /** A step ratio lies in [0, 1], is 0 exactly at its start and 1 exactly at its end. */
  lemma FadeInOpacityRange(step: int, total: int)
    requires total > 0 && 0 <= step <= total
    ensures 0.0 <= FadeInOpacity(step, total).Value() <= 1.0
    ensures step == 0 <==> FadeInOpacity(step, total).Value() == 0.0
    ensures step == total <==> FadeInOpacity(step, total).Value() == 1.0
  {
    var t, v := total as real, FadeInOpacity(step, total).Value();
    assert v * t == step as real;
    if v == 1.0 {
      assert 1.0 * t == step as real;
    }
  }

  /** The exit opacity is the fade-in opacity's complement: full at step 0, none at the last step. */
  lemma FadeOutOpacityRange(step: int, total: int)
    requires total > 0 && 0 <= step <= total
    ensures FadeOutOpacity(step, total).Value() == 1.0 - FadeInOpacity(step, total).Value()
    ensures 0.0 <= FadeOutOpacity(step, total).Value() <= 1.0
    ensures step == 0 <==> FadeOutOpacity(step, total).Value() == 1.0
    ensures step == total <==> FadeOutOpacity(step, total).Value() == 0.0
  {
    var t := total as real;
    var a, b := FadeOutOpacity(step, total).Value(), FadeInOpacity(step, total).Value();
    assert a * t == (total - step) as real && b * t == step as real;
    assert (a + b) * t == a * t + b * t;
    RealCancel(a + b, 1.0, t);
    FadeInOpacityRange(step, total);
  }

  /** The fade-in never dims: a later step is at least as opaque. */
  lemma FadeInNonDecreasing(i: int, j: int, total: int)
    requires total > 0 && 0 <= i <= j <= total
    ensures FadeInOpacity(i, total).Value() <= FadeInOpacity(j, total).Value()
  {
    var t := total as real;
    var a, b := FadeInOpacity(i, total).Value(), FadeInOpacity(j, total).Value();
    assert b - a == (j - i) as real / t;
  }

  /** The exit fade never brightens: a later step is at most as opaque. */
  lemma FadeOutNonIncreasing(i: int, j: int, total: int)
    requires total > 0 && 0 <= i <= j <= total
    ensures FadeOutOpacity(j, total).Value() <= FadeOutOpacity(i, total).Value()
  {
    FadeInNonDecreasing(i, j, total);
    FadeOutOpacityRange(i, total);
    FadeOutOpacityRange(j, total);
  }

  /** The slide offset at a step: `(move_distance * current_step) / total_steps`, in C division. */
  function YOffset(distance: int, step: int, total: int): (d: int)
    requires distance >= 0 && total > 0 && 0 <= step <= total
    ensures 0 <= d <= distance
    ensures step == 0 ==> d == 0
    ensures step == total ==> d == distance
  {
    OffsetBounds(distance, step, total);
    CInt.Div(distance * step, total)
  }

  lemma OffsetBounds(distance: int, step: int, total: int)
    requires distance >= 0 && total > 0 && 0 <= step <= total
    ensures 0 <= CInt.Div(distance * step, total) <= distance
    ensures step == total ==> CInt.Div(distance * step, total) == distance
  {
    CInt.MulLeq(step, total, distance);
    assert step * distance == distance * step && total * distance == distance * total;
    CInt.DivMonotone(distance * step, distance * total, total);
    CInt.DivExact(distance, total);
    CInt.DivMonotone(0, distance * step, total);
  }

  /** The slide offset grows with the step. */
  lemma YOffsetMonotone(distance: int, i: int, j: int, total: int)
    requires distance >= 0 && total > 0 && 0 <= i <= j <= total
    ensures YOffset(distance, i, total) <= YOffset(distance, j, total)
  {
    CInt.MulLeq(i, j, distance);
    assert distance * i == i * distance && distance * j == j * distance;
    CInt.DivMonotone(distance * i, distance * j, total);
  }
}
