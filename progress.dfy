/**
 * The progress step of `generate_report`: `100 // len(lines) // len(selected)`,
 * Python's floor division on non-negative numbers.  After every fetch the
 * raw progress counter grows by this step plus one.
 */
module Progress {
  import opened Wrappers

  /** `PERCENTAGE`: `100 // lines // selected`; `None` where Python raises `ZeroDivisionError`. */
  function Percentage(lines: nat, selected: nat): (step: Option<nat>)
    ensures step.None? <==> lines == 0 || selected == 0
  {
    if lines == 0 || selected == 0 then None
    else Some(100 / lines / selected)
  }

  /** The step is the largest share of 100 that every fetch of a full run can take. */
  lemma PercentageBounds(lines: nat, selected: nat)
    requires lines > 0 && selected > 0
    ensures Percentage(lines, selected).value * (lines * selected) <= 100
    ensures 100 < (Percentage(lines, selected).value + 1) * (lines * selected)
  {
    FloorDivTwice(100, lines, selected, Percentage(lines, selected).value);
  }

  /** Dividing by `b` and then by `c` is dividing by `b * c`. */
  lemma FloorDivTwice(a: nat, b: nat, c: nat, p: nat)
    requires b > 0 && c > 0 && p == a / b / c
    ensures p * (b * c) <= a < (p + 1) * (b * c)
  {
    var q := a / b;
    assert q * b <= a < (q + 1) * b;
    assert p * c <= q < (p + 1) * c;
    calc {
      p * (b * c);
    ==  { MulAssoc(p, c, b); }
      (p * c) * b;
    <=  { MulMono(p * c, q, b); }
      q * b;
    }
    calc {
      (q + 1) * b;
    <=  { MulMono(q + 1, (p + 1) * c, b); }
      ((p + 1) * c) * b;
    ==  { MulAssoc(p + 1, c, b); }
      (p + 1) * (b * c);
    }
  }

  lemma MulAssoc(x: int, y: int, z: int)
    ensures (x * y) * z == x * (z * y)
  {
  }

  lemma MulMono(x: int, y: int, z: nat)
    requires x <= y
    ensures x * z <= y * z
  {
  }

  /**
   * With one fetch per line and provider, the counter overshoots 100: the
   * step plus one, taken `lines * selected` times, is more than 100.
   */
  lemma Overshoot(lines: nat, selected: nat)
    requires lines > 0 && selected > 0
    ensures (Percentage(lines, selected).value + 1) * (lines * selected) > 100
  {
    PercentageBounds(lines, selected);
  }

  /** The bar after `calls` runs of `update_progress` from `start`, each adding the step plus one. */
  function Bar(start: int, calls: nat, step: int): int {
    if calls == 0 then start else Bar(start, calls - 1, step) + step + 1
  }

  /** The bar grows linearly in the number of calls. */
  lemma {:induction false} BarLinear(start: int, calls: nat, step: int)
    ensures Bar(start, calls, step) == start + calls * (step + 1)
  {
    if calls > 0 {
      BarLinear(start, calls - 1, step);
      assert calls * (step + 1) == (calls - 1) * (step + 1) + step + 1;
    }
  }

  /** Calls made in two groups move the bar as far as all of them at once. */
  lemma {:induction false} BarAppend(start: int, a: nat, b: nat, step: int)
    ensures Bar(start, a + b, step) == Bar(Bar(start, a, step), b, step)
  {
    if b > 0 {
      BarAppend(start, a, b - 1, step);
    }
  }

  /** Every call moves the bar forward: with a step that is not negative, more calls mean a higher bar. */
  lemma BarIncreases(start: int, a: nat, b: nat, step: int)
    requires step >= 0 && a < b
    ensures Bar(start, a, step) < Bar(start, b, step)
  {
    BarLinear(start, a, step);
    BarLinear(start, b, step);
    MulMono(a, b - 1, step + 1);
  }
}
