/** The simulated sine-wave dashboard (`StreamExample.py`).

    A producer appends one `(time, value)` point per tick to the parallel
    lists `x_data` and `y_data`, then pops points off the front while the
    oldest time is below `current_time - duration`; the chart callback plots
    each stored time relative to "now". Times are whole milliseconds; the
    sine values are opaque, of type `V`. */
module StreamExample {

  /** `duration`: how much history is kept, 10 s. */
  const Duration: int := 10000

  predicate Sorted(xs: seq<int>)
  {
    forall i, j :: 0 <= i < j < |xs| ==> xs[i] <= xs[j]
  }

  /** How many points the trimming loop pops: the length of the run of
      leading times strictly below `cutoff`. */
  function ExpiredCount(xs: seq<int>, cutoff: int): (k: nat)
    ensures k <= |xs|
    ensures forall i :: 0 <= i < k ==> xs[i] < cutoff
    ensures k < |xs| ==> xs[k] >= cutoff
  {
    if xs == [] || xs[0] >= cutoff then 0 else 1 + ExpiredCount(xs[1..], cutoff)
  }

  /** The times at or after `cutoff`, in their order: what a time window
      should hold. */
  function AtOrAfter(xs: seq<int>, cutoff: int): (r: seq<int>)
    ensures |r| <= |xs|
    ensures forall i :: 0 <= i < |r| ==> r[i] >= cutoff
    ensures forall x :: x in r <==> x in xs && x >= cutoff
  {
    if xs == [] then []
    else if xs[0] >= cutoff then [xs[0]] + AtOrAfter(xs[1..], cutoff)
    else AtOrAfter(xs[1..], cutoff)
  }

  /** Filtering a concatenation filters each part and keeps them in order,
      so the window keeps the arrival order of its points. */
  lemma {:induction false} AtOrAfterAppend(a: seq<int>, b: seq<int>, cutoff: int)
    ensures AtOrAfter(a + b, cutoff) == AtOrAfter(a, cutoff) + AtOrAfter(b, cutoff)
  {
    if a != [] {
      assert (a + b)[1..] == a[1..] + b;
      AtOrAfterAppend(a[1..], b, cutoff);
    } else {
      assert a + b == b;
    }
  }

  /** The point appended in a step is never trimmed in the same step: its
      time is the step's own time, which is above the cutoff. */
  lemma NewestSurvives(xs: seq<int>, t: int)
    ensures ExpiredCount(xs + [t], t - Duration) <= |xs|
  {
    var s := xs + [t];
    assert s[|xs|] == t;
  }

  /** With a clock that does not run backwards, a step keeps the times in
      ascending order and every kept time inside `[t - duration, t]`. */
  lemma StepKeepsWindow(xs: seq<int>, t: int)
    requires Sorted(xs) && forall i :: 0 <= i < |xs| ==> xs[i] <= t
    ensures var s := xs + [t];
            var kept := s[ExpiredCount(s, t - Duration)..];
            Sorted(kept) && forall i :: 0 <= i < |kept| ==> t - Duration <= kept[i] <= t
  {
    var s := xs + [t];
    var k := ExpiredCount(s, t - Duration);
    assert Sorted(s);
    NewestSurvives(xs, t);
    forall i | k <= i < |s| ensures t - Duration <= s[i] <= t {
      assert s[k] <= s[i];
    }
  }

  /** On times in ascending order, trimming the expired prefix leaves exactly
      the points inside the window. */
  lemma {:induction false} TrimIsWindowWhenSorted(xs: seq<int>, cutoff: int)
    requires Sorted(xs)
    ensures xs[ExpiredCount(xs, cutoff)..] == AtOrAfter(xs, cutoff)
  {
    if xs != [] {
      assert Sorted(xs[1..]);
      TrimIsWindowWhenSorted(xs[1..], cutoff);
      if xs[0] >= cutoff {
        assert AtOrAfter(xs[1..], cutoff) == xs[1..] by {
          assert ExpiredCount(xs[1..], cutoff) == 0;
        }
      }
    }
  }

  /** Without ascending times the trim is only a prefix trim: an expired
      point behind a newer one stays. */
  lemma TrimStopsAtFirstFresh()
    ensures var xs := [0, 20000, 5000];
            xs[ExpiredCount(xs, 10000)..] == [20000, 5000] && AtOrAfter(xs, 10000) == [20000]
  {
    var xs := [0, 20000, 5000];
    assert ExpiredCount(xs[1..], 10000) == 0;
    assert AtOrAfter(xs[2..], 10000) == [];
  }

  /** `[t - current_time for t in x_data]`: each stored time as an offset
      from the moment the chart is drawn. */
  function RelativeTimes(xs: seq<int>, now: int): (rel: seq<int>)
    ensures |rel| == |xs|
    ensures forall i :: 0 <= i < |xs| ==> rel[i] + now == xs[i]
  {
    seq(|xs|, i requires 0 <= i < |xs| => xs[i] - now)
  }

  /** Shifting by "now" keeps the order of the points, in both directions. */
  lemma RelativeTimesOrder(xs: seq<int>, now: int)
    ensures Sorted(RelativeTimes(xs, now)) <==> Sorted(xs)
  {
    var rel := RelativeTimes(xs, now);
    if Sorted(xs) {
      forall i, j | 0 <= i < j < |rel| ensures rel[i] <= rel[j] {
        assert xs[i] <= xs[j];
      }
    }
    if Sorted(rel) {
      forall i, j | 0 <= i < j < |xs| ensures xs[i] <= xs[j] {
        assert rel[i] <= rel[j];
      }
    }
  }

  /** The plotted offsets lie on the chart's x-axis `[-duration, 0]` exactly
      when every stored time lies in `[now - duration, now]`. */
  lemma RelativeTimesOnAxis(xs: seq<int>, now: int)
    ensures (forall i :: 0 <= i < |xs| ==> -Duration <= RelativeTimes(xs, now)[i] <= 0)
        <==> (forall i :: 0 <= i < |xs| ==> now - Duration <= xs[i] <= now)
  {
    var rel := RelativeTimes(xs, now);
    assert forall i :: 0 <= i < |xs| ==> rel[i] == xs[i] - now;
  }

  /** The figure's scatter trace: x and y lists of the same plot. */
  datatype Trace<V> = Trace(x: seq<int>, y: seq<V>)

  /** The producer's state: the module-level lists `x_data` and `y_data`. */
  class SineStream<V> {
    var xData: seq<int>
    var yData: seq<V>

    /** The two lists move in lockstep. */
    ghost predicate Valid()
      reads this
    {
      |xData| == |yData|
    }

    constructor ()
      ensures Valid() && xData == [] && yData == []
    {
      xData := [];
      yData := [];
    }

    /** One pass of the body of `generate_data`'s `while True` loop, with the
        clock reading and the sine value given. */
    method GenerateStep(currentTime: int, yValue: V)
      requires Valid()
      modifies this
      ensures Valid()
      ensures var k := ExpiredCount(old(xData) + [currentTime], currentTime - Duration);
              xData == (old(xData) + [currentTime])[k..] && yData == (old(yData) + [yValue])[k..]
      ensures |xData| > 0 && xData[|xData| - 1] == currentTime && yData[|yData| - 1] == yValue
      ensures xData[0] >= currentTime - Duration
      ensures Sorted(old(xData)) && (forall i :: 0 <= i < |old(xData)| ==> old(xData)[i] <= currentTime)
              ==> Sorted(xData) && forall i :: 0 <= i < |xData| ==> currentTime - Duration <= xData[i] <= currentTime
    {
      xData := xData + [currentTime];
      yData := yData + [yValue];
      ghost var xs, ys := xData, yData;
      var cutoff := currentTime - Duration;
      ghost var k := ExpiredCount(xs, cutoff);
      NewestSurvives(old(xData), currentTime);
      ghost var popped := 0;
      while |xData| > 0 && xData[0] < cutoff
        invariant popped <= k
        invariant xData == xs[popped..] && yData == ys[popped..]
        decreases |xData|
      {
        xData := xData[1..];
        yData := yData[1..];
        popped := popped + 1;
      }
      assert popped == k;
      if Sorted(old(xData)) && (forall i :: 0 <= i < |old(xData)| ==> old(xData)[i] <= currentTime) {
        StepKeepsWindow(old(xData), currentTime);
      }
    }

    /** `update_graph`: the trace drawn at time `now`, times relative to it,
        values passed through. */
    function Figure(now: int): (tr: Trace<V>)
      reads this
      requires Valid()
      ensures |tr.x| == |tr.y| == |xData|
      ensures tr.y == yData
      ensures forall i :: 0 <= i < |xData| ==> tr.x[i] + now == xData[i]
    {
      Trace(RelativeTimes(xData, now), yData)
    }
  }

  /** Points at 0, 3, 6, 9 and 12 s: at the 12 s step the point at 0 s has
      left the window and the chart shows the rest at -9, -6, -3 and 0 s. */
  lemma WindowScenario()
    ensures var xs := [0, 3000, 6000, 9000, 12000];
            var kept := xs[ExpiredCount(xs, 12000 - Duration)..];
            kept == [3000, 6000, 9000, 12000] && RelativeTimes(kept, 12000) == [-9000, -6000, -3000, 0]
  {
    var xs := [0, 3000, 6000, 9000, 12000];
    assert ExpiredCount(xs[1..], 2000) == 0;
    assert xs[1..] == [3000, 6000, 9000, 12000];
  }
}
