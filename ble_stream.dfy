/** The BLE dashboard (`BLEStream.py`).

    Every GATT notification's payload is read as an unsigned little-endian
    integer and appended to the module-level list `data_points`; once the
    list holds more than `duration * (1000 / graph_update_interval)` points
    its oldest one is popped. The chart places the i-th point at
    `i * 0.5 s - duration`. Times are whole milliseconds. */
module BleStream {
  import opened Bytes

  /** `duration`, 10 s. */
  const Duration: int := 10000
  /** `graph_update_interval`, 500 ms. */
  const GraphUpdateInterval: int := 500
  /** `duration * (1000 / graph_update_interval)`: 10 * 2 = 20 points. */
  const MaxPoints: nat := Duration / GraphUpdateInterval

  // ---- int.from_bytes(data, byteorder='little') ----

  /** Unsigned little-endian value of a payload: the first byte is the least
      significant. */
  function FromBytesLittle(data: seq<Byte>): (v: nat)
    ensures v < Pow256(|data|)
  {
    if data == [] then 0 else data[0] + 256 * FromBytesLittle(data[1..])
  }

  /** The reference definition: the sum of `data[i] * 256^i`. */
  function WeightedSum(data: seq<Byte>): int
  {
    if data == [] then 0
    else WeightedSum(data[..|data| - 1]) + data[|data| - 1] * Pow256(|data| - 1)
  }

  lemma {:induction false} WeightedSumHead(data: seq<Byte>)
    requires |data| > 0
    ensures WeightedSum(data) == data[0] + 256 * WeightedSum(data[1..])
  {
    var n := |data|;
    if n > 1 {
      WeightedSumHead(data[..n - 1]);
      assert data[..n - 1][1..] == data[1..][..n - 2];
      assert data[..n - 1][0] == data[0];
      var last := data[n - 1];
      assert 256 * (last * Pow256(n - 2)) == last * Pow256(n - 1);
    }
  }

  /** `int.from_bytes` in little-endian order is the weighted byte sum; the
      empty payload decodes to 0. */
  lemma {:induction false} FromBytesIsWeightedSum(data: seq<Byte>)
    ensures FromBytesLittle(data) == WeightedSum(data)
  {
    if data != [] {
      FromBytesIsWeightedSum(data[1..]);
      WeightedSumHead(data);
    }
  }

  /** The inverse of `FromBytesLittle`, used only for the round-trip lemmas:
      the low `n` bytes of `v`, least significant first. For a value that
      fits it is `v.to_bytes(n, 'little')`. */
  function ToBytesLittle(v: nat, n: nat): (bs: seq<Byte>)
    ensures |bs| == n
  {
    if n == 0 then [] else [v % 256] + ToBytesLittle(v / 256, n - 1)
  }

  /** Encoding a value that fits and decoding it gives the value back. */
  lemma {:induction false} DecodeEncode(v: nat, n: nat)
    requires v < Pow256(n)
    ensures FromBytesLittle(ToBytesLittle(v, n)) == v
  {
    if n > 0 {
      DecodeEncode(v / 256, n - 1);
      assert ToBytesLittle(v, n)[1..] == ToBytesLittle(v / 256, n - 1);
    }
  }

  /** Decoding a payload and encoding the value in as many bytes gives the
      payload back: no two payloads of one length decode alike. */
  lemma {:induction false} EncodeDecode(data: seq<Byte>)
    ensures ToBytesLittle(FromBytesLittle(data), |data|) == data
  {
    if data != [] {
      EncodeDecode(data[1..]);
      var v := FromBytesLittle(data);
      assert v % 256 == data[0] && v / 256 == FromBytesLittle(data[1..]);
    }
  }

  // ---- the count-bounded list ----

  /** `data_points` after appending `value` and popping the oldest point if
      the list is then over capacity. */
  function Notified(points: seq<nat>, value: nat): (r: seq<nat>)
    ensures |points| <= |r| <= |points| + 1 && 0 < |r|
    ensures r == (points + [value])[|points| + 1 - |r|..]
    ensures r[|r| - 1] == value
    ensures |points| < MaxPoints ==> r == points + [value]
    ensures |points| >= MaxPoints ==> r == (points + [value])[1..]
    ensures |points| <= MaxPoints ==> |r| <= MaxPoints
  {
    var appended := points + [value];
    if |appended| > MaxPoints then appended[1..] else appended
  }

  /** The last `n` elements of `s` (all of them when there are fewer). */
  function LastN<T>(s: seq<T>, n: nat): (r: seq<T>)
    ensures |r| <= n && |r| <= |s|
  {
    if |s| <= n then s else s[|s| - n..]
  }

  function DecodeAll(payloads: seq<seq<Byte>>): (vs: seq<nat>)
    ensures |vs| == |payloads|
    ensures forall i :: 0 <= i < |payloads| ==> vs[i] == FromBytesLittle(payloads[i])
  {
    seq(|payloads|, i requires 0 <= i < |payloads| => FromBytesLittle(payloads[i]))
  }

  /** `data_points` after the handler has run on each payload in turn,
      starting from the empty list. */
  function Received(payloads: seq<seq<Byte>>): (r: seq<nat>)
    ensures |r| <= MaxPoints
    ensures payloads != [] ==> |r| > 0 && r[|r| - 1] == FromBytesLittle(payloads[|payloads| - 1])
  {
    if payloads == [] then []
    else Notified(Received(payloads[..|payloads| - 1]), FromBytesLittle(payloads[|payloads| - 1]))
  }

  lemma DecodeAllSnoc(payloads: seq<seq<Byte>>)
    requires payloads != []
    ensures DecodeAll(payloads)
            == DecodeAll(payloads[..|payloads| - 1]) + [FromBytesLittle(payloads[|payloads| - 1])]
  {
  }

  lemma ReceivedSnoc(payloads: seq<seq<Byte>>)
    requires payloads != []
    ensures Received(payloads)
            == Notified(Received(payloads[..|payloads| - 1]), FromBytesLittle(payloads[|payloads| - 1]))
  {
  }

  /** Notifying a window of the most recent values gives the window of the
      most recent values with the new one. */
  lemma NotifiedSlides(s: seq<nat>, v: nat)
    ensures Notified(LastN(s, MaxPoints), v) == LastN(s + [v], MaxPoints)
  {
    if |s| >= MaxPoints {
      var t := s + [v];
      var k := |s| - MaxPoints;
      assert LastN(s, MaxPoints) + [v] == t[k..];
      assert t[k..][1..] == t[k + 1..];
    }
  }

  /** From an empty start the list always holds the values of the most recent
      `MaxPoints` notifications, in arrival order: never more than 20, and
      the older ones are gone whatever their age. */
  lemma {:induction false} ReceivedIsMostRecent(payloads: seq<seq<Byte>>)
    ensures Received(payloads) == LastN(DecodeAll(payloads), MaxPoints)
  {
    if payloads != [] {
      var n := |payloads|;
      var init := payloads[..n - 1];
      var v := FromBytesLittle(payloads[n - 1]);
      var vs := DecodeAll(init);
      var before := Received(init);
      ReceivedSnoc(payloads);
      ReceivedIsMostRecent(init);
      assert before == LastN(vs, MaxPoints);
      NotifiedSlides(vs, v);
      assert Received(payloads) == LastN(vs + [v], MaxPoints);
      DecodeAllSnoc(payloads);
    }
  }

  // ---- the chart ----

  /** `np.arange(len(data_points)) * (graph_update_interval / 1000) - duration`,
      in milliseconds. */
  function XPositions(n: nat): (xs: seq<int>)
    ensures |xs| == n
    ensures n > 0 ==> xs[0] == -Duration
  {
    seq(n, i requires 0 <= i < n => i * GraphUpdateInterval - Duration)
  }

  /** Positions are strictly increasing, half a second apart. */
  lemma XPositionsIncreasing(n: nat)
    ensures forall i, j :: 0 <= i < j < n ==> XPositions(n)[i] < XPositions(n)[j]
    ensures forall i :: 0 < i < n ==> XPositions(n)[i] - XPositions(n)[i - 1] == GraphUpdateInterval
  {
  }

  /** Every position lies on the x-axis `[-duration, 0]`, strictly left of
      0, exactly when the list holds at most 20 points. */
  lemma XPositionsOnAxis(n: nat)
    ensures (forall i :: 0 <= i < n ==> -Duration <= XPositions(n)[i] < 0) <==> n <= MaxPoints
  {
    if n > MaxPoints {
      assert XPositions(n)[MaxPoints] == 0;
    }
  }

  datatype Trace = Trace(x: seq<int>, y: seq<nat>)

  /** The handler's state: the module-level list `data_points`. */
  class NotificationBuffer {
    var dataPoints: seq<nat>

    ghost predicate Valid()
      reads this
    {
      |dataPoints| <= MaxPoints
    }

    constructor ()
      ensures Valid() && dataPoints == []
    {
      dataPoints := [];
    }

    /** `notification_handler(sender, data)`. */
    method NotificationHandler(data: seq<Byte>)
      modifies this
      ensures dataPoints == Notified(old(dataPoints), FromBytesLittle(data))
      ensures |dataPoints| > 0 && dataPoints[|dataPoints| - 1] == FromBytesLittle(data)
      ensures dataPoints == old(dataPoints) + [FromBytesLittle(data)]
              || dataPoints == (old(dataPoints) + [FromBytesLittle(data)])[1..]
      ensures old(Valid()) ==> Valid()
    {
      var value := FromBytesLittle(data);
      dataPoints := dataPoints + [value];
      if |dataPoints| > MaxPoints {
        dataPoints := dataPoints[1..];
      }
    }

    /** `update_graph`: one x position per stored point, values passed
        through; within capacity every point is drawn on the axis. */
    function Figure(): (tr: Trace)
      reads this
      ensures |tr.x| == |tr.y| == |dataPoints| && tr.y == dataPoints
      ensures tr.x == XPositions(|dataPoints|)
      ensures Valid() ==> forall i :: 0 <= i < |tr.x| ==> -Duration <= tr.x[i] < 0
    {
      XPositionsOnAxis(|dataPoints|);
      Trace(XPositions(|dataPoints|)[..|dataPoints|], dataPoints)
    }
  }
}
