// When merging relative motion loses none of it: the exact condition, for runs of any length.

module Saturation {
  import opened Protocol
  import opened TxQueue

  // ---- what a track's climb and fall mean --------------------------------------------------

  function Sum(ds: seq<int>): int {
    if ds == [] then 0 else Sum(ds[..|ds| - 1]) + ds[|ds| - 1]
  }

  function TrackOf(ds: seq<int>): Track {
    if ds == [] then AtRest else Roll(TrackOf(ds[..|ds| - 1]), ds[|ds| - 1])
  }

  /** How far the moves from the i-th up to the j-th lead. */
  function Span(ds: seq<int>, i: nat, j: nat): int
    requires i <= j <= |ds|
  {
    Sum(ds[..j]) - Sum(ds[..i])
  }

  lemma {:induction false} SpanIsSum(ds: seq<int>, i: nat, j: nat)
    requires i <= j <= |ds|
    ensures Span(ds, i, j) == Sum(ds[i..j])
  {
    if i == j {
      assert ds[i..j] == [];
    } else {
      SpanIsSum(ds, i, j - 1);
      assert ds[i..j][..j - 1 - i] == ds[i..j - 1];
      assert ds[..j][..j - 1] == ds[..j - 1];
    }
  }

  lemma SpanPrefix(ds: seq<int>, n: nat, i: nat, j: nat)
    requires i <= j <= n <= |ds|
    ensures Span(ds[..n], i, j) == Span(ds, i, j)
  {
    assert ds[..n][..i] == ds[..i] && ds[..n][..j] == ds[..j];
  }

  /** The sum and the extremes of the running sum, and where they are reached. */
  lemma {:induction false} Extremes(ds: seq<int>) returns (low: nat, high: nat)
    ensures TrackOf(ds).sum == Sum(ds)
    ensures low <= |ds| && TrackOf(ds).lo == Sum(ds[..low])
    ensures high <= |ds| && TrackOf(ds).hi == Sum(ds[..high])
    ensures forall k :: 0 <= k <= |ds| ==> TrackOf(ds).lo <= Sum(ds[..k]) <= TrackOf(ds).hi
  {
    if ds == [] {
      low, high := 0, 0;
    } else {
      var n := |ds| - 1;
      low, high := Extremes(ds[..n]);
      assert ds[..|ds|] == ds;
      assert forall k :: 0 <= k <= n ==> ds[..n][..k] == ds[..k];
      if Sum(ds) < TrackOf(ds[..n]).lo {
        low := |ds|;
      }
      if Sum(ds) > TrackOf(ds[..n]).hi {
        high := |ds|;
      }
    }
  }

  /** Every run of moves leads no further up than the climb, and some run leads just that far. */
  lemma {:induction false} Climbs(ds: seq<int>) returns (i: nat, j: nat)
    ensures i <= j <= |ds| && TrackOf(ds).climb == Span(ds, i, j)
    ensures forall a, b :: 0 <= a <= b <= |ds| ==> Span(ds, a, b) <= TrackOf(ds).climb
  {
    if ds == [] {
      i, j := 0, 0;
    } else {
      var n := |ds| - 1;
      var low, high := Extremes(ds[..n]);
      i, j := Climbs(ds[..n]);
      assert ds[..|ds|] == ds;
      forall a, b | 0 <= a <= b <= |ds| ensures Span(ds, a, b) <= TrackOf(ds).climb {
        if b <= n {
          SpanPrefix(ds, n, a, b);
          assert Span(ds[..n], a, b) <= TrackOf(ds[..n]).climb;
        } else if a <= n {
          assert ds[..n][..a] == ds[..a];
        }
      }
      SpanPrefix(ds, n, i, j);
      if TrackOf(ds).climb != TrackOf(ds[..n]).climb {
        assert ds[..n][..low] == ds[..low];
        i, j := low, |ds|;
      }
    }
  }

  lemma {:induction false} Falls(ds: seq<int>) returns (i: nat, j: nat)
    ensures i <= j <= |ds| && TrackOf(ds).fall == -Span(ds, i, j)
    ensures forall a, b :: 0 <= a <= b <= |ds| ==> -Span(ds, a, b) <= TrackOf(ds).fall
  {
    if ds == [] {
      i, j := 0, 0;
    } else {
      var n := |ds| - 1;
      var low, high := Extremes(ds[..n]);
      i, j := Falls(ds[..n]);
      assert ds[..|ds|] == ds;
      forall a, b | 0 <= a <= b <= |ds| ensures -Span(ds, a, b) <= TrackOf(ds).fall {
        if b <= n {
          SpanPrefix(ds, n, a, b);
          assert -Span(ds[..n], a, b) <= TrackOf(ds[..n]).fall;
        } else if a <= n {
          assert ds[..n][..a] == ds[..a];
        }
      }
      SpanPrefix(ds, n, i, j);
      if TrackOf(ds).fall != TrackOf(ds[..n]).fall {
        assert ds[..n][..high] == ds[..high];
        i, j := high, |ds|;
      }
    }
  }

  predicate FitsInt32(v: int) {
    INT32_MIN <= v <= INT32_MAX
  }

  predicate AllRunsFit(ds: seq<int>) {
    forall i, j :: 0 <= i <= j <= |ds| ==> FitsInt32(Sum(ds[i..j]))
  }

  /** A track is exact exactly when every run of consecutive moves adds up within an int32. */
  lemma ExactIffRunsFit(ds: seq<int>)
    ensures Exact(TrackOf(ds)) <==> AllRunsFit(ds)
  {
    var i, j := Climbs(ds);
    var a, b := Falls(ds);
    SpanIsSum(ds, i, j);
    SpanIsSum(ds, a, b);
    if Exact(TrackOf(ds)) {
      forall k, l | 0 <= k <= l <= |ds| ensures FitsInt32(Sum(ds[k..l])) {
        SpanIsSum(ds, k, l);
        assert Span(ds, k, l) <= TrackOf(ds).climb && -Span(ds, k, l) <= TrackOf(ds).fall;
      }
    }
  }

  // ---- what the pass does to a run of relative motion -----------------------------------------

  predicate AllRel(q: seq<Pkt>) {
    forall p <- q :: p.kind == Rel
  }

  datatype Axis = X | Y

  function Delta(p: Pkt, a: Axis): Int32
    requires p.kind == Rel
  {
    if a == X then p.body.x else p.body.y
  }

  function Along(t: Stretch, a: Axis): Track {
    if a == X then t.x else t.y
  }

  function Deltas(q: seq<Pkt>, a: Axis): (ds: seq<int>)
    requires AllRel(q)
    ensures |ds| == |q| && forall i :: 0 <= i < |q| ==> ds[i] == Delta(q[i], a)
  {
    seq(|q|, i requires 0 <= i < |q| => Delta(q[i], a) as int)
  }

  /** The deltas, added one after the other with saturation. */
  function Saturated(ds: seq<int>): int {
    if ds == [] then 0
    else if |ds| == 1 then ds[0]
    else Clamp(Saturated(ds[..|ds| - 1]) + ds[|ds| - 1])
  }

  /** A run of relative motion is coalesced into one packet that carries the saturated sum. */
  lemma {:induction false} RunCoalesces(q: seq<Pkt>, a: Axis)
    requires AllRel(q) && q != []
    ensures var c := Run(Start(q, 0), q);
            && |c.out| == 1 && c.out[0].kind == Rel && Delta(c.out[0], a) == Saturated(Deltas(q, a))
            && c.relSlot == 0
  {
    var n := |q| - 1;
    assert Deltas(q, a)[..n] == Deltas(q[..n], a);
    assert q[n] in q;
    if n > 0 {
      RunCoalesces(q[..n], a);
      var c := Run(Start(q[..n], 0), q[..n]);
      assert Run(Start(q, 0), q) == Step(c, q[n]);
      MergesInto(c, q[n], a);
    } else {
      assert q[..n] == [] && Run(Start(q, 0), q) == Step(Start(q, 0), q[0]);
    }
  }

  /** One more delta into the one packet there is. */
  lemma MergesInto(c: Pass, p: Pkt, a: Axis)
    requires c.Valid() && |c.out| == 1 && c.relSlot == 0 && c.out[0].kind == Rel && p.kind == Rel
    ensures var r := Step(c, p);
            |r.out| == 1 && r.out[0].kind == Rel && r.relSlot == 0 && Delta(r.out[0], a) == Clamp(Delta(c.out[0], a) as int + Delta(p, a) as int)
  {}

  lemma {:induction false} RunTravels(q: seq<Pkt>, a: Axis)
    requires AllRel(q)
    ensures |Stretches(q)| == 1 && Along(Stretches(q)[0], a) == TrackOf(Deltas(q, a))
  {
    if q != [] {
      var n := |q| - 1;
      assert Deltas(q, a)[..n] == Deltas(q[..n], a);
      RunTravels(q[..n], a);
      assert q[n] in q;
    }
  }

  lemma {:induction false} SaturatedFits(ds: seq<int>)
    requires forall d <- ds :: FitsInt32(d)
    ensures FitsInt32(Saturated(ds))
  {
    if |ds| > 1 {
      SaturatedFits(ds[..|ds| - 1]);
    }
  }

  /** Saturation never strikes while the running sums fit. */
  lemma {:induction false} SaturatedExact(ds: seq<int>)
    requires forall k :: 0 <= k <= |ds| ==> FitsInt32(Sum(ds[..k]))
    ensures Saturated(ds) == Sum(ds)
  {
    if ds != [] {
      var n := |ds| - 1;
      forall k | 0 <= k <= n ensures FitsInt32(Sum(ds[..n][..k])) {
        assert ds[..n][..k] == ds[..k];
      }
      assert ds[..|ds|] == ds;
      SaturatedExact(ds[..n]);
    }
  }

  /** Coalescing the run leaves the pointer, along this axis, where the run would have. */
  predicate KeepsSum(q: seq<Pkt>, a: Axis)
    requires AllRel(q)
  {
    Along(Stretches(Coalesce(q, 0))[0], a).sum == Along(Stretches(q)[0], a).sum
  }

  lemma KeepsSumIff(q: seq<Pkt>, a: Axis)
    requires AllRel(q)
    ensures KeepsSum(q, a) <==> Saturated(Deltas(q, a)) == Sum(Deltas(q, a))
  {
    RunTravels(q, a);
    var low, high := Extremes(Deltas(q, a));
    if q != [] {
      RunCoalesces(q, a);
      var out := Coalesce(q, 0);
      assert AllRel(out);
      RunTravels(out, a);
      assert Deltas(out, a)[..0] == [];
    }
  }

  predicate AllRunsKept(q: seq<Pkt>, a: Axis)
    requires AllRel(q)
  {
    forall i, j :: 0 <= i <= j <= |q| ==> KeepsSum(q[i..j], a)
  }

  lemma KeptMeansFit(q: seq<Pkt>, a: Axis)
    requires AllRel(q) && AllRunsKept(q, a)
    ensures AllRunsFit(Deltas(q, a))
  {
    var ds := Deltas(q, a);
    forall i, j | 0 <= i <= j <= |ds| ensures FitsInt32(Sum(ds[i..j])) {
      assert KeepsSum(q[i..j], a);
      KeepsSumIff(q[i..j], a);
      assert Deltas(q[i..j], a) == ds[i..j];
      SaturatedFits(ds[i..j]);
    }
  }

  lemma FitMeansKept(q: seq<Pkt>, a: Axis)
    requires AllRel(q) && AllRunsFit(Deltas(q, a))
    ensures AllRunsKept(q, a)
  {
    var ds := Deltas(q, a);
    forall i, j | 0 <= i <= j <= |q| ensures KeepsSum(q[i..j], a) {
      var r := ds[i..j];
      assert Deltas(q[i..j], a) == r;
      forall k | 0 <= k <= |r| ensures FitsInt32(Sum(r[..k])) {
        assert r[..k] == ds[i..i + k];
      }
      SaturatedExact(r);
      KeepsSumIff(q[i..j], a);
    }
  }

  /**
   * However a stretch of relative motion is cut up for coalescing, none of it is lost along an axis --
   * exactly when no run of consecutive deltas along that axis adds up to more than an int32.
   */
  lemma LosslessIffExact(q: seq<Pkt>, a: Axis)
    requires AllRel(q)
    ensures AllRunsKept(q, a) <==> Exact(Along(Stretches(q)[0], a))
  {
    RunTravels(q, a);
    ExactIffRunsFit(Deltas(q, a));
    if AllRunsKept(q, a) {
      KeptMeansFit(q, a);
    }
    if AllRunsFit(Deltas(q, a)) {
      FitMeansKept(q, a);
    }
  }

  function RelMove(dx: Int32, dy: Int32): Pkt {
    Pkt(Rel, 0, 0, Args(dx, dy, 0, 0))
  }

  /** Two moves that together overflow, along either axis: merged, they lose one step. */
  lemma MotionLost()
    ensures var q := [RelMove(INT32_MAX, 0), RelMove(1, 0)]; !KeepsSum(q, X) && KeepsSum(q, Y)
    ensures var q := [RelMove(0, INT32_MIN), RelMove(0, -1)]; KeepsSum(q, X) && !KeepsSum(q, Y)
  {
    PairKept(RelMove(INT32_MAX, 0), RelMove(1, 0), X);
    PairKept(RelMove(INT32_MAX, 0), RelMove(1, 0), Y);
    PairKept(RelMove(0, INT32_MIN), RelMove(0, -1), X);
    PairKept(RelMove(0, INT32_MIN), RelMove(0, -1), Y);
  }

  lemma PairSums(x: int, y: int)
    ensures Sum([x, y]) == x + y && Saturated([x, y]) == Clamp(x + y)
  {
    var one, two := [x], [x, y];
    assert two[..|two| - 1] == one && one[..|one| - 1] == [];
    assert Sum(one) == Sum([]) + x;
    assert Sum(two) == Sum(one) + y;
  }

  lemma PairKept(p: Pkt, q: Pkt, a: Axis)
    requires p.kind == q.kind == Rel
    ensures KeepsSum([p, q], a) <==> FitsInt32(Delta(p, a) as int + Delta(q, a) as int)
  {
    var x: int, y: int := Delta(p, a), Delta(q, a);
    assert Deltas([p, q], a) == [x, y];
    KeepsSumIff([p, q], a);
    PairSums(x, y);
  }
}
