// What the outbound queue means: the coalescing pass as a function on packet
// sequences, the observations a client can make of a stream, and the proof that
// coalescing changes none of them.

module TxQueue {
  import opened Protocol

  const TXRING: nat := 512

  // ---- the coalescing pass, one packet at a time ----------------------------

  /** The pass in progress: the packets kept, and where later motion may be merged (-1: nowhere). */
  datatype Pass = Pass(out: seq<Pkt>, absSlot: int, relSlot: int, frameSlot: int) {
    function Slot(kind: Kind): int {
      if kind == Abs then absSlot else if kind == Rel then relSlot else if kind == Frame then frameSlot else -1
    }

    predicate Holds(slot: int, kind: Kind) {
      slot == -1 || (0 <= slot < |out| && out[slot].kind == kind)
    }

    /** Each slot holds its own kind; neither a boundary nor the same motion lies behind a motion slot. */
    predicate Valid() {
      && Holds(absSlot, Abs) && Holds(relSlot, Rel) && Holds(frameSlot, Frame)
      && (absSlot >= 0 ==> forall j :: absSlot < j < |out| ==> !IsBoundary(out[j]) && out[j].kind != Abs)
      && (relSlot >= 0 ==> forall j :: relSlot < j < |out| ==> !IsBoundary(out[j]) && out[j].kind != Rel)
    }
  }

  function Clamp(v: int): Int32 {
    if v > INT32_MAX then INT32_MAX else if v < INT32_MIN then INT32_MIN else v
  }

  /**
   * Fold `p` into a kept packet of its kind, at the place of the earlier one.  Absolute
   * motion: the latest position wins.  Relative motion: the deltas add up, saturating at
   * the int32 limits.  FRAME is a level; only its number moves on.
   */
  function Merge(kept: Pkt, p: Pkt): Pkt
    requires kept.kind == p.kind && IsMergeable(p)
  {
    if p.kind == Abs then
      kept.(seqno := p.seqno, body := p.body)
    else if p.kind == Rel then
      kept.(seqno := p.seqno,
            body := kept.body.(x := Clamp(kept.body.x as int + p.body.x as int),
                               y := Clamp(kept.body.y as int + p.body.y as int)))
    else
      kept.(seqno := p.seqno)
  }

  function Step(c: Pass, p: Pkt): (r: Pass)
    requires c.Valid()
    ensures r.Valid()
  {
    var slot := c.Slot(p.kind);
    if slot >= 0 then
      c.(out := c.out[slot := Merge(c.out[slot], p)])
    else
      var n := |c.out|;
      Pass(c.out + [p],
           if p.kind == Abs then n else if IsBoundary(p) then -1 else c.absSlot,
           if p.kind == Rel then n else if IsBoundary(p) then -1 else c.relSlot,
           if p.kind == Frame then n else c.frameSlot)
  }

  function Run(c: Pass, q: seq<Pkt>): (r: Pass)
    requires c.Valid()
    ensures r.Valid()
  {
    if q == [] then c else Step(Run(c, q[..|q| - 1]), q[|q| - 1])
  }

  lemma {:induction false} RunCons(c: Pass, p: Pkt, q: seq<Pkt>)
    requires c.Valid()
    ensures Run(c, [p] + q) == Run(Step(c, p), q)
  {
    if q == [] {
      assert [p] + q == [p] && [p][..0] == [];
    } else {
      var all, q', z := [p] + q, q[..|q| - 1], q[|q| - 1];
      assert all[..|all| - 1] == [p] + q' && all[|all| - 1] == z;
      var x := Run(c, [p] + q');
      assert x == Run(Step(c, p), q') by {
        RunCons(c, p, q');
      }
      assert Run(c, all) == Step(x, z);
    }
  }

  /** The packet at the head is out of bounds once part of it has been written. */
  function Start(q: seq<Pkt>, partial: nat): (c: Pass)
    requires partial > 0 ==> q != []
    ensures c.Valid()
  {
    Pass(if partial > 0 then [q[0]] else [], -1, -1, -1)
  }

  function Rest(q: seq<Pkt>, partial: nat): seq<Pkt>
    requires partial > 0 ==> q != []
  {
    if partial > 0 then q[1..] else q
  }

  function Coalesce(q: seq<Pkt>, partial: nat): seq<Pkt>
    requires partial > 0 ==> q != []
  {
    Run(Start(q, partial), Rest(q, partial)).out
  }

  // ---- the first observation: everything that is not motion or pacing -------

  function Kept(p: Pkt): seq<Pkt> {
    if IsMergeable(p) then [] else [p]
  }

  function Sticky(s: seq<Pkt>): seq<Pkt> {
    if s == [] then [] else Sticky(s[..|s| - 1]) + Kept(s[|s| - 1])
  }

  lemma StickySnoc(s: seq<Pkt>, p: Pkt)
    ensures Sticky(s + [p]) == Sticky(s) + Kept(p)
  {}

  lemma {:induction false} StickyAppend(a: seq<Pkt>, b: seq<Pkt>)
    ensures Sticky(a + b) == Sticky(a) + Sticky(b)
  {
    if b == [] {
      assert a + b == a;
    } else {
      var b' := b[..|b| - 1];
      assert a + b == (a + b') + [b[|b| - 1]];
      StickySnoc(a + b', b[|b| - 1]);
      StickyAppend(a, b');
      Associate(Sticky(a), Sticky(b'), Kept(b[|b| - 1]));
    }
  }

  lemma {:induction false} StickyIgnoresMergeable(s: seq<Pkt>, i: nat, p: Pkt)
    requires i < |s| && IsMergeable(s[i]) && IsMergeable(p)
    ensures Sticky(s[i := p]) == Sticky(s)
  {
    var n := |s| - 1;
    if i < n {
      assert s[i := p][..n] == s[..n][i := p];
      StickyIgnoresMergeable(s[..n], i, p);
    } else {
      assert s[i := p][..n] == s[..n];
    }
  }

  lemma StickyStep(c: Pass, p: Pkt)
    requires c.Valid()
    ensures Sticky(Step(c, p).out) == Sticky(c.out) + Kept(p)
  {
    var slot := c.Slot(p.kind);
    if slot >= 0 {
      StickyIgnoresMergeable(c.out, slot, Merge(c.out[slot], p));
    } else {
      StickySnoc(c.out, p);
    }
  }

  lemma {:induction false} StickyRun(c: Pass, q: seq<Pkt>)
    requires c.Valid()
    ensures Sticky(Run(c, q).out) == Sticky(c.out) + Sticky(q)
  {
    if q != [] {
      var q', p := q[..|q| - 1], q[|q| - 1];
      StickyRun(c, q');
      StickyStep(Run(c, q'), p);
      Associate(Sticky(c.out), Sticky(q'), Kept(p));
    }
  }

  lemma StartPlusRest(q: seq<Pkt>, partial: nat)
    requires partial > 0 ==> q != []
    ensures Start(q, partial).out + Rest(q, partial) == q
  {}

  /** Coalescing drops and reorders nothing but motion and pacing. */
  lemma CoalesceKeepsSticky(q: seq<Pkt>, partial: nat)
    requires partial > 0 ==> q != []
    ensures Sticky(Coalesce(q, partial)) == Sticky(q)
  {
    StartPlusRest(q, partial);
    StickyRun(Start(q, partial), Rest(q, partial));
    StickyAppend(Start(q, partial).out, Rest(q, partial));
  }

  // ---- the second observation: where the pointer ends up in each stretch ----

  datatype Position = Nowhere | At(x: Int32, y: Int32, w0: Uint32, w1: Uint32)

  /**
   * Relative motion along one axis: where it has got to, the lowest and the highest it has been,
   * and how far it has climbed and fallen at most from one moment to a later one.
   */
  datatype RawTrack = Track(sum: int, lo: int, hi: int, climb: nat, fall: nat)

  type Track = t: RawTrack | t.lo <= t.sum <= t.hi witness Track(0, 0, 0, 0, 0)

  const AtRest: Track := Track(0, 0, 0, 0, 0)

  function Min(a: int, b: int): int {
    if a < b then a else b
  }

  function Max(a: int, b: int): int {
    if a > b then a else b
  }

  function Roll(t: Track, d: int): Track {
    var s := t.sum + d;
    Track(s, Min(t.lo, s), Max(t.hi, s), Max(t.climb, s - t.lo), Max(t.fall, t.hi - s))
  }

  /** No run of consecutive moves adds up to more than an int32. */
  predicate Exact(t: Track) {
    t.climb <= INT32_MAX && t.fall <= -INT32_MIN
  }

  /** Motion between two boundaries: the last position, and the relative motion along both axes. */
  datatype Stretch = Stretch(pos: Position, x: Track, y: Track)

  const Still := Stretch(Nowhere, AtRest, AtRest)

  function Move(t: Stretch, p: Pkt): Stretch {
    if p.kind == Abs then t.(pos := At(p.body.x, p.body.y, p.body.w0, p.body.w1))
    else if p.kind == Rel then Stretch(t.pos, Roll(t.x, p.body.x), Roll(t.y, p.body.y))
    else t
  }

  type Journey = m: seq<Stretch> | |m| > 0 witness [Still]

  function Travel(m: Journey, p: Pkt): Journey {
    if IsBoundary(p) then m + [Still] else m[|m| - 1 := Move(m[|m| - 1], p)]
  }

  /** One stretch per run between GRAB/FOCUS packets. */
  function Stretches(s: seq<Pkt>): Journey {
    if s == [] then [Still] else Travel(Stretches(s[..|s| - 1]), s[|s| - 1])
  }

  lemma StretchesSnoc(s: seq<Pkt>, p: Pkt)
    ensures Stretches(s + [p]) == Travel(Stretches(s), p)
  {}

  /** `w` gets where `e` does, by way of some of the same places; they may part once `e` is not exact. */
  predicate SameTrack(w: Track, e: Track) {
    Exact(e) ==> w.sum == e.sum && e.lo <= w.lo && w.hi <= e.hi && w.climb <= e.climb && w.fall <= e.fall
  }

  predicate SameStretch(w: Stretch, e: Stretch) {
    w.pos == e.pos && SameTrack(w.x, e.x) && SameTrack(w.y, e.y)
  }

  predicate SameJourney(w: Journey, e: Journey) {
    |w| == |e| && forall i :: 0 <= i < |w| ==> SameStretch(w[i], e[i])
  }

  lemma SameStretchMove(w: Stretch, e: Stretch, p: Pkt)
    requires SameStretch(w, e)
    ensures SameStretch(Move(w, p), Move(e, p))
  {}

  lemma SameJourneyTravel(w: Journey, e: Journey, p: Pkt)
    requires SameJourney(w, e)
    ensures SameJourney(Travel(w, p), Travel(e, p))
  {
    SameStretchMove(w[|w| - 1], e[|e| - 1], p);
  }

  lemma SameJourneyTransitive(a: Journey, b: Journey, c: Journey)
    requires SameJourney(a, b) && SameJourney(b, c)
    ensures SameJourney(a, c)
  {}

  lemma {:induction false} SameJourneyAppend(a: seq<Pkt>, b: seq<Pkt>, tail: seq<Pkt>)
    requires SameJourney(Stretches(a), Stretches(b))
    ensures SameJourney(Stretches(a + tail), Stretches(b + tail))
  {
    if tail == [] {
      assert a + tail == a && b + tail == b;
    } else {
      var t', p := tail[..|tail| - 1], tail[|tail| - 1];
      SameJourneyAppend(a, b, t');
      assert a + tail == (a + t') + [p] && b + tail == (b + t') + [p];
      StretchesSnoc(a + t', p);
      StretchesSnoc(b + t', p);
      SameJourneyTravel(Stretches(a + t'), Stretches(b + t'), p);
    }
  }

  /** Two moves in one: while the two are exact their sum needs no clamping, and one stop is passed by. */
  lemma MergeRolls(t: Track, a: Int32, b: Int32)
    ensures SameTrack(Roll(t, Clamp(a as int + b as int)), Roll(Roll(t, a), b))
  {}

  lemma MergeMoves(t: Stretch, kept: Pkt, p: Pkt)
    requires kept.kind == p.kind && IsMergeable(p)
    ensures SameStretch(Move(t, Merge(kept, p)), Move(Move(t, kept), p))
  {
    if p.kind == Rel {
      MergeRolls(t.x, kept.body.x, p.body.x);
      MergeRolls(t.y, kept.body.y, p.body.y);
    }
  }

  lemma MergeTravels(m: Journey, kept: Pkt, p: Pkt)
    requires kept.kind == p.kind && IsMergeable(p)
    ensures SameJourney(Travel(m, Merge(kept, p)), Travel(Travel(m, kept), p))
  {
    MergeMoves(m[|m| - 1], kept, p);
  }

  /** A FRAME carries no motion, so it may be merged across anything; motion only within its stretch. */
  predicate MergesBehind(p: Pkt, z: Pkt) {
    p.kind == Frame || (!IsBoundary(z) && z.kind != p.kind)
  }

  lemma TravelCommutes(m: Journey, p: Pkt, z: Pkt)
    requires IsMergeable(p) && MergesBehind(p, z)
    ensures Travel(Travel(m, p), z) == Travel(Travel(m, z), p)
  {}

  /** Merging `p` into slot `i` is as good as appending it. */
  lemma {:induction false} StretchesMerge(s: seq<Pkt>, i: nat, p: Pkt)
    requires i < |s| && s[i].kind == p.kind && IsMergeable(p)
    requires forall j :: i < j < |s| ==> MergesBehind(p, s[j])
    ensures SameJourney(Stretches(s[i := Merge(s[i], p)]), Stretches(s + [p]))
  {
    var merged := Merge(s[i], p);
    var n := |s| - 1;
    var s', z: Pkt := s[..n], s[n];
    StretchesSnoc(s, p);
    if i == n {
      assert s[i := merged][..n] == s';
      MergeTravels(Stretches(s'), z, p);
    } else {
      assert s[i := merged][..n] == s'[i := merged];
      var m, m' := Stretches(s'), Stretches(s'[i := merged]);
      var e := Travel(m, p);
      assert SameJourney(m', e) by {
        StretchesMerge(s', i, p);
        StretchesSnoc(s', p);
      }
      assert SameJourney(Travel(m', z), Travel(e, z)) by {
        SameJourneyTravel(m', e, z);
      }
      TravelCommutes(m, p, z);
    }
  }

  lemma SameJourneyReflexive(m: Journey)
    ensures SameJourney(m, m)
  {}

  lemma StretchesStep(c: Pass, p: Pkt)
    requires c.Valid()
    ensures SameJourney(Stretches(Step(c, p).out), Stretches(c.out + [p]))
  {
    if c.Slot(p.kind) >= 0 {
      StretchesMerge(c.out, c.Slot(p.kind), p);
    } else {
      SameJourneyReflexive(Stretches(c.out + [p]));
    }
  }

  lemma {:induction false} StretchesRun(c: Pass, q: seq<Pkt>)
    requires c.Valid()
    ensures SameJourney(Stretches(Run(c, q).out), Stretches(c.out + q))
  {
    if q == [] {
      assert c.out + q == c.out;
      SameJourneyReflexive(Stretches(c.out));
    } else {
      var q', p := q[..|q| - 1], q[|q| - 1];
      var c' := Run(c, q');
      var out, sent, all := Step(c', p).out, c'.out + [p], c.out + q;
      assert all == (c.out + q') + [p];
      assert SameJourney(Stretches(sent), Stretches(all)) by {
        StretchesRun(c, q');
        SameJourneyAppend(c'.out, c.out + q', [p]);
      }
      assert SameJourney(Stretches(out), Stretches(sent)) by {
        StretchesStep(c', p);
      }
      SameJourneyTransitive(Stretches(out), Stretches(sent), Stretches(all));
    }
  }

  // ---- the third observation: the state the client believes it is in --------

  /** What the last FOCUS and GRAB packets of a stream said. */
  datatype Mode = Mode(focus: bool, grab: bool)

  function Switch(m: Mode, p: Pkt): Mode {
    if p.kind == Focus then m.(focus := p.body.x != 0)
    else if p.kind == Grab then m.(grab := p.body.x != 0)
    else m
  }

  function ModeOf(s: seq<Pkt>): Mode {
    if s == [] then Mode(false, false) else Switch(ModeOf(s[..|s| - 1]), s[|s| - 1])
  }

  /** The codes whose last KEY or BTN edge in the stream was a press. */
  function KeyView(s: seq<Pkt>): set<int> {
    if s == [] then {} else Edge(KeyView(s[..|s| - 1]), s[|s| - 1])
  }

  function Edge(down: set<int>, p: Pkt): set<int> {
    if p.kind != Key && p.kind != Btn then down
    else if p.body.y != 0 then down + {p.body.x}
    else down - {p.body.x}
  }

  lemma ViewsSnoc(s: seq<Pkt>, p: Pkt)
    ensures ModeOf(s + [p]) == Switch(ModeOf(s), p)
    ensures KeyView(s + [p]) == Edge(KeyView(s), p)
  {}

  lemma {:induction false} ViewsOfSticky(s: seq<Pkt>)
    ensures ModeOf(s) == ModeOf(Sticky(s)) && KeyView(s) == KeyView(Sticky(s))
  {
    if s != [] {
      var n := |s| - 1;
      ViewsOfSticky(s[..n]);
      if IsMergeable(s[n]) {
        assert Sticky(s) == Sticky(s[..n]);
      } else {
        ViewsSnoc(Sticky(s[..n]), s[n]);
      }
    }
  }

  /** Input reaches only a focused client; positions only an ungrabbed one, deltas only a grabbed one. */
  predicate Admits(m: Mode, p: Pkt) {
    match p.kind
    case Key => m.focus
    case Btn => m.focus
    case Wheel => m.focus
    case Abs => m.focus && !m.grab
    case Rel => m.focus && m.grab
    case _ => true
  }

  /** Every packet was admissible when it was reached. */
  predicate Admitted(s: seq<Pkt>) {
    s == [] || (Admitted(s[..|s| - 1]) && Admits(ModeOf(s[..|s| - 1]), s[|s| - 1]))
  }

  lemma AdmittedSnoc(s: seq<Pkt>, p: Pkt)
    ensures Admitted(s + [p]) <==> Admitted(s) && Admits(ModeOf(s), p)
  {}

  lemma {:induction false} AdmittedAt(s: seq<Pkt>, i: nat)
    requires Admitted(s) && i < |s|
    ensures Admits(ModeOf(s[..i]), s[i])
  {
    var n := |s| - 1;
    if i < n {
      AdmittedAt(s[..n], i);
      assert s[..n][..i] == s[..i];
    }
  }

  lemma {:induction false} SameKindSameMode(s: seq<Pkt>, i: nat, p: Pkt)
    requires i < |s| && s[i].kind == p.kind && IsMergeable(p)
    ensures ModeOf(s[i := p]) == ModeOf(s)
    ensures Admitted(s[i := p]) == Admitted(s)
  {
    var n := |s| - 1;
    if i < n {
      assert s[i := p][..n] == s[..n][i := p];
      SameKindSameMode(s[..n], i, p);
    } else {
      assert s[i := p][..n] == s[..n];
    }
  }

  lemma ModeStep(c: Pass, p: Pkt)
    requires c.Valid()
    ensures ModeOf(Step(c, p).out) == Switch(ModeOf(c.out), p)
    ensures Admitted(c.out) && Admits(ModeOf(c.out), p) ==> Admitted(Step(c, p).out)
  {
    var slot := c.Slot(p.kind);
    if slot >= 0 {
      SameKindSameMode(c.out, slot, Merge(c.out[slot], p));
    } else {
      ViewsSnoc(c.out, p);
      AdmittedSnoc(c.out, p);
    }
  }

  lemma {:induction false} AdmittedRun(c: Pass, q: seq<Pkt>)
    requires c.Valid() && Admitted(c.out + q)
    ensures Admitted(Run(c, q).out) && ModeOf(Run(c, q).out) == ModeOf(c.out + q)
  {
    if q == [] {
      assert c.out + q == c.out;
    } else {
      var q', p := q[..|q| - 1], q[|q| - 1];
      assert c.out + q == (c.out + q') + [p];
      AdmittedSnoc(c.out + q', p);
      ViewsSnoc(c.out + q', p);
      AdmittedRun(c, q');
      ModeStep(Run(c, q'), p);
    }
  }

  // ---- how far coalescing shrinks an admissible queue -----------------------

  function Loose(s: seq<Pkt>): int {
    |s| - |Sticky(s)|
  }

  function Open(slot: int): nat {
    if slot >= 0 then 1 else 0
  }

  /** A boundary-free run never holds both kinds of motion. */
  predicate Exclusive(c: Pass) {
    && (c.absSlot >= 0 ==> c.relSlot < 0 && !ModeOf(c.out).grab)
    && (c.relSlot >= 0 ==> c.absSlot < 0 && ModeOf(c.out).grab)
  }

  /** At most one motion packet per boundary-free run, at most one FRAME. */
  predicate Tight(base: Pass, c: Pass) {
    Loose(c.out) - Loose(base.out)
    <= |Sticky(c.out)| - |Sticky(base.out)| + Open(c.absSlot) + Open(c.relSlot) + Open(c.frameSlot)
  }

  lemma ExclusiveStep(c: Pass, p: Pkt)
    requires c.Valid() && Exclusive(c) && Admits(ModeOf(c.out), p)
    ensures Exclusive(Step(c, p))
  {
    ModeStep(c, p);
  }

  /** What one step adds: to the packets kept, and to the slots open for merging. */
  lemma StepCounts(c: Pass, p: Pkt)
    requires c.Valid() && (c.absSlot < 0 || c.relSlot < 0)
    requires p.kind == Abs ==> c.relSlot < 0
    requires p.kind == Rel ==> c.absSlot < 0
    ensures var r := Step(c, p);
            |r.out| - |c.out| - |Kept(p)|
            <= |Kept(p)| + Open(r.absSlot) + Open(r.relSlot) + Open(r.frameSlot)
               - Open(c.absSlot) - Open(c.relSlot) - Open(c.frameSlot)
  {}

  lemma TightStep(base: Pass, c: Pass, p: Pkt)
    requires c.Valid() && Exclusive(c) && Tight(base, c) && Admits(ModeOf(c.out), p)
    ensures Tight(base, Step(c, p))
  {
    StepCounts(c, p);
    StickyStep(c, p);
    assert |Sticky(Step(c, p).out)| == |Sticky(c.out)| + |Kept(p)|;
  }

  lemma {:induction false} TightRun(base: Pass, q: seq<Pkt>)
    requires base.Valid() && base.absSlot == base.relSlot == base.frameSlot == -1
    requires Admitted(base.out + q)
    ensures Exclusive(Run(base, q)) && Tight(base, Run(base, q))
  {
    if q != [] {
      var q', p := q[..|q| - 1], q[|q| - 1];
      assert base.out + q == (base.out + q') + [p];
      AdmittedSnoc(base.out + q', p);
      AdmittedRun(base, q');
      TightRun(base, q');
      ExclusiveStep(Run(base, q'), p);
      TightStep(base, Run(base, q'), p);
    }
  }

  // ---- coalescing the queue behind packets already delivered ----------------

  function ShiftSlot(slot: int, n: nat): int {
    if slot >= 0 then slot + n else slot
  }

  function Shift(d: seq<Pkt>, c: Pass): (r: Pass)
    requires c.Valid()
    ensures r.Valid()
  {
    var r := Pass(d + c.out, ShiftSlot(c.absSlot, |d|), ShiftSlot(c.relSlot, |d|), ShiftSlot(c.frameSlot, |d|));
    assert forall j :: |d| <= j < |r.out| ==> r.out[j] == c.out[j - |d|];
    r
  }

  lemma UpdateBehind<T>(d: seq<T>, s: seq<T>, i: nat, t: T)
    requires i < |s|
    ensures (d + s)[i + |d|] == s[i] && (d + s)[i + |d| := t] == d + s[i := t]
  {}

  lemma ShiftMerge(d: seq<Pkt>, c: Pass, p: Pkt)
    requires c.Valid() && c.Slot(p.kind) >= 0
    ensures Step(Shift(d, c), p) == Shift(d, Step(c, p))
  {
    var slot, r := c.Slot(p.kind), Shift(d, c);
    var merged := Merge(c.out[slot], p);
    UpdateBehind(d, c.out, slot, merged);
    assert r.Slot(p.kind) == slot + |d| && r.out[slot + |d|] == c.out[slot];
    assert Step(r, p) == r.(out := r.out[slot + |d| := merged]);
    assert Step(c, p) == c.(out := c.out[slot := merged]);
  }

  lemma ShiftAppend(d: seq<Pkt>, c: Pass, p: Pkt)
    requires c.Valid() && c.Slot(p.kind) < 0
    ensures Step(Shift(d, c), p) == Shift(d, Step(c, p))
  {
    assert Shift(d, c).Slot(p.kind) < 0;
    Associate(d, c.out, [p]);
  }

  lemma ShiftStep(d: seq<Pkt>, c: Pass, p: Pkt)
    requires c.Valid()
    ensures Step(Shift(d, c), p) == Shift(d, Step(c, p))
  {
    if c.Slot(p.kind) >= 0 {
      ShiftMerge(d, c, p);
    } else {
      ShiftAppend(d, c, p);
    }
  }

  lemma {:induction false} ShiftRun(d: seq<Pkt>, c: Pass, q: seq<Pkt>)
    requires c.Valid()
    ensures Run(Shift(d, c), q) == Shift(d, Run(c, q))
  {
    if q != [] {
      ShiftRun(d, c, q[..|q| - 1]);
      ShiftStep(d, Run(c, q[..|q| - 1]), q[|q| - 1]);
    }
  }

  lemma CoalesceInStream(d: seq<Pkt>, q: seq<Pkt>, partial: nat)
    requires partial > 0 ==> q != []
    ensures var base := Shift(d, Start(q, partial));
            && d + q == base.out + Rest(q, partial)
            && d + Coalesce(q, partial) == Run(base, Rest(q, partial)).out
  {
    ShiftRun(d, Start(q, partial), Rest(q, partial));
    StartPlusRest(q, partial);
    Associate(d, Start(q, partial).out, Rest(q, partial));
  }

  /** No observation of the stream -- delivered packets, then the queue -- notices a coalescing pass. */
  lemma CoalesceUnobserved(d: seq<Pkt>, q: seq<Pkt>, partial: nat)
    requires partial > 0 ==> q != []
    ensures Sticky(d + Coalesce(q, partial)) == Sticky(d + q)
    ensures SameJourney(Stretches(d + Coalesce(q, partial)), Stretches(d + q))
    ensures Admitted(d + q) ==> Admitted(d + Coalesce(q, partial))
  {
    var base, rest := Shift(d, Start(q, partial)), Rest(q, partial);
    CoalesceInStream(d, q, partial);
    StickyRun(base, rest);
    StickyAppend(base.out, rest);
    StretchesRun(base, rest);
    if Admitted(d + q) {
      AdmittedRun(base, rest);
    }
  }

  lemma {:induction false} RunLength(c: Pass, q: seq<Pkt>)
    requires c.Valid()
    ensures |c.out| <= |Run(c, q).out| <= |c.out| + |q|
  {
    if q != [] {
      RunLength(c, q[..|q| - 1]);
    }
  }

  predicate HeadFixed(c: Pass) {
    c.out != [] && c.absSlot != 0 && c.relSlot != 0 && c.frameSlot != 0
  }

  lemma {:induction false} RunKeepsHead(c: Pass, q: seq<Pkt>)
    requires c.Valid() && HeadFixed(c)
    ensures HeadFixed(Run(c, q)) && Run(c, q).out[0] == c.out[0]
  {
    if q != [] {
      RunKeepsHead(c, q[..|q| - 1]);
    }
  }

  /** A pass never grows the queue, never empties it, and leaves a half-written head alone. */
  lemma CoalesceSize(q: seq<Pkt>, partial: nat)
    requires partial > 0 ==> q != []
    ensures |Coalesce(q, partial)| <= |q|
    ensures partial > 0 ==> Coalesce(q, partial) != [] && Coalesce(q, partial)[0] == q[0]
  {
    RunLength(Start(q, partial), Rest(q, partial));
    if partial > 0 {
      RunKeepsHead(Start(q, partial), Rest(q, partial));
    }
  }

  /** A queue that stays long after coalescing is long because of packets that may never be dropped. */
  lemma CoalesceBound(d: seq<Pkt>, q: seq<Pkt>, partial: nat)
    requires partial > 0 ==> q != []
    requires Admitted(d + q)
    ensures |Coalesce(q, partial)| <= 2 * |Sticky(q)| + 3
  {
    var base, rest := Shift(d, Start(q, partial)), Rest(q, partial);
    CoalesceInStream(d, q, partial);
    TightRun(base, rest);
    CoalesceKeepsSticky(q, partial);
    StickyAppend(d, Coalesce(q, partial));
    StickyAppend(d, Start(q, partial).out);
  }

  // ---- numbers --------------------------------------------------------------------------------------

  /** The number on the last packet of a kind, or -1. */
  function LastNumber(s: seq<Pkt>, kind: Kind): int {
    if s == [] then -1
    else if s[|s| - 1].kind == kind then s[|s| - 1].seqno
    else LastNumber(s[..|s| - 1], kind)
  }

  predicate NoneBehind(s: seq<Pkt>, i: nat, kind: Kind) {
    forall j :: i < j < |s| ==> s[j].kind != kind
  }

  /** No FRAME lies behind the one that later FRAMEs are merged into. */
  predicate FrameLast(c: Pass) {
    c.frameSlot >= 0 ==> NoneBehind(c.out, c.frameSlot, Frame)
  }

  lemma {:induction false} LastNumberAt(s: seq<Pkt>, i: nat, kind: Kind)
    requires i < |s| && s[i].kind == kind && NoneBehind(s, i, kind)
    ensures LastNumber(s, kind) == s[i].seqno
  {
    if i < |s| - 1 {
      assert s[|s| - 1].kind != kind;
      LastNumberAt(s[..|s| - 1], i, kind);
    }
  }

  lemma {:induction false} LastNumberElsewhere(s: seq<Pkt>, i: nat, p: Pkt, kind: Kind)
    requires i < |s| && s[i].kind == p.kind != kind
    ensures LastNumber(s[i := p], kind) == LastNumber(s, kind)
  {
    var n := |s| - 1;
    if i < n {
      assert s[i := p][..n] == s[..n][i := p];
      LastNumberElsewhere(s[..n], i, p, kind);
    } else {
      assert s[i := p][..n] == s[..n];
    }
  }

  lemma LastNumberSnoc(s: seq<Pkt>, p: Pkt, kind: Kind)
    ensures LastNumber(s + [p], kind) == if p.kind == kind then p.seqno else LastNumber(s, kind)
  {
    assert (s + [p])[..|s|] == s;
  }

  lemma StepNumbers(c: Pass, p: Pkt, kind: Kind)
    requires c.Valid() && FrameLast(c)
    ensures FrameLast(Step(c, p))
    ensures LastNumber(Step(c, p).out, kind) == if p.kind == kind then p.seqno else LastNumber(c.out, kind)
  {
    var slot := c.Slot(p.kind);
    if slot >= 0 {
      var merged := Merge(c.out[slot], p);
      if p.kind == kind {
        LastNumberAt(c.out[slot := merged], slot, kind);
      } else {
        LastNumberElsewhere(c.out, slot, merged, kind);
      }
    } else {
      LastNumberSnoc(c.out, p, kind);
    }
  }

  lemma {:induction false} RunNumbers(c: Pass, q: seq<Pkt>, kind: Kind)
    requires c.Valid() && FrameLast(c)
    ensures FrameLast(Run(c, q)) && LastNumber(Run(c, q).out, kind) == LastNumber(c.out + q, kind)
  {
    if q == [] {
      assert c.out + q == c.out;
    } else {
      var n := |q| - 1;
      var r := Run(c, q[..n]);
      RunNumbers(c, q[..n], kind);
      assert Run(c, q) == Step(r, q[n]);
      StepNumbers(r, q[n], kind);
      assert c.out + q == (c.out + q[..n]) + [q[n]];
      LastNumberSnoc(c.out + q[..n], q[n], kind);
    }
  }

  /** The last packet of every kind keeps its number: a merge takes the later one. */
  lemma CoalesceNumbers(q: seq<Pkt>, partial: nat, kind: Kind)
    requires partial > 0 ==> q != []
    ensures LastNumber(Coalesce(q, partial), kind) == LastNumber(q, kind)
  {
    RunNumbers(Start(q, partial), Rest(q, partial), kind);
    assert Start(q, partial).out + Rest(q, partial) == q;
  }
}
