// The Wayland backend's import machinery: an eight-entry import cache with two pinned
// slots, and the protocol that finds out which layouts the display really imports.

module WlImport {
  import opened Protocol
  import opened Formats
  import opened Descriptor

  const MAX_BUFS: nat := 8
  const PROVEN_SLOTS: nat := 4

  // ---- the import cache -----------------------------------------------------------

  /** What makes two ATTACHes name the same import: one buffer, read one way. */
  datatype Layout = Layout(id: Uint64, width: Uint32, height: Uint32, stride: Uint32, offset: Uint32, pair: Pair)

  datatype Slot = Empty | Import(key: Layout, used: nat)

  function LayoutOf(d: Desc): Layout {
    Layout(d.id, d.width, d.height, d.stride, d.offset, Pair(d.fourcc, d.modifier))
  }

  /** The first valid slot holding `k`, or -1. */
  function HitFrom(bufs: seq<Slot>, k: Layout, i: nat): (r: int)
    requires i <= |bufs|
    ensures r == -1 || (i <= r < |bufs| && bufs[r].Import? && bufs[r].key == k)
    ensures r == -1 ==> forall j :: i <= j < |bufs| && bufs[j].Import? ==> bufs[j].key != k
    decreases |bufs| - i
  {
    if i == |bufs| then -1
    else if bufs[i].Import? && bufs[i].key == k then i
    else HitFrom(bufs, k, i + 1)
  }

  predicate Eligible(i: int, current: int, pending: int) {
    i != current && i != pending
  }

  /** The victim scan from slot `i` on, with `best` the least recently used eligible slot so far. */
  function VictimFrom(bufs: seq<Slot>, current: int, pending: int, i: nat, best: int): int
    requires i <= |bufs| && -1 <= best < i && (best >= 0 ==> bufs[best].Import?)
    decreases |bufs| - i
  {
    if i == |bufs| then best
    else if !Eligible(i, current, pending) then VictimFrom(bufs, current, pending, i + 1, best)
    else if bufs[i].Empty? then i
    else if best < 0 || bufs[i].used < bufs[best].used then VictimFrom(bufs, current, pending, i + 1, i)
    else VictimFrom(bufs, current, pending, i + 1, best)
  }

  function Victim(bufs: seq<Slot>, current: int, pending: int): int {
    VictimFrom(bufs, current, pending, 0, -1)
  }

  /** An eligible slot, empty or else the least recently used of all eligible ones. */
  predicate IsVictim(bufs: seq<Slot>, current: int, pending: int, v: int) {
    && 0 <= v < |bufs| && Eligible(v, current, pending)
    && (bufs[v].Import? ==> forall j :: 0 <= j < |bufs| && Eligible(j, current, pending)
                                        ==> bufs[j].Import? && bufs[v].used <= bufs[j].used)
  }

  lemma {:induction false} VictimFromIsVictim(bufs: seq<Slot>, current: int, pending: int, i: nat, best: int)
    requires i <= |bufs| && -1 <= best < i
    requires best >= 0 ==> bufs[best].Import? && Eligible(best, current, pending)
    requires forall j :: 0 <= j < i && Eligible(j, current, pending)
                         ==> best >= 0 && bufs[j].Import? && bufs[best].used <= bufs[j].used
    requires best >= 0 || exists j :: i <= j < |bufs| && Eligible(j, current, pending)
    ensures IsVictim(bufs, current, pending, VictimFrom(bufs, current, pending, i, best))
    decreases |bufs| - i
  {
    if i < |bufs| {
      if !Eligible(i, current, pending) {
        VictimFromIsVictim(bufs, current, pending, i + 1, best);
      } else if bufs[i].Import? {
        VictimFromIsVictim(bufs, current, pending, i + 1, if best < 0 || bufs[i].used < bufs[best].used then i else best);
      }
    }
  }

  /** With two slots pinned at most, there is always one to give up. */
  lemma VictimExists(bufs: seq<Slot>, current: int, pending: int)
    requires |bufs| == MAX_BUFS
    ensures IsVictim(bufs, current, pending, Victim(bufs, current, pending))
  {
    assert Eligible(0, current, pending) || Eligible(1, current, pending) || Eligible(2, current, pending);
    VictimFromIsVictim(bufs, current, pending, 0, -1);
  }

  // ---- the table of pairs proven by import ----------------------------------------

  datatype State = Unproven | Importable | Refused

  datatype Entry = Entry(pair: Pair, state: State, probing: bool) {
    predicate Active() {
      state != Unproven || probing
    }
  }

  /** The active entry for the pair, or -1. */
  function FindPair(proven: seq<Entry>, p: Pair, i: nat): (r: int)
    requires i <= |proven|
    ensures r == -1 || (i <= r < |proven| && proven[r].Active() && proven[r].pair == p)
    ensures r == -1 ==> forall j :: i <= j < |proven| && proven[j].Active() ==> proven[j].pair != p
    decreases |proven| - i
  {
    if i == |proven| then -1
    else if proven[i].pair == p && proven[i].Active() then i
    else FindPair(proven, p, i + 1)
  }

  function FindFree(proven: seq<Entry>, i: nat): (r: int)
    requires i <= |proven|
    ensures r == -1 || (i <= r < |proven| && !proven[r].Active())
    ensures r == -1 ==> forall j :: i <= j < |proven| ==> proven[j].Active()
    decreases |proven| - i
  {
    if i == |proven| then -1 else if !proven[i].Active() then i else FindFree(proven, i + 1)
  }

  /** wl_pair_slot with `create`: the table afterwards, and the slot or -1. */
  function PairSlot(proven: seq<Entry>, p: Pair): (r: (seq<Entry>, int))
    ensures |r.0| == |proven| && -1 <= r.1 < |proven|
  {
    var found := FindPair(proven, p, 0);
    if found >= 0 then (proven, found)
    else
      var free := FindFree(proven, 0);
      if free < 0 then (proven, -1) else (proven[free := proven[free].(pair := p)], free)
  }

  // ---- the backend as a state machine ----------------------------------------------

  /**
   * The slots.  History: `staged` is the layout staged for the next COMMIT, `shown` the one that the
   * last COMMIT with a buffer to show put on screen, until the placeholder takes it off again.
   */
  datatype Cache = Cache(bufs: seq<Slot>, tick: nat, pending: int, current: int, staged: Option<Layout>, shown: Option<Layout>) {
    function Stage(i: int, k: Layout): Cache
      requires 0 <= i < |bufs|
    {
      Cache(bufs[i := Import(k, tick)], tick, i, current, Some(k), shown)
    }

    function Touch(): Cache {
      this.(tick := tick + 1)
    }
  }

  /**
   * The proven table, the probe the broker believes in flight, and the refusal the client has yet to
   * hear of.  History: the probes the display has not answered, every answer it has given, every pair
   * handed to the import that is fatal on refusal, and every refusal the client was told.
   */
  datatype Probes = Probes(proven: seq<Entry>, probe: Pair, inflight: bool, bad: Option<Pair>,
                           asked: seq<Pair>, answers: seq<(Pair, bool)>, immed: seq<Pair>, told: seq<Pair>)

  datatype Wl = Wl(cache: Cache, probes: Probes) {
    predicate Sized() {
      |cache.bufs| == MAX_BUFS && |probes.proven| == PROVEN_SLOTS
    }
  }

  const NoPair := Pair(0, 0)

  const Opened := Wl(Cache(seq(MAX_BUFS, _ => Empty), 0, -1, -1, None, None),
                     Probes(seq(PROVEN_SLOTS, _ => Entry(NoPair, Unproven, false)), NoPair, false, None, [], [], [], []))

  datatype Code = Done | Invalid | IoError | NoEntry

  /** The answers of the display library during one ATTACH. */
  datatype Reply = Reply(hasShm: bool, poolOk: bool, paramsOk: bool, immedOk: bool)

  /** What the table makes of a pair: turned down, nothing to show yet, a probe sent, or imported. */
  datatype Gate = TurnedDown(code: Code) | Waiting | Asking | Imported

  /** The dma-buf half of wl_attach. */
  function Vouch(t: Probes, p: Pair, e: Reply): (Probes, Gate) {
    var (proven, ps) := PairSlot(t.proven, p);
    var t1 := t.(proven := proven);
    if ps < 0 || proven[ps].state == Refused then (t1, TurnedDown(Invalid))
    else if proven[ps].probing || t.inflight then (t1, Waiting)
    else if !e.paramsOk then (t1, TurnedDown(IoError))
    else if proven[ps].state == Unproven then
      (t1.(proven := proven[ps := proven[ps].(probing := true)], probe := p, inflight := true, asked := t1.asked + [p]),
       Asking)
    else
      (t1.(immed := t1.immed + [p]), if e.immedOk then Imported else TurnedDown(IoError))
  }

  /** wl_attach. */
  function Attach(w: Wl, d: Desc, e: Reply): (Wl, Code)
    requires w.Sized()
  {
    var c, k := w.cache.Touch(), LayoutOf(d);
    var hit := HitFrom(c.bufs, k, 0);
    if hit >= 0 then (Wl(c.Stage(hit, k), w.probes), Done)
    else
      VictimExists(c.bufs, c.current, c.pending);
      var v := Victim(c.bufs, c.current, c.pending);
      if d.shm then
        if !e.hasShm then (Wl(c, w.probes), Invalid)
        else if !e.poolOk then (Wl(c, w.probes), IoError)
        else (Wl(c.Stage(v, k), w.probes), Done)
      else
        var (t, g) := Vouch(w.probes, k.pair, e);
        match g
        case TurnedDown(code) => (Wl(c, t), code)
        case Waiting => (Wl(c, t), Done)
        case Asking => (Wl(c.(pending := -1, staged := None), t), Done)
        case Imported => (Wl(c.Stage(v, k), t), Done)
  }

  /**
   * probe_created and probe_failed: the display answers its k-th outstanding probe, but the event
   * carries no identity of its own.
   */
  function Answer(t: Probes, k: nat, created: bool): Probes
    requires k < |t.asked|
  {
    var i := FindPair(t.proven, t.probe, 0);
    var t1 := t.(inflight := false, asked := t.asked[..k] + t.asked[k + 1..],
                 answers := t.answers + [(t.asked[k], created)]);
    if i < 0 then t1
    else
      var entry := Entry(t.proven[i].pair, if created then Importable else Refused, false);
      t1.(proven := t.proven[i := entry], bad := if created then t.bad else Some(entry.pair))
  }

  /** wl_commit, as far as the slots are concerned. */
  function Commit(c0: Cache): (Cache, Code) {
    var c := c0.(shown := if c0.staged.Some? then c0.staged else c0.shown, staged := None);
    if !(0 <= c.pending < |c.bufs|) then (c, NoEntry)
    else if c.bufs[c.pending].Empty? then (c.(pending := -1), NoEntry)
    else (c.(current := c.pending, pending := -1), Done)
  }

  /** The start of wl_commit: a refusal that is pending goes to the client. */
  function Tell(t: Probes): Probes {
    t.(bad := None, told := t.told + if t.bad.Some? then [t.bad.value] else [])
  }

  /** The display answers only probes that are outstanding, in any order; the placeholder empties the surface. */
  datatype Event = EvAttach(d: Desc, e: Reply) | EvAnswer(k: nat, created: bool) | EvCommit | EvIdle

  predicate Enabled(w: Wl, ev: Event) {
    ev.EvAnswer? ==> ev.k < |w.probes.asked|
  }

  function Step(w: Wl, ev: Event): Wl
    requires w.Sized() && Enabled(w, ev)
  {
    match ev
    case EvAttach(d, e) => Attach(w, d, e).0
    case EvAnswer(k, created) => w.(probes := Answer(w.probes, k, created))
    case EvCommit => Wl(Commit(w.cache).0, Tell(w.probes))
    case EvIdle => w.(cache := w.cache.(current := -1, shown := None))
  }

  // ---- the cache invariant ---------------------------------------------------------------

  predicate IsImport(bufs: seq<Slot>, i: int) {
    0 <= i < |bufs| && bufs[i].Import?
  }

  /** Valid slots hold distinct layouts, each touched at its own tick; pins name valid slots. */
  predicate CacheInv(c: Cache) {
    && |c.bufs| == MAX_BUFS
    && (c.pending == -1 || IsImport(c.bufs, c.pending))
    && (c.current == -1 || IsImport(c.bufs, c.current))
    && (forall i, j :: 0 <= i < j < MAX_BUFS && IsImport(c.bufs, i) && IsImport(c.bufs, j)
                       ==> c.bufs[i].key != c.bufs[j].key && c.bufs[i].used != c.bufs[j].used)
    && (forall i :: 0 <= i < MAX_BUFS && IsImport(c.bufs, i) ==> c.bufs[i].used <= c.tick)
    && c.staged == (if c.pending >= 0 then Some(c.bufs[c.pending].key) else None)
    && c.shown == (if c.current >= 0 then Some(c.bufs[c.current].key) else None)
  }

  /** Staging keeps the cache in order, whether it refreshes a hit or takes over a victim. */
  lemma StageKeepsCache(c: Cache, i: int, k: Layout)
    requires CacheInv(c) && 0 <= i < MAX_BUFS
    requires if IsImport(c.bufs, i) && c.bufs[i].key == k then true
             else Eligible(i, c.current, c.pending)
                  && forall j :: 0 <= j < MAX_BUFS && IsImport(c.bufs, j) ==> c.bufs[j].key != k
    ensures CacheInv(c.Touch().Stage(i, k))
  {
    var c' := c.Touch().Stage(i, k);
    assert forall j :: j != i ==> (IsImport(c'.bufs, j) <==> IsImport(c.bufs, j));
  }

  lemma AttachKeepsCache(w: Wl, d: Desc, e: Reply)
    requires w.Sized() && CacheInv(w.cache)
    ensures CacheInv(Attach(w, d, e).0.cache)
  {
    var c, k := w.cache, LayoutOf(d);
    var hit := HitFrom(c.bufs, k, 0);
    if hit >= 0 {
      StageKeepsCache(c, hit, k);
    } else {
      VictimExists(c.bufs, c.current, c.pending);
      StageKeepsCache(c, Victim(c.bufs, c.current, c.pending), k);
    }
  }

  // ---- the probe invariant ---------------------------------------------------------------

  predicate Answered(t: Probes, p: Pair, created: bool) {
    (p, created) in t.answers
  }

  function StateFor(created: bool): State {
    if created then Importable else Refused
  }

  /** The entry waits for the probe in flight, or repeats what the display said. */
  predicate EntryInv(t: Probes, x: Entry) {
    && (x.probing ==> x.state == Unproven && t.asked == [x.pair])
    && (x.state == Importable ==> Answered(t, x.pair, true))
    && (x.state == Refused ==> Answered(t, x.pair, false))
  }

  predicate Distinct(proven: seq<Entry>) {
    forall i, j :: 0 <= i < j < |proven| && proven[i].Active() && proven[j].Active() ==> proven[i].pair != proven[j].pair
  }

  predicate Recorded(t: Probes, a: (Pair, bool)) {
    exists x <- t.proven :: x.pair == a.0 && x.state == StateFor(a.1)
  }

  predicate ProbeInv(t: Probes) {
    && |t.proven| == PROVEN_SLOTS
    && |t.asked| == (if t.inflight then 1 else 0)
    && (t.inflight ==> t.asked == [t.probe] && exists x <- t.proven :: x.probing)
    && Distinct(t.proven)
    && (forall x <- t.proven :: EntryInv(t, x))
    && (forall a <- t.answers :: Recorded(t, a))
    && (forall p <- t.immed :: Answered(t, p, true))
    && (t.bad.Some? ==> Answered(t, t.bad.value, false))
  }

  /** A verdict, once given, stays where it is. */
  predicate VerdictsKept(before: seq<Entry>, after: seq<Entry>) {
    |after| == |before| && forall i :: 0 <= i < |before| && before[i].state != Unproven ==> after[i] == before[i]
  }

  lemma VerdictsStayRecorded(t: Probes, t': Probes)
    requires VerdictsKept(t.proven, t'.proven) && forall a <- t.answers :: Recorded(t, a)
    ensures forall a <- t.answers :: Recorded(t', a)
  {}

  /** Writing an inactive entry disturbs nothing. */
  lemma PairSlotKeeps(t: Probes, p: Pair)
    requires ProbeInv(t)
    ensures var (proven, ps) := PairSlot(t.proven, p);
            && ProbeInv(t.(proven := proven)) && VerdictsKept(t.proven, proven)
            && (ps >= 0 ==> proven[ps].pair == p)
            && (ps >= 0 ==> forall j :: 0 <= j < |proven| && j != ps && proven[j].Active() ==> proven[j].pair != p)
  {
    var (proven, ps) := PairSlot(t.proven, p);
    var t' := t.(proven := proven);
    VerdictsStayRecorded(t, t');
    if FindPair(t.proven, p, 0) < 0 && ps >= 0 {
      assert forall j :: 0 <= j < |proven| && j != ps ==> proven[j] == t.proven[j] && t.proven[j] in t.proven;
      forall x <- proven ensures EntryInv(t', x) {}
      if t.inflight {
        var i :| 0 <= i < |t.proven| && t.proven[i].probing;
        assert proven[i] in proven;
      }
    } else if ps >= 0 {
      assert forall j :: 0 <= j < |proven| && j != ps && proven[j].Active() ==> proven[j].pair != p;
    }
  }

  lemma AskingKeeps(t: Probes, ps: nat, p: Pair)
    requires ProbeInv(t) && !t.inflight && ps < |t.proven| && t.proven[ps] == Entry(p, Unproven, false)
    requires forall j :: 0 <= j < |t.proven| && j != ps && t.proven[j].Active() ==> t.proven[j].pair != p
    ensures var proven := t.proven[ps := Entry(p, Unproven, true)];
            && ProbeInv(t.(proven := proven, probe := p, inflight := true, asked := t.asked + [p]))
            && VerdictsKept(t.proven, proven)
  {
    var proven := t.proven[ps := Entry(p, Unproven, true)];
    var t' := t.(proven := proven, probe := p, inflight := true, asked := t.asked + [p]);
    assert t'.asked == [p];
    VerdictsStayRecorded(t, t');
    assert proven[ps] in proven;
    assert forall j :: 0 <= j < |proven| && j != ps ==> proven[j] == t.proven[j] && t.proven[j] in t.proven;
    forall x <- proven ensures EntryInv(t', x) {}
  }

  lemma VouchKeeps(t: Probes, p: Pair, e: Reply)
    requires ProbeInv(t)
    ensures ProbeInv(Vouch(t, p, e).0) && VerdictsKept(t.proven, Vouch(t, p, e).0.proven)
  {
    PairSlotKeeps(t, p);
    var (proven, ps) := PairSlot(t.proven, p);
    var t1 := t.(proven := proven);
    if ps >= 0 && proven[ps].state == Unproven && !proven[ps].probing && !t.inflight {
      AskingKeeps(t1, ps, p);
    }
    if ps >= 0 && proven[ps].state == Importable {
      assert EntryInv(t1, proven[ps]);
    }
  }

  /** The answer is filed under the pair that was asked about, and only there. */
  lemma AnswerKeeps(t: Probes, k: nat, created: bool)
    requires ProbeInv(t) && k < |t.asked|
    ensures ProbeInv(Answer(t, k, created)) && VerdictsKept(t.proven, Answer(t, k, created).proven)
    ensures exists i :: 0 <= i < PROVEN_SLOTS && t.proven[i].probing
              && Answer(t, k, created).proven == t.proven[i := Entry(t.asked[k], StateFor(created), false)]
  {
    var t' := Answer(t, k, created);
    assert k == 0 && t'.asked == [];
    var w :| 0 <= w < |t.proven| && t.proven[w].probing;
    assert EntryInv(t, t.proven[w]);
    var i := FindPair(t.proven, t.probe, 0);
    assert i == w;
    assert t'.proven[i] in t'.proven;
    assert (t.probe, created) in t'.answers;
    assert forall a <- t.answers :: a in t'.answers;
    VerdictsStayRecorded(t, t');
    assert Recorded(t', (t.probe, created));
    forall x <- t'.proven ensures EntryInv(t', x) {
      if x != t'.proven[i] {
        assert x in t.proven && EntryInv(t, x);
        var j :| 0 <= j < |t.proven| && t.proven[j] == x && j != i;
      }
    }
  }

  /** The display never contradicts itself through the table: a pair has one verdict at most. */
  lemma VerdictUnique(t: Probes, p: Pair)
    requires ProbeInv(t) && Answered(t, p, true)
    ensures !Answered(t, p, false)
  {}

  /** The client hears of refusals only, of each once, and not of the pending one yet. */
  predicate TellInv(t: Probes) {
    && (forall p <- t.told :: Answered(t, p, false))
    && (forall i, j :: 0 <= i < j < |t.told| ==> t.told[i] != t.told[j])
    && (t.bad.Some? ==> t.bad.value !in t.told)
  }

  /** What is being asked has not been answered before. */
  lemma AskedIsNew(t: Probes, created: bool)
    requires ProbeInv(t) && t.inflight
    ensures !Answered(t, t.probe, created)
  {
    var i :| 0 <= i < |t.proven| && t.proven[i].probing;
    assert EntryInv(t, t.proven[i]);
    if Answered(t, t.probe, created) {
      assert Recorded(t, (t.probe, created));
      var j :| 0 <= j < |t.proven| && t.proven[j].pair == t.probe && t.proven[j].state == StateFor(created);
      assert i != j && t.proven[i].Active() && t.proven[j].Active();
    }
  }

  /** An answer, in full: it is about the pair in flight, and a refusal is pending from now on. */
  lemma AnswerFiled(t: Probes, k: nat, created: bool)
    requires ProbeInv(t) && k < |t.asked|
    ensures var t' := Answer(t, k, created);
            && t.inflight && t'.answers == t.answers + [(t.probe, created)] && t'.told == t.told
            && t'.bad == if created then t.bad else Some(t.probe)
  {
    var w :| 0 <= w < |t.proven| && t.proven[w].probing;
    assert EntryInv(t, t.proven[w]);
    assert FindPair(t.proven, t.probe, 0) >= 0;
  }

  lemma AnswerTells(t: Probes, k: nat, created: bool)
    requires ProbeInv(t) && TellInv(t) && k < |t.asked|
    ensures TellInv(Answer(t, k, created))
  {
    AnswerFiled(t, k, created);
    AskedIsNew(t, false);
  }

  // ---- whole runs --------------------------------------------------------------------------

  predicate Inv(w: Wl) {
    CacheInv(w.cache) && ProbeInv(w.probes) && TellInv(w.probes)
  }

  /** Every event happens when it can. */
  predicate Possible(w: Wl, evs: seq<Event>)
    requires w.Sized()
    decreases |evs|
  {
    evs == [] || (Enabled(w, evs[0]) && (StepSized(w, evs[0]); Possible(Step(w, evs[0]), evs[1..])))
  }

  function Run(w: Wl, evs: seq<Event>): (r: Wl)
    requires w.Sized() && Possible(w, evs)
    ensures r.Sized()
    decreases |evs|
  {
    if evs == [] then w else (StepSized(w, evs[0]); Run(Step(w, evs[0]), evs[1..]))
  }

  lemma StepSized(w: Wl, ev: Event)
    requires w.Sized() && Enabled(w, ev)
    ensures Step(w, ev).Sized()
  {
    VictimExists(w.cache.bufs, w.cache.current, w.cache.pending);
  }

  /** ATTACH answers nothing and tells the client nothing. */
  lemma VouchTells(t: Probes, p: Pair, e: Reply)
    ensures var t' := Vouch(t, p, e).0; t'.answers == t.answers && t'.told == t.told && t'.bad == t.bad
  {}

  lemma AttachKeepsProbes(w: Wl, d: Desc, e: Reply)
    requires Inv(w)
    ensures var t := Attach(w, d, e).0.probes;
            ProbeInv(t) && TellInv(t) && VerdictsKept(w.probes.proven, t.proven)
  {
    var t, p := Attach(w, d, e).0.probes, LayoutOf(d).pair;
    VouchKeeps(w.probes, p, e);
    VouchTells(w.probes, p, e);
    assert t == w.probes || t == Vouch(w.probes, p, e).0;
  }

  lemma StepKeeps(w: Wl, ev: Event)
    requires Inv(w) && Enabled(w, ev)
    ensures Inv(Step(w, ev)) && VerdictsKept(w.probes.proven, Step(w, ev).probes.proven)
  {
    match ev
    case EvAttach(d, e) =>
      AttachKeepsCache(w, d, e);
      AttachKeepsProbes(w, d, e);
    case EvAnswer(k, created) =>
      AnswerKeeps(w.probes, k, created);
      AnswerTells(w.probes, k, created);
    case EvCommit =>
    case EvIdle =>
  }

  lemma {:induction false} RunKeeps(w: Wl, evs: seq<Event>)
    requires Inv(w) && Possible(w, evs)
    ensures Inv(Run(w, evs)) && VerdictsKept(w.probes.proven, Run(w, evs).probes.proven)
    decreases |evs|
  {
    if evs != [] {
      StepKeeps(w, evs[0]);
      RunKeeps(Step(w, evs[0]), evs[1..]);
    }
  }

  /**
   * From the opened window, through any ATTACHes, answers, COMMITs and placeholders: one probe is
   * outstanding at most and the table waits for exactly that pair; the import that is fatal on
   * refusal was used only for pairs the display has created, and never for one it has refused.
   */
  lemma ImportsAreVouchedFor(evs: seq<Event>)
    requires Possible(Opened, evs)
    ensures var t := Run(Opened, evs).probes;
            && |t.asked| <= 1
            && (forall x <- t.proven :: x.probing ==> t.asked == [x.pair])
            && (forall p <- t.immed :: Answered(t, p, true) && !Answered(t, p, false))
  {
    RunKeeps(Opened, evs);
    var t := Run(Opened, evs).probes;
    forall x <- t.proven ensures x.probing ==> t.asked == [x.pair] {
      assert EntryInv(t, x);
    }
    forall p <- t.immed ensures Answered(t, p, true) && !Answered(t, p, false) {
      VerdictUnique(t, p);
    }
  }

  /** A verdict stays in the table, where the pair is looked up. */
  lemma VerdictFound(t: Probes, p: Pair, created: bool)
    requires ProbeInv(t) && Answered(t, p, created)
    ensures var i := FindPair(t.proven, p, 0); i >= 0 && t.proven[i].state == StateFor(created)
  {
    assert Recorded(t, (p, created));
    var j :| 0 <= j < |t.proven| && t.proven[j].pair == p && t.proven[j].state == StateFor(created);
    assert t.proven[j].Active();
  }

  // ---- what is in the cache, and so on screen ------------------------------------------------

  /** A pair is imported exactly when the display has created it before, nothing is in flight, and it goes well now. */
  lemma ImportedIff(t: Probes, p: Pair, e: Reply)
    requires ProbeInv(t)
    ensures Vouch(t, p, e).1 == Imported <==> Answered(t, p, true) && !t.inflight && e.paramsOk && e.immedOk
    ensures Vouch(t, p, e).1 == Imported ==> Vouch(t, p, e).0.immed == t.immed + [p]
  {
    var found := FindPair(t.proven, p, 0);
    if found >= 0 {
      assert t.proven[found] in t.proven && EntryInv(t, t.proven[found]);
    }
    if Answered(t, p, true) {
      VerdictFound(t, p, true);
    }
  }

  /** The layouts that were attached as shared memory. */
  function Shared(evs: seq<Event>): set<Layout> {
    set ev | ev in evs && ev.EvAttach? && ev.d.shm :: LayoutOf(ev.d)
  }

  /** A slot holds a shared-memory layout, or one of a pair the display has created. */
  predicate Showable(w: Wl, shared: set<Layout>) {
    forall i :: 0 <= i < |w.cache.bufs| && IsImport(w.cache.bufs, i)
                ==> w.cache.bufs[i].key in shared || Answered(w.probes, w.cache.bufs[i].key.pair, true)
  }

  lemma AttachShowable(w: Wl, d: Desc, e: Reply, shared: set<Layout>)
    requires Inv(w) && Showable(w, shared)
    ensures Showable(Attach(w, d, e).0, if d.shm then shared + {LayoutOf(d)} else shared)
  {
    VictimExists(w.cache.bufs, w.cache.current, w.cache.pending);
    VouchTells(w.probes, LayoutOf(d).pair, e);
    ImportedIff(w.probes, LayoutOf(d).pair, e);
  }

  lemma AnswerShowable(w: Wl, k: nat, created: bool, shared: set<Layout>)
    requires Inv(w) && Showable(w, shared) && k < |w.probes.asked|
    ensures Showable(w.(probes := Answer(w.probes, k, created)), shared)
  {
    AnswerFiled(w.probes, k, created);
  }

  lemma StepShowable(w: Wl, ev: Event, shared: set<Layout>)
    requires Inv(w) && Enabled(w, ev) && Showable(w, shared)
    ensures Showable(Step(w, ev), shared + Shared([ev]))
  {
    match ev
    case EvAttach(d, e) =>
      AttachShowable(w, d, e, shared);
      assert d.shm ==> LayoutOf(d) in Shared([ev]);
    case EvAnswer(k, created) => AnswerShowable(w, k, created, shared);
    case EvCommit =>
    case EvIdle =>
  }

  lemma {:induction false} RunShowable(w: Wl, evs: seq<Event>, shared: set<Layout>)
    requires Inv(w) && Possible(w, evs) && Showable(w, shared)
    ensures Showable(Run(w, evs), shared + Shared(evs))
    decreases |evs|
  {
    if evs != [] {
      StepKeeps(w, evs[0]);
      StepShowable(w, evs[0], shared);
      RunShowable(Step(w, evs[0]), evs[1..], shared + Shared([evs[0]]));
      assert Shared(evs) == Shared([evs[0]]) + Shared(evs[1..]);
      assert shared + Shared(evs) == shared + Shared([evs[0]]) + Shared(evs[1..]);
    }
  }

  /**
   * Over every run: whatever the cache holds, staged and shown slots included, is of a pair the display
   * has created and never refused, or was attached as shared memory.
   */
  lemma ShownIsVouchedFor(evs: seq<Event>, i: nat)
    requires Possible(Opened, evs) && IsImport(Run(Opened, evs).cache.bufs, i)
    ensures var w := Run(Opened, evs);
            var k := w.cache.bufs[i].key;
            k in Shared(evs) || (Answered(w.probes, k.pair, true) && !Answered(w.probes, k.pair, false))
  {
    RunKeeps(Opened, evs);
    RunShowable(Opened, evs, {});
    var w := Run(Opened, evs);
    if Answered(w.probes, w.cache.bufs[i].key.pair, true) {
      VerdictUnique(w.probes, w.cache.bufs[i].key.pair);
    }
    assert {} + Shared(evs) == Shared(evs);
  }

  // ---- which refusals the client hears of ---------------------------------------------------

  /** A refusal that was not passed on, and never will be. */
  predicate Lost(t: Probes, p: Pair) {
    Answered(t, p, false) && p !in t.told && t.bad != Some(p)
  }

  predicate Refusal(ev: Event) {
    ev.EvAnswer? && !ev.created
  }

  lemma AnswerLosesIff(t: Probes, k: nat, created: bool, p: Pair)
    requires ProbeInv(t) && TellInv(t) && k < |t.asked|
    ensures Lost(Answer(t, k, created), p) <==> Lost(t, p) || (t.bad == Some(p) && !created)
  {
    AnswerFiled(t, k, created);
    AskedIsNew(t, false);
  }

  lemma TellLosesNothing(t: Probes, p: Pair)
    ensures Lost(Tell(t), p) <==> Lost(t, p)
  {}

  /** A pair's refusal is lost exactly when another arrives while it is still pending. */
  lemma RefusalLostIff(w: Wl, ev: Event, p: Pair)
    requires Inv(w) && Enabled(w, ev)
    ensures Lost(Step(w, ev).probes, p) <==> Lost(w.probes, p) || (w.probes.bad == Some(p) && Refusal(ev))
  {
    match ev
    case EvAttach(d, e) => VouchTells(w.probes, LayoutOf(d).pair, e);
    case EvAnswer(k, created) => AnswerLosesIff(w.probes, k, created, p);
    case EvCommit => TellLosesNothing(w.probes, p);
    case EvIdle =>
  }

  /** Some refusal arrives while one is pending: two of them, and no COMMIT in between. */
  predicate Doubled(evs: seq<Event>, pending: bool) {
    evs != [] && (
      if Refusal(evs[0]) then pending || Doubled(evs[1..], true)
      else Doubled(evs[1..], pending && !evs[0].EvCommit?))
  }

  ghost predicate SomeLost(t: Probes) {
    exists p :: Lost(t, p)
  }

  lemma StepLoses(w: Wl, ev: Event)
    requires Inv(w) && Enabled(w, ev)
    ensures SomeLost(Step(w, ev).probes) <==> SomeLost(w.probes) || (w.probes.bad.Some? && Refusal(ev))
    ensures Step(w, ev).probes.bad.Some? <==> Refusal(ev) || (w.probes.bad.Some? && !ev.EvCommit?)
  {
    forall p ensures Lost(Step(w, ev).probes, p) <==> Lost(w.probes, p) || (w.probes.bad == Some(p) && Refusal(ev)) {
      RefusalLostIff(w, ev, p);
    }
    if w.probes.bad.Some? && Refusal(ev) {
      assert Lost(Step(w, ev).probes, w.probes.bad.value);
    }
    if ev.EvAnswer? {
      AnswerFiled(w.probes, ev.k, ev.created);
    }
  }

  lemma {:induction false} RunLoses(w: Wl, evs: seq<Event>)
    requires Inv(w) && Possible(w, evs)
    ensures SomeLost(Run(w, evs).probes) <==> SomeLost(w.probes) || Doubled(evs, w.probes.bad.Some?)
    decreases |evs|
  {
    if evs != [] {
      StepKeeps(w, evs[0]);
      StepLoses(w, evs[0]);
      RunLoses(Step(w, evs[0]), evs[1..]);
    }
  }

  /**
   * Over every run: the client hears of nothing but refusals, of each at most once, and of every one
   * but the last pending, if and only if no two refusals arrive without a COMMIT in between.
   */
  lemma RefusalsToldIff(evs: seq<Event>)
    requires Possible(Opened, evs)
    ensures var t := Run(Opened, evs).probes;
            && TellInv(t)
            && ((forall p :: Answered(t, p, false) ==> p in t.told || t.bad == Some(p)) <==> !Doubled(evs, false))
  {
    RunKeeps(Opened, evs);
    RunLoses(Opened, evs);
    assert !SomeLost(Opened.probes);
    var t := Run(Opened, evs).probes;
    assert (forall p :: Answered(t, p, false) ==> p in t.told || t.bad == Some(p)) <==> !SomeLost(t) by {
      assert forall p :: Lost(t, p) <==> Answered(t, p, false) && !(p in t.told || t.bad == Some(p));
    }
  }

  // ---- which pairs ATTACH turns down ----------------------------------------------------------

  /** Every entry is spent on another pair. */
  predicate Spent(proven: seq<Entry>, p: Pair) {
    forall x <- proven :: x.Active() && x.pair != p
  }

  /** The table turns a pair down exactly when the display has refused it, or four others hold the entries. */
  lemma TurnedDownIff(t: Probes, p: Pair, e: Reply)
    requires ProbeInv(t)
    ensures Vouch(t, p, e).1 == TurnedDown(Invalid) <==> Answered(t, p, false) || Spent(t.proven, p)
  {
    if Answered(t, p, false) {
      VerdictFound(t, p, false);
    }
    var found, free := FindPair(t.proven, p, 0), FindFree(t.proven, 0);
    if found >= 0 {
      assert t.proven[found] in t.proven && EntryInv(t, t.proven[found]);
    } else if free >= 0 {
      assert t.proven[free] in t.proven;
    }
  }

  /**
   * Past the descriptor checks, a buffer not yet imported is still turned down, exactly when the pair
   * was refused or the table is spent; a buffer the cache holds never is.
   */
  lemma AttachInvalidIff(w: Wl, d: Desc, e: Reply)
    requires Inv(w)
    ensures Attach(w, d, e).1 == Invalid
            <==> && (forall i :: 0 <= i < MAX_BUFS && IsImport(w.cache.bufs, i) ==> w.cache.bufs[i].key != LayoutOf(d))
                 && if d.shm then !e.hasShm
                    else Answered(w.probes, LayoutOf(d).pair, false) || Spent(w.probes.proven, LayoutOf(d).pair)
  {
    TurnedDownIff(w.probes, LayoutOf(d).pair, e);
    VictimExists(w.cache.bufs, w.cache.current, w.cache.pending);
    if HitFrom(w.cache.bufs, LayoutOf(d), 0) >= 0 {
      assert IsImport(w.cache.bufs, HitFrom(w.cache.bufs, LayoutOf(d), 0));
    }
  }

  predicate NoImport(bufs: seq<Slot>) {
    forall i :: 0 <= i < |bufs| ==> bufs[i].Empty?
  }

  /** A free entry, nothing in flight and a new pair: ATTACH asks the display. */
  lemma AttachAsks(w: Wl, d: Desc, e: Reply)
    requires Inv(w) && !d.shm && e.paramsOk && !w.probes.inflight && FindFree(w.probes.proven, 0) >= 0
    requires FindPair(w.probes.proven, LayoutOf(d).pair, 0) < 0 && NoImport(w.cache.bufs)
    ensures var r := Step(w, EvAttach(d, e));
            r.probes.asked == [LayoutOf(d).pair] && r.cache.bufs == w.cache.bufs && r.probes.bad == w.probes.bad
  {
    VictimExists(w.cache.bufs, w.cache.current, w.cache.pending);
    var p, hit, free := LayoutOf(d).pair, HitFrom(w.cache.bufs, LayoutOf(d), 0), FindFree(w.probes.proven, 0);
    assert hit == -1;
    assert w.probes.proven[free].state == Unproven && !w.probes.proven[free].probing;
    assert Vouch(w.probes, p, e).1 == Asking;
    assert w.probes.asked + [p] == [p];
  }

  /** Two events that can happen, as a run. */
  lemma TwoSteps(w: Wl, ev: Event, ev': Event)
    requires Inv(w) && Enabled(w, ev) && (StepSized(w, ev); Enabled(Step(w, ev), ev'))
    ensures Possible(w, [ev, ev']) && (StepKeeps(w, ev); Run(w, [ev, ev']) == Step(Step(w, ev), ev'))
  {
    StepKeeps(w, ev);
    StepKeeps(Step(w, ev), ev');
    assert [ev, ev'][1..] == [ev'] && [ev'][1..] == [];
    var r := Step(Step(w, ev), ev');
    assert Possible(Step(w, ev), [ev']);
    assert Run(r, []) == r && Run(Step(w, ev), [ev']) == r;
  }

  /** The display is asked about a pair and refuses it. */
  function Refusing(d: Desc, e: Reply): seq<Event> {
    [EvAttach(d, e), EvAnswer(0, false)]
  }

  lemma Refuses(w: Wl, d: Desc, e: Reply)
    requires Inv(w) && !d.shm && e.paramsOk && !w.probes.inflight && FindFree(w.probes.proven, 0) >= 0
    requires FindPair(w.probes.proven, LayoutOf(d).pair, 0) < 0 && NoImport(w.cache.bufs)
    ensures Possible(w, Refusing(d, e))
    ensures var r := Run(w, Refusing(d, e));
            && Inv(r) && r.cache.bufs == w.cache.bufs && !r.probes.inflight
            && r.probes.answers == w.probes.answers + [(LayoutOf(d).pair, false)]
            && r.probes.bad == Some(LayoutOf(d).pair) && r.probes.told == w.probes.told
  {
    AttachAsks(w, d, e);
    StepKeeps(w, EvAttach(d, e));
    var w1 := Step(w, EvAttach(d, e));
    TwoSteps(w, EvAttach(d, e), EvAnswer(0, false));
    StepKeeps(w1, EvAnswer(0, false));
    AnswerFiled(w1.probes, 0, false);
    VouchTells(w.probes, LayoutOf(d).pair, e);
  }

  /**
   * A yes to QUERY_FORMAT does not bind the display: once it has refused to import the pair, the pair
   * still resolves, and ATTACH turns it down.
   */
  lemma QueryNotBinding(formatOk: Pair -> bool, d: Desc, e: Reply)
    requires !d.shm && e.paramsOk && formatOk(LayoutOf(d).pair)
    ensures Possible(Opened, Refusing(d, e))
    ensures Resolve(formatOk, d.fourcc, d.modifier) == Some(d.fourcc)
    ensures Attach(Run(Opened, Refusing(d, e)), d, e).1 == Invalid
  {
    Refuses(Opened, d, e);
    AttachInvalidIff(Run(Opened, Refusing(d, e)), d, e);
  }

  /** One answer so far, and nothing in flight: every other pair is new, and there is an entry for it. */
  lemma OneVerdict(t: Probes, p: Pair, q: Pair)
    requires ProbeInv(t) && !t.inflight && t.answers == [(p, false)] && q != p
    ensures FindPair(t.proven, q, 0) < 0 && FindFree(t.proven, 0) >= 0
  {
    forall i | 0 <= i < |t.proven| && t.proven[i].Active() ensures t.proven[i].pair == p {
      assert EntryInv(t, t.proven[i]);
    }
  }

  /** Two pairs refused before the client commits a frame: it never hears of the first. */
  lemma FirstRefusalLost(d: Desc, d': Desc, e: Reply)
    requires !d.shm && !d'.shm && e.paramsOk && LayoutOf(d).pair != LayoutOf(d').pair
    ensures Possible(Opened, Refusing(d, e)) && Possible(Run(Opened, Refusing(d, e)), Refusing(d', e))
    ensures Lost(Run(Run(Opened, Refusing(d, e)), Refusing(d', e)).probes, LayoutOf(d).pair)
  {
    Refuses(Opened, d, e);
    var w := Run(Opened, Refusing(d, e));
    OneVerdict(w.probes, LayoutOf(d).pair, LayoutOf(d').pair);
    Refuses(w, d', e);
    assert Run(w, Refusing(d', e)).probes.answers[0] == (LayoutOf(d).pair, false);
  }

  /**
   * Over every run: the slot that is pinned for the next COMMIT holds what was staged for it, and the one
   * pinned as on screen holds what is on screen, so that no import is ever put in its place.
   */
  lemma PinsAreValid(evs: seq<Event>)
    requires Possible(Opened, evs)
    ensures var c := Run(Opened, evs).cache;
            && (c.staged.Some? <==> c.pending >= 0) && (c.shown.Some? <==> c.current >= 0)
            && (c.pending == -1 || (IsImport(c.bufs, c.pending) && c.bufs[c.pending].key == c.staged.value))
            && (c.current == -1 || (IsImport(c.bufs, c.current) && c.bufs[c.current].key == c.shown.value))
            && (forall i, j :: 0 <= i < j < MAX_BUFS && IsImport(c.bufs, i) && IsImport(c.bufs, j)
                               ==> c.bufs[i].key != c.bufs[j].key)
            && IsVictim(c.bufs, c.current, c.pending, Victim(c.bufs, c.current, c.pending))
  {
    RunKeeps(Opened, evs);
    var c := Run(Opened, evs).cache;
    VictimExists(c.bufs, c.current, c.pending);
  }

  /** COMMIT succeeds exactly when a buffer is staged, and then that buffer is what is on screen. */
  lemma CommitShowsStaged(w: Wl)
    requires Inv(w)
    ensures var (c, code) := Commit(w.cache);
            && (code == Done <==> w.cache.staged.Some?) && c.bufs == w.cache.bufs && c.pending == -1
            && (if code == Done then IsImport(c.bufs, c.current) && c.bufs[c.current].key == w.cache.staged.value
                else c.current == w.cache.current)
  {}

  // ---- what an ATTACH comes to ----------------------------------------------------------------

  /** A buffer staged: in its own slot if it has one, else in a victim's; no other slot is touched. */
  predicate Staged(c: Cache, k: Layout, c': Cache) {
    && |c'.bufs| == |c.bufs| && 0 <= c'.pending < |c.bufs| && c'.bufs == c.bufs[c'.pending := Import(k, c.tick + 1)]
    && c'.staged == Some(k) && c'.current == c.current
    && (if IsImport(c.bufs, c'.pending) && c.bufs[c'.pending].key == k then true
        else IsVictim(c.bufs, c.current, c.pending, c'.pending))
  }

  /** Nothing is staged anew. */
  predicate Unstaged(c: Cache, c': Cache) {
    c' == c.(tick := c.tick + 1)
  }

  /** Some slot holds exactly this buffer. */
  predicate Cached(c: Cache, k: Layout) {
    exists i :: 0 <= i < |c.bufs| && IsImport(c.bufs, i) && c.bufs[i].key == k
  }

  /** A buffer the cache holds, or one in shared memory: staged if it can be, whatever the table of pairs says. */
  lemma PlainAttachOutcome(w: Wl, d: Desc, e: Reply)
    requires Inv(w) && (d.shm || Cached(w.cache, LayoutOf(d)))
    ensures var (w', code), k := Attach(w, d, e), LayoutOf(d);
            && w'.probes == w.probes
            && (if Cached(w.cache, k) || (e.hasShm && e.poolOk) then code == Done && Staged(w.cache, k, w'.cache)
                else code == (if e.hasShm then IoError else Invalid) && Unstaged(w.cache, w'.cache))
  {
    VictimExists(w.cache.bufs, w.cache.current, w.cache.pending);
    var hit := HitFrom(w.cache.bufs, LayoutOf(d), 0);
    assert hit >= 0 ==> IsImport(w.cache.bufs, hit);
  }

  /**
   * A dma-buf the cache does not hold: refused if its pair was or if the table is full of others; put off
   * while a probe is in flight; imported and staged if the display has created the pair before; and
   * otherwise asked about, with nothing to show until the answer.
   */
  lemma NewAttachOutcome(w: Wl, d: Desc, e: Reply)
    requires Inv(w) && !d.shm && !Cached(w.cache, LayoutOf(d))
    ensures var (w', code), k := Attach(w, d, e), LayoutOf(d);
            var t, t', c, c' := w.probes, w'.probes, w.cache, w'.cache;
            if Answered(t, k.pair, false) || Spent(t.proven, k.pair) then
              code == Invalid && t'.asked == t.asked && t'.immed == t.immed && Unstaged(c, c')
            else if t.inflight then
              code == Done && t'.asked == t.asked && t'.immed == t.immed && Unstaged(c, c')
            else if !e.paramsOk then
              code == IoError && t'.asked == t.asked && t'.immed == t.immed && Unstaged(c, c')
            else if Answered(t, k.pair, true) then
              && t'.asked == t.asked && t'.immed == t.immed + [k.pair]
              && (if e.immedOk then code == Done && Staged(c, k, c') else code == IoError && Unstaged(c, c'))
            else
              && code == Done && t'.asked == [k.pair] && t'.immed == t.immed
              && c'.pending == -1 && c'.bufs == c.bufs && c'.current == c.current
  {
    VictimExists(w.cache.bufs, w.cache.current, w.cache.pending);
    var hit := HitFrom(w.cache.bufs, LayoutOf(d), 0);
    assert hit == -1;
    VouchOutcome(w.probes, LayoutOf(d).pair, e);
  }

  /** What the table of pairs makes of it. */
  lemma VouchOutcome(t: Probes, p: Pair, e: Reply)
    requires ProbeInv(t)
    ensures var (t', g) := Vouch(t, p, e);
            if Answered(t, p, false) || Spent(t.proven, p) then
              g == TurnedDown(Invalid) && t'.asked == t.asked && t'.immed == t.immed
            else if t.inflight then g == Waiting && t'.asked == t.asked && t'.immed == t.immed
            else if !e.paramsOk then g == TurnedDown(IoError) && t'.asked == t.asked && t'.immed == t.immed
            else if Answered(t, p, true) then
              && t'.asked == t.asked && t'.immed == t.immed + [p]
              && g == if e.immedOk then Imported else TurnedDown(IoError)
            else g == Asking && t'.asked == [p] && t'.immed == t.immed
  {
    TurnedDownIff(t, p, e);
    var found := FindPair(t.proven, p, 0);
    if found >= 0 {
      assert t.proven[found] in t.proven && EntryInv(t, t.proven[found]);
    }
    if Answered(t, p, true) {
      VerdictFound(t, p, true);
    }
    assert !t.inflight ==> t.asked + [p] == [p];
  }

  // ---- the backend itself -----------------------------------------------------------------

  class Backend {
    const bufs: array<Slot>
    const proven: array<Entry>
    var tick: nat
    var pending: int
    var current: int
    var probe: Pair
    var inflight: bool
    var bad: Option<Pair>

    ghost var staged: Option<Layout>
    ghost var shown: Option<Layout>
    ghost var asked: seq<Pair>
    ghost var answers: seq<(Pair, bool)>
    ghost var immed: seq<Pair>
    ghost var toldOf: seq<Pair>

    predicate Valid()
      reads this
    {
      bufs.Length == MAX_BUFS && proven.Length == PROVEN_SLOTS && -1 <= pending < MAX_BUFS
    }

    ghost function CacheView(): Cache
      reads this, bufs
    {
      Cache(bufs[..], tick, pending, current, staged, shown)
    }

    ghost function ProbesView(): Probes
      reads this, proven
    {
      Probes(proven[..], probe, inflight, bad, asked, answers, immed, toldOf)
    }

    ghost function View(): Wl
      reads this, bufs, proven
    {
      Wl(CacheView(), ProbesView())
    }

    constructor ()
      ensures Valid() && View() == Opened && fresh(bufs) && fresh(proven)
    {
      bufs := new Slot[MAX_BUFS](_ => Empty);
      proven := new Entry[PROVEN_SLOTS](_ => Entry(NoPair, Unproven, false));
      tick, pending, current := 0, -1, -1;
      probe, inflight, bad := NoPair, false, None;
      staged, shown, asked, answers, immed, toldOf := None, None, [], [], [], [];
      new;
      assert bufs[..] == Opened.cache.bufs && proven[..] == Opened.probes.proven;
    }

    method FindHit(k: Layout) returns (r: int)
      requires bufs.Length == MAX_BUFS
      ensures r == HitFrom(bufs[..], k, 0)
    {
      var i := 0;
      while i < MAX_BUFS
        invariant 0 <= i <= MAX_BUFS && HitFrom(bufs[..], k, 0) == HitFrom(bufs[..], k, i)
      {
        if bufs[i].Import? && bufs[i].key == k {
          return i;
        }
        i := i + 1;
      }
      r := -1;
    }

    method PickVictim() returns (v: int)
      requires bufs.Length == MAX_BUFS
      ensures v == Victim(bufs[..], current, pending)
    {
      v := -1;
      var i := 0;
      while i < MAX_BUFS
        invariant 0 <= i <= MAX_BUFS && -1 <= v < i && (v >= 0 ==> bufs[v].Import?)
        invariant Victim(bufs[..], current, pending) == VictimFrom(bufs[..], current, pending, i, v)
      {
        if i != current && i != pending {
          if bufs[i].Empty? {
            return i;
          }
          if v < 0 || bufs[i].used < bufs[v].used {
            v := i;
          }
        }
        i := i + 1;
      }
    }

    /** wl_pair_slot. */
    method SlotFor(p: Pair, create: bool) returns (r: int)
      requires proven.Length == PROVEN_SLOTS
      modifies proven
      ensures create ==> (proven[..], r) == PairSlot(old(proven[..]), p)
      ensures !create ==> proven[..] == old(proven[..]) && r == FindPair(old(proven[..]), p, 0)
    {
      var free, i := -1, 0;
      while i < PROVEN_SLOTS
        invariant 0 <= i <= PROVEN_SLOTS && proven[..] == old(proven[..])
        invariant FindPair(proven[..], p, 0) == FindPair(proven[..], p, i)
        invariant FindFree(proven[..], 0) == if free >= 0 then free else FindFree(proven[..], i)
      {
        if proven[i].pair == p && (proven[i].state != Unproven || proven[i].probing) {
          return i;
        }
        if free < 0 && proven[i].state == Unproven && !proven[i].probing {
          free := i;
        }
        i := i + 1;
      }
      if !create || free < 0 {
        return -1;
      }
      proven[free] := proven[free].(pair := p);
      r := free;
    }

    method Stage(i: int, k: Layout)
      requires 0 <= i < bufs.Length
      modifies this, bufs
      ensures View() == old(View()).(cache := old(CacheView()).Stage(i, k))
    {
      bufs[i] := Import(k, tick);
      pending, staged := i, Some(k);
      assert bufs[..] == old(bufs[..])[i := Import(k, tick)];
    }

    /** The dma-buf half of wl_attach. */
    method ImportPair(p: Pair, e: Reply) returns (g: Gate)
      requires proven.Length == PROVEN_SLOTS
      modifies this, proven
      ensures (ProbesView(), g) == Vouch(old(ProbesView()), p, e)
      ensures CacheView() == old(CacheView())
    {
      var ps := SlotFor(p, true);
      if ps < 0 {
        return TurnedDown(Invalid);
      }
      if proven[ps].state == Refused {
        return TurnedDown(Invalid);
      }
      if proven[ps].probing {
        return Waiting;
      }
      if inflight {
        return Waiting;
      }
      if !e.paramsOk {
        return TurnedDown(IoError);
      }
      if proven[ps].state == Unproven {
        ghost var was := proven[..];
        probe := p;
        proven[ps] := proven[ps].(probing := true);
        inflight := true;
        asked := asked + [p];
        assert proven[..] == was[ps := was[ps].(probing := true)];
        return Asking;
      }
      immed := immed + [p];
      g := if e.immedOk then Imported else TurnedDown(IoError);
    }

    /** wl_attach. */
    method AttachBuffer(d: Desc, e: Reply) returns (r: Code)
      requires Valid()
      modifies this, bufs, proven
      ensures Valid() && (View(), r) == Attach(old(View()), d, e)
    {
      var k := LayoutOf(d);
      tick := tick + 1;
      var i := FindHit(k);
      if i >= 0 {
        Stage(i, k);
        return Done;
      }
      VictimExists(bufs[..], current, pending);
      var victim := PickVictim();
      if d.shm {
        if !e.hasShm {
          return Invalid;
        }
        if !e.poolOk {
          return IoError;
        }
        Stage(victim, k);
        return Done;
      }
      var g := ImportPair(k.pair, e);
      match g {
        case TurnedDown(code) =>
          return code;
        case Waiting =>
        case Asking =>
          pending, staged := -1, None;
        case Imported =>
          Stage(victim, k);
      }
      r := Done;
    }

    /** probe_created and probe_failed. */
    method ProbeAnswered(created: bool, ghost k: nat)
      requires Valid() && k < |asked|
      modifies this, proven
      ensures Valid() && View() == old(View()).(probes := Answer(old(ProbesView()), k, created))
    {
      var i := SlotFor(probe, false);
      inflight := false;
      answers := answers + [(asked[k], created)];
      asked := asked[..k] + asked[k + 1..];
      if i >= 0 {
        proven[i] := Entry(proven[i].pair, if created then Importable else Refused, false);
        if !created {
          bad := Some(proven[i].pair);
        }
        assert proven[..] == old(proven[..])[i := proven[i]];
      }
    }

    /** wl_commit; `told` is the refusal the client hears about with this frame. */
    method Present() returns (r: Code, told: Option<Pair>)
      requires Valid()
      modifies this
      ensures Valid() && View() == Step(old(View()), EvCommit) && r == Commit(old(CacheView())).1
      ensures told == old(bad)
    {
      told := bad;
      toldOf := toldOf + if bad.Some? then [bad.value] else [];
      bad := None;
      shown, staged := if staged.Some? then staged else shown, None;
      if pending < 0 {
        return NoEntry, told;
      }
      if bufs[pending].Empty? {
        pending := -1;
        return NoEntry, told;
      }
      current := pending;
      pending := -1;
      r := Done;
    }

    /** wl_show_idle. */
    method ShowIdle()
      requires Valid()
      modifies this
      ensures Valid() && View() == Step(old(View()), EvIdle)
    {
      current, shown := -1, None;
    }
  }
}
