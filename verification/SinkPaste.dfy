// Host-to-guest clipboard: the text arrives whole, before the paste chord, and only where the
// user asked for it.

module SinkPaste {
  import opened Protocol
  import opened TxQueue
  import opened TxRing
  import opened SinkModel
  import opened SinkSafety
  import opened SinkTheorems
  import ClipIn

  // ---- the chunks and the text --------------------------------------------------------------

  predicate Sound(p: Pkt) {
    p.body.Chunk? && ClipNBytes(p.body.info) <= CLIP_PKT_BYTES
  }

  predicate AllSound(ps: seq<Pkt>) {
    forall i :: 0 <= i < |ps| ==> Sound(ps[i])
  }

  function Meaningful(p: Pkt): seq<Byte>
    requires Sound(p)
  {
    p.body.data[..ClipNBytes(p.body.info)]
  }

  predicate EndsText(p: Pkt) {
    p.body.Chunk? && ClipIsLast(p.body.info)
  }

  /** What a client puts together from chunks, up to the end marker. */
  function Rejoin(ps: seq<Pkt>): seq<Byte>
    requires AllSound(ps)
    decreases |ps|
  {
    if ps == [] then [] else Meaningful(ps[0]) + if EndsText(ps[0]) then [] else Rejoin(ps[1..])
  }

  lemma ClipPktParts(flags: Uint16, seqno: Uint32, payload: seq<Byte>, last: bool)
    requires |payload| <= CLIP_PKT_BYTES
    ensures var p := ClipPkt(flags, seqno, payload, last);
            Sound(p) && Meaningful(p) == payload && (EndsText(p) <==> last)
  {}

  /** For every text: joining the chunks gives it back, and the end marker is on the last chunk only. */
  lemma {:induction false} RejoinInverts(flags: Uint16, seqno: Uint32, text: seq<Byte>)
    ensures var ps := ClipPkts(flags, seqno, text);
            && AllSound(ps) && Rejoin(ps) == text
            && (forall i :: 0 <= i < |ps| ==> (EndsText(ps[i]) <==> i == |ps| - 1))
    decreases |text|
  {
    var ps := ClipPkts(flags, seqno, text);
    if |text| <= CLIP_PKT_BYTES {
      ClipPktParts(flags, seqno, text, true);
    } else {
      var rest := ClipPkts(flags, NextSeq(seqno), text[CLIP_PKT_BYTES..]);
      ClipPktParts(flags, seqno, text[..CLIP_PKT_BYTES], false);
      RejoinInverts(flags, NextSeq(seqno), text[CLIP_PKT_BYTES..]);
      assert ps[0] == ClipPkt(flags, seqno, text[..CLIP_PKT_BYTES], false) && ps[1..] == rest;
      assert text == text[..CLIP_PKT_BYTES] + text[CLIP_PKT_BYTES..];
    }
  }

  // ---- an accepted text and the chord after it -------------------------------------------------

  predicate Untouchable(ps: seq<Pkt>) {
    forall i :: 0 <= i < |ps| ==> !IsMergeable(ps[i])
  }

  lemma RunAppends(c: Pass, q: seq<Pkt>, p: Pkt)
    requires c.Valid() && !IsMergeable(p)
    ensures TxQueue.Run(c, q + [p]).out == TxQueue.Run(c, q).out + [p]
  {}

  /** Packets that no pass touches stay in one piece at the end of the queue. */
  lemma {:induction false} RunKeepsTail(c: Pass, q: seq<Pkt>, tail: seq<Pkt>)
    requires c.Valid() && Untouchable(tail)
    ensures TxQueue.Run(c, q + tail).out == TxQueue.Run(c, q).out + tail
  {
    if tail == [] {
      assert q + tail == q;
    } else {
      var t', p := tail[..|tail| - 1], tail[|tail| - 1];
      assert t' + [p] == tail;
      assert q + tail == (q + t') + [p];
      RunAppends(c, q + t', p);
      RunKeepsTail(c, q, t');
      Associate(TxQueue.Run(c, q).out, t', [p]);
    }
  }

  lemma StartAndRest(q: seq<Pkt>, tail: seq<Pkt>, partial: nat)
    requires partial > 0 ==> q != []
    ensures Start(q + tail, partial) == Start(q, partial) && Rest(q + tail, partial) == Rest(q, partial) + tail
  {}

  lemma CoalesceKeepsTail(q: seq<Pkt>, tail: seq<Pkt>, partial: nat)
    requires (partial > 0 ==> q != []) && Untouchable(tail)
    ensures Coalesce(q + tail, partial) == Coalesce(q, partial) + tail
  {
    StartAndRest(q, tail, partial);
    RunKeepsTail(Start(q, partial), Rest(q, partial), tail);
  }

  /** One more packet behind an untouchable tail: only what lies before the tail may shrink. */
  lemma TransmitBehind(l: Link, q: seq<Pkt>, tail: seq<Pkt>, p: Pkt) returns (q': seq<Pkt>)
    requires l.connected && l.tx.queue == q + tail && (l.tx.partial > 0 ==> q != [])
    requires Untouchable(tail) && !IsMergeable(p) && |q| + |tail| < TXRING - 1
    ensures |q'| <= |q| && (l.tx.partial > 0 ==> q' != [])
    ensures var r := Transmit(l, p);
            && r.connected && r.tx.queue == q' + (tail + [p]) && r.tx.partial == l.tx.partial
            && r.emitted == l.emitted + [p]
  {
    if |l.tx.queue| > TXRING / 4 {
      CoalesceKeepsTail(q, tail, l.tx.partial);
      CoalesceSize(q, l.tx.partial);
      q' := Coalesce(q, l.tx.partial);
    } else {
      q' := q;
    }
    Associate(q', tail, [p]);
  }

  /** The key packets of a series of edges. */
  predicate SpellsOut(ps: seq<Pkt>, es: seq<(Code, bool)>) {
    |ps| == |es| && forall i :: 0 <= i < |es| ==> ps[i].kind == Key && ps[i].body == Args(es[i].0, B(es[i].1), 0, 0)
  }

  function Pressed(down: set<int>, es: seq<(Code, bool)>): set<int>
    decreases |es|
  {
    if es == [] then down
    else Pressed(if es[0].1 then down + {es[0].0} else down - {es[0].0}, es[1..])
  }

  lemma {:induction false} KeyEdgesBehind(s: Sink, es: seq<(Code, bool)>, q: seq<Pkt>, tail: seq<Pkt>)
    returns (q': seq<Pkt>, ps: seq<Pkt>)
    requires s.link.connected && s.link.tx.queue == q + tail && (s.link.tx.partial > 0 ==> q != [])
    requires Untouchable(tail) && |q| + |tail| + |es| < TXRING
    ensures SpellsOut(ps, es)
    ensures var r := KeyEdges(s, es);
            && r.link.connected && r.link.tx.queue == q' + (tail + ps) && r.link.emitted == s.link.emitted + ps
            && r.keys.down == Pressed(s.keys.down, es)
    decreases |es|
  {
    if es == [] {
      q', ps := q, [];
      assert tail + ps == tail && s.link.emitted + ps == s.link.emitted;
    } else {
      var s1 := SetKey(s, es[0].0, es[0].1);
      var p := Packet(s1, Key, es[0].0, B(es[0].1), 0, 0);
      var q1 := TransmitBehind(s.link, q, tail, p);
      var r1 := KeyEdge(s, Key, es[0].0, es[0].1);
      var more;
      q', more := KeyEdgesBehind(r1, es[1..], q1, tail + [p]);
      ps := [p] + more;
      Associate(tail, [p], more);
      Associate(s.link.emitted, [p], more);
    }
  }

  function Press(k: Code, down: bool, when: bool): seq<(Code, bool)> {
    if when then [(k, down)] else []
  }

  lemma PressedCons(down: set<int>, k: Code, press: bool, when: bool, rest: seq<(Code, bool)>)
    ensures Pressed(down, Press(k, press, when) + rest)
            == Pressed(if !when then down else if press then down + {k} else down - {k}, rest)
  {
    if when {
      assert (Press(k, press, when) + rest)[1..] == rest;
    } else {
      assert Press(k, press, when) + rest == rest;
    }
  }

  lemma ChordAsPresses(k: Code, c: bool, h: bool, e1: seq<(Code, bool)>, e2: seq<(Code, bool)>, e3: seq<(Code, bool)>,
                       e4: seq<(Code, bool)>, e5: seq<(Code, bool)>)
    requires e5 == Press(KEY_LEFTCTRL, false, c) + [] && e4 == Press(KEY_LEFTSHIFT, false, h) + e5
    requires e3 == Press(k, false, true) + e4 && e2 == Press(k, true, true) + e3
    requires e1 == Press(KEY_LEFTSHIFT, true, h) + e2
    ensures ChordOf(k, c, h) == Press(KEY_LEFTCTRL, true, c) + e1 && |ChordOf(k, c, h)| <= REPLAY_RESERVE
  {}

  lemma PressReleases(down: set<int>, k: Code, c: bool, h: bool)
    requires c ==> KEY_LEFTCTRL !in down
    requires h ==> KEY_LEFTSHIFT !in down
    ensures var d1 := if c then down + {KEY_LEFTCTRL} else down;
            var d2 := if h then d1 + {KEY_LEFTSHIFT} else d1;
            var d3 := d2 + {k} - {k};
            var d4 := if h then d3 - {KEY_LEFTSHIFT} else d3;
            (if c then d4 - {KEY_LEFTCTRL} else d4) == down - {k}
  {}

  /** The chord is balanced: it leaves every key as the client saw it, but for the paste key, which ends up. */
  lemma ChordBalanced(s: Sink)
    ensures Pressed(s.keys.down, Chord(s)) == s.keys.down - {s.clip.held.key}
    ensures |Chord(s)| <= REPLAY_RESERVE
  {
    var k, down, c, h := s.clip.held.key, s.keys.down, NeedsCtrl(s), NeedsShift(s);
    var e5 := Press(KEY_LEFTCTRL, false, c) + [];
    var e4 := Press(KEY_LEFTSHIFT, false, h) + e5;
    var e3 := Press(k, false, true) + e4;
    var e2 := Press(k, true, true) + e3;
    var e1 := Press(KEY_LEFTSHIFT, true, h) + e2;
    ChordAsPresses(k, c, h, e1, e2, e3, e4, e5);
    PressedCons(down, KEY_LEFTCTRL, true, c, e1);
    var d1 := if c then down + {KEY_LEFTCTRL} else down;
    PressedCons(d1, KEY_LEFTSHIFT, true, h, e2);
    var d2 := if h then d1 + {KEY_LEFTSHIFT} else d1;
    PressedCons(d2, k, true, true, e3);
    PressedCons(d2 + {k}, k, false, true, e4);
    var d3 := d2 + {k} - {k};
    PressedCons(d3, KEY_LEFTSHIFT, false, h, e5);
    var d4 := if h then d3 - {KEY_LEFTSHIFT} else d3;
    PressedCons(d4, KEY_LEFTCTRL, false, c, []);
    PressReleases(down, k, c, h);
  }

  lemma ClipPktsUntouchable(flags: Uint16, seqno: Uint32, text: seq<Byte>)
    ensures Untouchable(ClipPkts(flags, seqno, text))
  {
    ClipPktsKind(flags, seqno, text);
  }

  ghost predicate ChordBehind(l: Link, l': Link, chunks: seq<Pkt>, es: seq<(Code, bool)>) {
    exists q: seq<Pkt>, chord: seq<Pkt> ::
      && SpellsOut(chord, es)
      && l'.tx.queue == q + (chunks + chord)
      && l'.emitted == l.emitted + chunks + chord
  }

  /** An accepted text, finished at once on a focused window: the chunks sit in one piece right before the chord. */
  lemma ChordFollowsText(cfg: Config, s: Sink, generation: nat, text: seq<Byte>)
    requires Inv(cfg, s) && s.win.focused && CanSend(s, generation, |text|)
    ensures var chunks := ClipPkts(Flags(s.win), s.link.seqno, text);
            var r := ClipFinish(SendClipboard(s, generation, text).0, generation, true);
            && AllSound(chunks) && Rejoin(chunks) == text
            && r.link.connected && ChordBehind(s.link, r.link, chunks, Chord(s))
            && r.keys.down == s.keys.down - {s.clip.held.key}
  {
    var chunks := ClipPkts(Flags(s.win), s.link.seqno, text);
    var s1 := Unheld(SendClipboard(s, generation, text).0);
    RejoinInverts(Flags(s.win), s.link.seqno, text);
    ClipPktsUntouchable(Flags(s.win), s.link.seqno, text);
    ChordBalanced(s);
    var q, chord := KeyEdgesBehind(s1, Chord(s), s.link.tx.queue, chunks);
    assert ClipFinish(SendClipboard(s, generation, text).0, generation, true) == KeyEdges(s1, Chord(s));
  }

  // ---- whose text, and whose connection -----------------------------------------------------------

  /**
   * After any history: a paste key is held only in consent mode, on a live connection whose client
   * has announced a clipboard agent, and for that very connection.
   */
  lemma HeldKeyIsThisConnections(cfg: Config, evs: seq<Event>)
    requires After(cfg, evs).clip.held.key != 0
    ensures var s := After(cfg, evs);
            && cfg.mode == ClipIn.Consent && s.link.connected && s.clip.announced
            && s.clip.held.generation == s.link.generation
  {
    AfterInv(cfg, evs);
  }

  /** Everything but an attach leaves the connection as it is or ends it; ending it changes the generation. */
  predicate SameOrEnded(s: Sink, r: Sink) {
    if r.link.connected then s.link.connected && r.link.generation == s.link.generation
    else r.link.generation == s.link.generation + if s.link.connected then 1 else 0
  }

  lemma EmitSameOrEnded(s: Sink, kind: Kind, x: Int32, y: Int32, w0: Uint32, w1: Uint32)
    requires kind != Clipboard
    ensures SameOrEnded(s, Emit(s, kind, x, y, w0, w1))
  {}

  lemma {:induction false} ReleaseFromSameOrEnded(s: Sink, c: nat)
    requires c <= KEY_CNT
    ensures SameOrEnded(s, ReleaseFrom(s, c))
    decreases KEY_CNT - c
  {
    if c < KEY_CNT {
      EmitSameOrEnded(SetKey(s, c, false), EdgeKind(c), c, B(false), 0, 0);
      ReleaseFromSameOrEnded(if c in s.keys.down then KeyEdge(s, EdgeKind(c), c, false) else s, c + 1);
    }
  }

  lemma {:induction false} KeyEdgesSameOrEnded(s: Sink, es: seq<(Code, bool)>)
    ensures SameOrEnded(s, KeyEdges(s, es))
    decreases |es|
  {
    if es != [] {
      EmitSameOrEnded(SetKey(s, es[0].0, es[0].1), Key, es[0].0, B(es[0].1), 0, 0);
      KeyEdgesSameOrEnded(KeyEdge(s, Key, es[0].0, es[0].1), es[1..]);
    }
  }

  lemma SetGrabSameOrEnded(cfg: Config, s: Sink, on: bool, ok: bool)
    ensures SameOrEnded(s, SetGrab(cfg, s, on, ok))
  {
    var s0 := s.(win := s.win.(backendGrab := on));
    ReleaseFromSameOrEnded(s0, 0);
    var s1 := ReleaseAll(s0);
    EmitSameOrEnded(s1.(win := s1.win.(grabbed := on)), Grab, B(on), 0, 0, 0);
  }

  lemma ClipFinishSameOrEnded(s: Sink, generation: nat, paste: bool)
    ensures SameOrEnded(s, ClipFinish(s, generation, paste))
  {
    KeyEdgesSameOrEnded(Unheld(s), Chord(s));
  }

  lemma PasteTriggerSameOrEnded(cfg: Config, s: Sink, fetch: Fetch)
    ensures SameOrEnded(s, PasteTrigger(cfg, s, fetch))
  {
    var g := s.clip.held.generation;
    ClipFinishSameOrEnded(s.(clip := s.clip.(toldOff := true)), g, true);
    ClipFinishSameOrEnded(s, g, true);
    ClipFinishSameOrEnded(s, g, false);
  }

  lemma OnPasteKeySameOrEnded(cfg: Config, s: Sink, t: Trigger, r: KeyReply)
    ensures SameOrEnded(s, OnPasteKey(cfg, s, t, r))
  {
    var s1 := s.(clip := s.clip.(held := Held(t.code, t.ctrl, t.shift, s.link.generation)));
    PasteTriggerSameOrEnded(cfg, s1, r.fetch);
  }

  lemma OnKeySameOrEnded(cfg: Config, s0: Sink, code: nat, down: bool, r: KeyReply)
    ensures SameOrEnded(s0, OnKey(cfg, s0, code, down, r))
  {
    if code < KEY_CNT {
      var s := s0.(keys := s0.keys.(latch := Latched(s0.keys.latch, code, down)));
      var s1 := Consume(s, code);
      if down && IsHotkey(s.keys.latch, code) {
        SetGrabSameOrEnded(cfg, s1, !s1.win.grabbed, r.grabOk);
      } else {
        var t := if down && s.win.focused then PasteKey(cfg, s, code) else [];
        if t != [] {
          OnPasteKeySameOrEnded(cfg, s1, t[0].(code := code), r);
        } else {
          EmitSameOrEnded(SetKey(s, code, down), Key, code, B(down), 0, 0);
        }
      }
    }
  }

  lemma OnFocusSameOrEnded(s: Sink, active: bool)
    ensures SameOrEnded(s, OnFocus(s, active))
  {
    if active {
      EmitSameOrEnded(s.(win := s.win.(focused := true)), Focus, 1, 0, 0, 0);
    } else {
      var s0 := s.(win := Ungrabbed(s.win.(focused := false)));
      ReleaseFromSameOrEnded(s0, 0);
      var s1 := ReleaseAll(s0);
      var s2 := s1.(win := s1.win.(pointerIn := false));
      EmitSameOrEnded(s2, Focus, 0, 0, 0, 0);
      EmitSameOrEnded(Emit(s2, Focus, 0, 0, 0, 0), Grab, 0, 0, 0, 0);
    }
  }

  lemma ReportSameOrEnded(s: Sink, r: Report)
    ensures SameOrEnded(s, OnReport(s, r))
  {
    match r
    case Released(lo, hi) => EmitSameOrEnded(s, Release, 0, 0, lo, hi);
    case Paced => EmitSameOrEnded(s, Frame, 0, 0, 0, 0);
    case Unusable(fourcc, lo, hi) => EmitSameOrEnded(s, Format, 0, Signed(fourcc), lo, hi);
  }

  lemma PointerSameOrEnded(cfg: Config, s: Sink, ev: Event)
    requires ev.EvBtn? || ev.EvAbs? || ev.EvRel? || ev.EvWheel? || ev.EvPointer? || ev.EvSurface?
    ensures SameOrEnded(s, SinkModel.Step(cfg, s, ev))
  {
    var r := SinkModel.Step(cfg, s, ev);
    match ev
    case EvBtn(code, down) => assert r == OnBtn(s, code, down);
    case EvAbs(x, y, w, h) => assert r == OnAbs(s, x, y, w, h);
    case EvRel(dx, dy) => assert r == OnRel(s, dx, dy);
    case EvWheel(v, h) => assert r == OnWheel(s, v, h);
    case EvPointer(inside) => assert r == OnPointer(s, inside);
    case EvSurface(w, h, refresh) => assert r == OnSurface(s, w, h, refresh);
  }

  lemma PlainSameOrEnded(cfg: Config, s: Sink, ev: Event)
    requires !ev.EvAttach? && !ev.EvKey? && !ev.EvFocus? && !ev.EvUngrab? && !ev.EvClipFinish?
    ensures SameOrEnded(s, SinkModel.Step(cfg, s, ev))
  {
    var r := SinkModel.Step(cfg, s, ev);
    match ev
    case EvHangup => assert r == Detach(s);
    case EvFlush(sends) => assert r == OnFlush(s, sends);
    case EvFullscreen(on) => assert r.link == s.link;
    case EvSendClipboard(generation, text) => assert r == SendClipboard(s, generation, text).0;
    case EvCaps(bits) => assert r.link == s.link;
    case EvClipOffered => assert r.link == s.link;
    case EvReport(report) =>
      assert r == OnReport(s, report);
      ReportSameOrEnded(s, report);
    case EvFormat(usable, fourcc, lo, hi) => EmitSameOrEnded(s, Format, B(usable), Signed(fourcc), lo, hi);
    case EvClose(action, sends) => EmitSameOrEnded(s, Close, action, 0, 0, 0);
    case EvBye(reason, sends) => EmitSameOrEnded(s, Bye, reason, 0, 0, 0);
    case EvViolation(sends) => EmitSameOrEnded(s, Bye, 2, 0, 0, 0);
    case _ => PointerSameOrEnded(cfg, s, ev);
  }

  lemma StepSameOrEnded(cfg: Config, s: Sink, ev: Event)
    requires !ev.EvAttach?
    ensures SameOrEnded(s, SinkModel.Step(cfg, s, ev))
  {
    var r := SinkModel.Step(cfg, s, ev);
    match ev
    case EvKey(code, down, reply) =>
      assert r == OnKey(cfg, s, code, down, reply);
      OnKeySameOrEnded(cfg, s, code, down, reply);
    case EvFocus(active) =>
      assert r == OnFocus(s, active);
      OnFocusSameOrEnded(s, active);
    case EvUngrab =>
      assert r == if s.win.grabbed then SetGrab(cfg, s, false, true) else s;
      SetGrabSameOrEnded(cfg, s, false, true);
    case EvClipFinish(generation, paste) =>
      assert r == ClipFinish(s, generation, paste);
      ClipFinishSameOrEnded(s, generation, paste);
    case _ => PlainSameOrEnded(cfg, s, ev);
  }

  /** A generation names one connection for ever: once that has ended, no later state carries its number. */
  lemma {:induction false} GenerationsNeverReturn(cfg: Config, s: Sink, evs: seq<Event>)
    ensures var r := SinkModel.Run(cfg, s, evs);
            && r.link.generation >= s.link.generation
            && (r.link.generation == s.link.generation ==> r.link.connected == s.link.connected)
    decreases |evs|
  {
    if evs != [] {
      if !evs[0].EvAttach? {
        StepSameOrEnded(cfg, s, evs[0]);
      }
      GenerationsNeverReturn(cfg, SinkModel.Step(cfg, s, evs[0]), evs[1..]);
    }
  }

  /** So a completion that arrives after its connection has ended changes nothing, whoever is connected by then. */
  lemma StaleCompletionIgnored(cfg: Config, s: Sink, evs: seq<Event>, more: seq<Event>, paste: bool, text: seq<Byte>)
    requires s.link.connected && !SinkModel.Run(cfg, s, evs).link.connected
    ensures var r := SinkModel.Run(cfg, SinkModel.Run(cfg, s, evs), more);
            ClipFinish(r, s.link.generation, paste) == r && SendClipboard(r, s.link.generation, text) == (r, false)
  {
    GenerationsNeverReturn(cfg, s, evs);
    GenerationsNeverReturn(cfg, SinkModel.Run(cfg, s, evs), more);
  }

  // ---- two things that do not hold -------------------------------------------------------------------

  lemma {:induction false} RunSnoc(cfg: Config, s: Sink, evs: seq<Event>, ev: Event)
    ensures SinkModel.Run(cfg, s, evs + [ev]) == SinkModel.Step(cfg, SinkModel.Run(cfg, s, evs), ev)
    decreases |evs|
  {
    if evs == [] {
      assert evs + [ev] == [ev] && [ev][1..] == [];
    } else {
      assert (evs + [ev])[0] == evs[0] && (evs + [ev])[1..] == evs[1..] + [ev];
      RunSnoc(cfg, SinkModel.Step(cfg, s, evs[0]), evs[1..], ev);
    }
  }

  const PasteConfig := Config(ClipIn.Consent, [Trigger(110, false, false)], 0)
  const PastePressed := EvKey(110, true, KeyReply(true, true, Started))

  const Focused := Initial.(win := Initial.win.(focused := true))

  lemma FocusFirst()
    ensures After(PasteConfig, [EvFocus(true)]) == Focused
  {
    RunSnoc(PasteConfig, Initial, [], EvFocus(true));
    assert [] + [EvFocus(true)] == [EvFocus(true)];
  }

  lemma AttachNext()
    ensures After(PasteConfig, [EvFocus(true)] + [EvAttach(true)]) == Attach(PasteConfig, Focused, true)
  {
    FocusFirst();
    RunSnoc(PasteConfig, Initial, [EvFocus(true)], EvAttach(true));
    AttachStep(Focused);
  }

  lemma AttachStep(s: Sink)
    requires !s.link.connected
    ensures SinkModel.Step(PasteConfig, s, EvAttach(true)) == Attach(PasteConfig, s, true)
  {}

  lemma CapsStep(s: Sink, bits: Uint32)
    requires s.link.connected
    ensures SinkModel.Step(PasteConfig, s, EvCaps(bits)) == OnCaps(s, bits)
  {}

  lemma AnnouncedClient()
    ensures var s := After(PasteConfig, [EvFocus(true)] + [EvAttach(true)] + [EvCaps(1)]);
            s.link.connected && s.win.focused && s.keys == NoKeys && s.clip == Clip(NotHeld, 1, false, true)
  {
    var s := Attach(PasteConfig, Focused, true);
    AttachNext();
    RunSnoc(PasteConfig, Initial, [EvFocus(true)] + [EvAttach(true)], EvCaps(1));
    CapsStep(s, 1);
  }

  lemma PasteKeyHolds(s: Sink)
    requires s.link.connected && s.win.focused && s.keys == NoKeys && s.clip == Clip(NotHeld, 1, false, true)
    ensures var r := SinkModel.Step(PasteConfig, s, PastePressed); r.link.connected && r.clip.held.key == 110
  {
    assert FindTrigger(PasteConfig.triggers, 110, NoLatch) == [PasteConfig.triggers[0]];
  }

  /** A client may take its announcement back while the key is held: what it last said is no guarantee. */
  lemma AgentMayBeWithdrawn()
    ensures var evs := [EvFocus(true)] + [EvAttach(true)] + [EvCaps(1)] + [PastePressed] + [EvCaps(0)];
            After(PasteConfig, evs).clip.held.key != 0 && After(PasteConfig, evs).clip.capsSeen % 2 == 0
  {
    var evs := [EvFocus(true)] + [EvAttach(true)] + [EvCaps(1)];
    AnnouncedClient();
    RunSnoc(PasteConfig, Initial, evs, PastePressed);
    PasteKeyHolds(After(PasteConfig, evs));
    RunSnoc(PasteConfig, Initial, evs + [PastePressed], EvCaps(0));
    CapsStep(After(PasteConfig, evs + [PastePressed]), 0);
  }

  const GrabConfig := Config(ClipIn.Off, [], CAP_FOCUS_EVENTS)

  function Pressing(code: nat): Event {
    EvKey(code, true, KeyReply(true, true, NoFetch))
  }

  /** A modifier pressed without focus is latched and goes no further. */
  lemma LatchedUnfocused(cfg: Config, s: Sink, code: nat)
    requires !s.win.focused && s.keys.consumed == {} && (code == KEY_LEFTCTRL || code == KEY_LEFTALT)
    ensures SinkModel.Step(cfg, s, Pressing(code)) == s.(keys := s.keys.(latch := Latched(s.keys.latch, code, true)))
  {}

  /** A hotkey that works without focus can take a grab with no focus to lose. */
  lemma GrabWithoutFocusHappens()
    ensures var evs := [EvAttach(true)] + [Pressing(KEY_LEFTCTRL)] + [Pressing(KEY_LEFTALT)] + [Pressing(KEY_G)];
            After(GrabConfig, evs).win.grabbed && !After(GrabConfig, evs).win.focused
  {
    var evs1 := [EvAttach(true)];
    var evs2 := evs1 + [Pressing(KEY_LEFTCTRL)];
    var evs3 := evs2 + [Pressing(KEY_LEFTALT)];
    RunSnoc(GrabConfig, Initial, [], EvAttach(true));
    assert [] + [EvAttach(true)] == evs1;
    var s := After(GrabConfig, evs1);
    assert s == Attach(GrabConfig, Initial, true);
    RunSnoc(GrabConfig, Initial, evs1, Pressing(KEY_LEFTCTRL));
    LatchedUnfocused(GrabConfig, s, KEY_LEFTCTRL);
    RunSnoc(GrabConfig, Initial, evs2, Pressing(KEY_LEFTALT));
    LatchedUnfocused(GrabConfig, After(GrabConfig, evs2), KEY_LEFTALT);
    RunSnoc(GrabConfig, Initial, evs3, Pressing(KEY_G));
    BlindGrab(After(GrabConfig, evs3));
    AfterInv(GrabConfig, evs3);
    GrabWithoutFocusIff(GrabConfig, After(GrabConfig, evs3), Pressing(KEY_G));
  }

  lemma BlindGrab(s: Sink)
    requires s.link.connected && s.link.tx.queue == [] && !s.win.focused && s.keys.latch.ctrl && s.keys.latch.alt
    ensures GrabsBlind(GrabConfig, s, Pressing(KEY_G))
  {}
}
