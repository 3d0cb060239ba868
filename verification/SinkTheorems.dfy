// The promises of the policy core, for every history of events.

module SinkTheorems {
  import opened Protocol
  import opened TxQueue
  import opened TxRing
  import opened SinkModel
  import opened SinkSafety

  // ---- the outbound stream ------------------------------------------------------------------

  /**
   * Under every interleaving of emission, coalescing, partial writes and clipboard text, the bytes
   * the client's socket has accepted are whole packets and the first bytes of the one now at the
   * head; the client reads those packets back, and in them and the queue every packet but motion
   * and pacing appears exactly once and in emission order.
   */
  lemma StreamRefinesFifo(cfg: Config, evs: seq<Event>)
    requires After(cfg, evs).link.connected
    ensures var l := After(cfg, evs).link;
            && l.wire == Bytes(l.tx.delivered) + (if l.tx.partial > 0 then Encode(l.tx.queue[0])[..l.tx.partial] else [])
            && ClientReads(l.wire) == l.tx.delivered
            && Sticky(l.tx.delivered + l.tx.queue) == Sticky(l.emitted)
  {
    AfterInv(cfg, evs);
    ClientReadsDelivered(After(cfg, evs).link.tx);
  }

  /** Between two GRAB or FOCUS packets the pointer ends up where the uncoalesced stream would have put it. */
  lemma MotionIsPreserved(cfg: Config, evs: seq<Event>, i: nat)
    requires var l := After(cfg, evs).link; l.connected && i < |Stretches(l.emitted)|
    ensures var l := After(cfg, evs).link;
            var e, w := Stretches(l.emitted), Stretches(l.tx.delivered + l.tx.queue);
            && |w| == |e| && w[i].pos == e[i].pos
            && (Exact(e[i].x) ==> w[i].x.sum == e[i].x.sum)
            && (Exact(e[i].y) ==> w[i].y.sum == e[i].y.sum)
  {
    AfterInv(cfg, evs);
  }

  /**
   * What an emission finds in the ring: at most a quarter of it, untouched; or, coalesced, no more than
   * two packets for every one that may not be dropped, and three.
   */
  lemma LongQueuesAreCoalesced(l: Link)
    requires Faithful(l) && l.connected
    ensures |l.tx.queue| <= 128 ==> l.tx.Relieved() == l.tx
    ensures |l.tx.Relieved().queue| <= 128 || |l.tx.Relieved().queue| <= 2 * |Sticky(l.tx.queue)| + 3
  {
    if |l.tx.queue| > 128 {
      CoalesceBound(l.tx.delivered, l.tx.queue, l.tx.partial);
    }
  }

  /** An emission gives the client up only when its queue is full of packets that may never be dropped. */
  lemma StuckWhenLost(l: Link, p: Pkt)
    requires Faithful(l)
    ensures l.connected && !Transmit(l, p).connected ==> |Sticky(l.tx.queue)| >= 254
  {
    if l.connected && !Transmit(l, p).connected {
      CoalesceBound(l.tx.delivered, l.tx.queue, l.tx.partial);
    }
  }

  predicate IsLoose(ev: Event) {
    ev.EvAbs? || ev.EvRel? || ev == EvReport(Paced) || ev.EvFlush?
  }

  lemma {:induction false} StickySuffix(a: seq<Pkt>, b: seq<Pkt>, a': seq<Pkt>, b': seq<Pkt>)
    requires a + b == a' + b' && |a| <= |a'|
    ensures |Sticky(b')| <= |Sticky(b)|
  {
    var gap := b[..|a'| - |a|];
    assert b == gap + b' by {
      assert b == (a + b)[|a|..] && b' == (a' + b')[|a'|..];
    }
    StickyAppend(gap, b');
  }

  lemma {:induction false} FlushDelivers(t: Tx, sends: seq<Send>)
    requires t.Valid()
    ensures |t.delivered| <= |t.Flush(sends).0.delivered|
    decreases |sends|
  {
    if t.queue != [] && sends != [] {
      var a := t.Attempt(sends[0]);
      if a.2.Again? {
        FlushDelivers(a.0, sends[1..]);
      }
    }
  }

  /** Connected, and below the number of packets that can cost it that. */
  predicate Stays(l: Link) {
    l.connected && |Sticky(l.tx.queue)| < 254
  }

  lemma LooseEmitStays(l: Link, p: Pkt)
    requires Faithful(l) && l.connected && IsMergeable(p)
    ensures |Sticky(l.tx.queue)| < 254
            ==> Transmit(l, p).connected && |Sticky(Transmit(l, p).tx.queue)| == |Sticky(l.tx.queue)|
  {
    StuckWhenLost(l, p);
    if |l.tx.queue| > TXRING / 4 {
      CoalesceKeepsSticky(l.tx.queue, l.tx.partial);
    }
    StickySnoc(l.tx.Relieved().queue, p);
  }

  lemma LooseStepStays(cfg: Config, s: Sink, ev: Event)
    requires Inv(cfg, s) && Stays(s.link) && IsLoose(ev)
    ensures Stays(SinkModel.Step(cfg, s, ev).link)
  {
    var r := SinkModel.Step(cfg, s, ev);
    match ev
    case EvAbs(x, y, w, h) =>
      assert r == OnAbs(s, x, y, w, h);
      LooseEmission(s, Abs, x, y, w, h);
    case EvRel(dx, dy) =>
      assert r == OnRel(s, dx, dy);
      LooseEmission(s, Rel, dx, dy, 0, 0);
    case EvReport(report) =>
      assert r == Emit(s, Frame, 0, 0, 0, 0);
      LooseEmission(s, Frame, 0, 0, 0, 0);
    case EvFlush(sends) =>
      assert r == OnFlush(s, sends);
      LooseWrite(s.link, sends);
  }

  lemma LooseEmission(s: Sink, kind: Kind, x: Int32, y: Int32, w0: Uint32, w1: Uint32)
    requires Faithful(s.link) && Stays(s.link) && (kind == Abs || kind == Rel || kind == Frame)
    ensures Stays(Emit(s, kind, x, y, w0, w1).link)
  {
    LooseEmitStays(s.link, Packet(s, kind, x, y, w0, w1));
  }

  lemma LooseWrite(l: Link, sends: seq<Send>)
    requires Stays(l)
    ensures Stays(Write(l, sends))
  {
    var t := l.tx.Flush(sends).0;
    FlushDelivers(l.tx, sends);
    StickySuffix(l.tx.delivered, l.tx.queue, t.delivered, t.queue);
  }

  /** Motion and pacing alone, however much and however slowly it drains, never costs a client its connection. */
  lemma {:induction false} MotionNeverDisconnects(cfg: Config, s: Sink, evs: seq<Event>)
    requires Inv(cfg, s) && s.link.connected && |Sticky(s.link.tx.queue)| < 254
    requires forall ev <- evs :: IsLoose(ev)
    ensures SinkModel.Run(cfg, s, evs).link.connected
    decreases |evs|
  {
    if evs != [] {
      LooseStepStays(cfg, s, evs[0]);
      StepInv(cfg, s, evs[0]);
      MotionNeverDisconnects(cfg, SinkModel.Step(cfg, s, evs[0]), evs[1..]);
    }
  }

  // ---- keys, focus and grab as the client sees them -------------------------------------------

  /** The keys the client believes are down are the broker's, and a client without focus believes none are. */
  lemma ClientViewAgrees(cfg: Config, evs: seq<Event>)
    requires After(cfg, evs).link.connected
    ensures var s := After(cfg, evs);
            && KeyView(s.link.tx.delivered + s.link.tx.queue) == s.keys.down
            && ModeOf(s.link.tx.delivered + s.link.tx.queue) == Mode(s.win.focused, s.win.grabbed)
            && (!s.win.focused ==> KeyView(s.link.tx.delivered + s.link.tx.queue) == {})
  {
    AfterInv(cfg, evs);
    var l := After(cfg, evs).link;
    ViewsOfSticky(l.tx.Stream());
    ViewsOfSticky(l.emitted);
  }

  /**
   * In the whole stream, coalesced or not: between FOCUS 0 and the next FOCUS 1 there is no key,
   * button, wheel or motion; a delta is sent only under GRAB 1 and a position only under GRAB 0.
   */
  lemma InputIsGated(cfg: Config, evs: seq<Event>, i: nat)
    requires var l := After(cfg, evs).link; l.connected && i < |l.tx.delivered + l.tx.queue|
    ensures var w := After(cfg, evs).link.tx.delivered + After(cfg, evs).link.tx.queue;
            var m, k := ModeOf(w[..i]), w[i].kind;
            && (k == Key || k == Btn || k == Wheel || k == Abs || k == Rel ==> m.focus)
            && (k == Rel ==> m.grab) && (k == Abs ==> !m.grab)
  {
    AfterInv(cfg, evs);
    AdmittedAt(After(cfg, evs).link.tx.Stream(), i);
  }

  /** Whatever loses the client, and wherever: the display-side grab is the sink's, and never outlives the client. */
  lemma GrabNeverOutlivesClient(cfg: Config, evs: seq<Event>)
    ensures var s := After(cfg, evs);
            && s.win.backendGrab == s.win.grabbed
            && (s.win.grabbed ==> s.link.connected && cfg.FocusEvents())
  {
    AfterInv(cfg, evs);
  }

  lemma EmitWindow(s: Sink, kind: Kind, x: Int32, y: Int32, w0: Uint32, w1: Uint32)
    requires kind != Clipboard
    ensures var r := Emit(s, kind, x, y, w0, w1);
            r.win.focused == s.win.focused && (r.win.grabbed ==> s.win.grabbed)
  {}

  lemma {:induction false} ReleaseFromWindow(s: Sink, c: nat)
    requires c <= KEY_CNT
    ensures var r := ReleaseFrom(s, c); r.win.focused == s.win.focused && (r.win.grabbed ==> s.win.grabbed)
    decreases KEY_CNT - c
  {
    if c < KEY_CNT {
      EmitWindow(SetKey(s, c, false), EdgeKind(c), c, B(false), 0, 0);
      ReleaseFromWindow(if c in s.keys.down then KeyEdge(s, EdgeKind(c), c, false) else s, c + 1);
    }
  }

  lemma {:induction false} KeyEdgesWindow(s: Sink, es: seq<(Code, bool)>)
    ensures var r := KeyEdges(s, es); r.win.focused == s.win.focused && (r.win.grabbed ==> s.win.grabbed)
    decreases |es|
  {
    if es != [] {
      EmitWindow(SetKey(s, es[0].0, es[0].1), Key, es[0].0, B(es[0].1), 0, 0);
      KeyEdgesWindow(KeyEdge(s, Key, es[0].0, es[0].1), es[1..]);
    }
  }

  lemma SetGrabFocus(cfg: Config, s: Sink, on: bool, ok: bool)
    ensures SetGrab(cfg, s, on, ok).win.focused == s.win.focused
    ensures !on ==> (SetGrab(cfg, s, on, ok).win.grabbed ==> s.win.grabbed)
  {
    var s0 := s.(win := s.win.(backendGrab := on));
    ReleaseFromWindow(s0, 0);
    var s1 := ReleaseAll(s0);
    EmitWindow(s1.(win := s1.win.(grabbed := on)), Grab, B(on), 0, 0, 0);
  }

  lemma ClipFinishWindow(s: Sink, generation: nat, paste: bool)
    ensures var r := ClipFinish(s, generation, paste);
            r.win.focused == s.win.focused && (r.win.grabbed ==> s.win.grabbed)
  {
    KeyEdgesWindow(Unheld(s), Chord(s));
  }

  lemma PasteTriggerFocus(cfg: Config, s: Sink, fetch: Fetch)
    ensures PasteTrigger(cfg, s, fetch).win.focused == s.win.focused
  {
    var g := s.clip.held.generation;
    ClipFinishWindow(s.(clip := s.clip.(toldOff := true)), g, true);
    ClipFinishWindow(s, g, true);
    ClipFinishWindow(s, g, false);
  }

  lemma OnKeyFocus(cfg: Config, s0: Sink, code: nat, down: bool, r: KeyReply)
    ensures OnKey(cfg, s0, code, down, r).win.focused == s0.win.focused
  {
    if code < KEY_CNT {
      var s := s0.(keys := s0.keys.(latch := Latched(s0.keys.latch, code, down)));
      var s1 := Consume(s, code);
      SetGrabFocus(cfg, s1, !s1.win.grabbed, r.grabOk);
      var t := if down && s.win.focused then PasteKey(cfg, s, code) else [];
      if t != [] {
        PasteTriggerFocus(cfg, s1.(clip := s1.clip.(held := Held(code, t[0].ctrl, t[0].shift, s1.link.generation))), r.fetch);
      }
      EmitWindow(SetKey(s, code, down), Key, code, B(down), 0, 0);
    }
  }

  /** The focus is the same, and no grab was taken. */
  predicate NoMoreGrab(s: Sink, r: Sink) {
    r.win.focused == s.win.focused && (r.win.grabbed ==> s.win.grabbed)
  }

  lemma InputWindow(cfg: Config, s: Sink, ev: Event)
    requires ev.EvBtn? || ev.EvAbs? || ev.EvRel? || ev.EvWheel? || ev.EvPointer? || ev.EvSurface?
    ensures NoMoreGrab(s, SinkModel.Step(cfg, s, ev))
  {
    match ev
    case EvBtn(code, down) =>
    case EvAbs(x, y, w, h) =>
    case EvRel(dx, dy) =>
    case EvWheel(v, h) =>
    case EvPointer(inside) =>
    case EvSurface(w, h, refresh) =>
  }

  lemma SayingWindow(s: Sink, kind: Kind, x: Int32, sends: seq<Send>)
    requires kind != Clipboard
    ensures NoMoreGrab(s, SayAndFlush(s, kind, x, sends)) && NoMoreGrab(s, Detach(SayAndFlush(s, kind, x, sends)))
  {}

  /** Only a focus event changes focus, and only a key takes the grab. */
  lemma StepWindow(cfg: Config, s: Sink, ev: Event)
    requires !ev.EvKey? && !ev.EvFocus?
    ensures NoMoreGrab(s, SinkModel.Step(cfg, s, ev))
  {
    match ev
    case EvUngrab => SetGrabFocus(cfg, s, false, true);
    case EvClipFinish(generation, paste) => ClipFinishWindow(s, generation, paste);
    case EvClose(action, sends) => SayingWindow(s, Close, action, sends);
    case EvBye(reason, sends) => SayingWindow(s, Bye, reason, sends);
    case EvViolation(sends) => SayingWindow(s, Bye, 2, sends);
    case EvReport(r) => ReportWindow(s, r);
    case EvFormat(usable, fourcc, lo, hi) => EmitWindow(s, Format, B(usable), Signed(fourcc), lo, hi);
    case EvAttach(ok) =>
    case EvHangup =>
    case EvFlush(sends) =>
    case EvFullscreen(on) =>
    case EvSendClipboard(generation, text) =>
    case EvCaps(bits) =>
    case EvClipOffered =>
    case _ => InputWindow(cfg, s, ev);
  }

  lemma ReportWindow(s: Sink, r: Report)
    ensures NoMoreGrab(s, OnReport(s, r))
  {}

  lemma FocusLossDropsGrab(s: Sink)
    requires s.win.focused
    ensures !OnFocus(s, false).win.grabbed
  {
    var s0 := s.(win := Ungrabbed(s.win.(focused := false)));
    ReleaseFromWindow(s0, 0);
    var s1 := ReleaseAll(s0);
    var s2 := s1.(win := s1.win.(pointerIn := false));
    EmitWindow(s2, Focus, 0, 0, 0, 0);
    EmitWindow(Emit(s2, Focus, 0, 0, 0, 0), Grab, 0, 0, 0, 0);
  }

  lemma {:induction false} ReleaseNothing(s: Sink, c: nat)
    requires c <= KEY_CNT && s.keys.down == {}
    ensures ReleaseFrom(s, c) == s
    decreases KEY_CNT - c
  {
    if c < KEY_CNT {
      ReleaseNothing(s, c + 1);
    }
  }

  /** The one way to hold a grab without focus: the hotkey, pressed where focus was never seen, and granted. */
  predicate GrabsBlind(cfg: Config, s: Sink, ev: Event) {
    && ev.EvKey? && ev.code == KEY_G && ev.down && s.keys.latch.ctrl && s.keys.latch.alt
    && !s.win.focused && s.link.connected && cfg.FocusEvents() && ev.reply.grabOk
    && !s.link.tx.Relieved().Full()
  }

  lemma UnfocusedKeyGrabs(cfg: Config, s: Sink, code: nat, down: bool, r: KeyReply)
    requires Inv(cfg, s) && !s.win.focused && !s.win.grabbed
    ensures OnKey(cfg, s, code, down, r).win.grabbed <==> GrabsBlind(cfg, s, EvKey(code, down, r))
  {
    if code < KEY_CNT {
      var s1 := Consume(s.(keys := s.keys.(latch := Latched(s.keys.latch, code, down))), code);
      if down && IsHotkey(s1.keys.latch, code) && code == KEY_G && cfg.FocusEvents() && r.grabOk && s.link.connected {
        ReleaseNothing(s1.(win := s1.win.(backendGrab := true)), 0);
      } else if down && IsHotkey(s1.keys.latch, code) && code == KEY_G && cfg.FocusEvents() && r.grabOk {
        ReleaseAllKeeps(s1.(win := s1.win.(backendGrab := true)), Mode(false, false));
      }
    }
  }

  /** A step ends grabbed but unfocused exactly when it took the grab blind. */
  lemma GrabWithoutFocusIff(cfg: Config, s: Sink, ev: Event)
    requires Inv(cfg, s) && (s.win.grabbed ==> s.win.focused)
    ensures var r := SinkModel.Step(cfg, s, ev);
            r.win.grabbed && !r.win.focused <==> GrabsBlind(cfg, s, ev)
  {
    match ev
    case EvKey(code, down, reply) =>
      OnKeyFocus(cfg, s, code, down, reply);
      if !s.win.focused {
        UnfocusedKeyGrabs(cfg, s, code, down, reply);
      }
    case EvFocus(active) =>
      if active && !s.win.focused {
        EmitWindow(s.(win := s.win.(focused := true)), Focus, 1, 0, 0, 0);
      } else if s.win.focused && !active {
        FocusLossDropsGrab(s);
      }
    case _ =>
      StepWindow(cfg, s, ev);
  }

  /** Backends deliver keys only to a focused window. */
  predicate KeysWhileFocused(cfg: Config, s: Sink, evs: seq<Event>)
    decreases |evs|
  {
    evs == []
    || ((evs[0].EvKey? ==> s.win.focused) && KeysWhileFocused(cfg, SinkModel.Step(cfg, s, evs[0]), evs[1..]))
  }

  /** With such a backend, a grab never survives the loss of focus. */
  lemma {:induction false} GrabImpliesFocus(cfg: Config, s: Sink, evs: seq<Event>)
    requires Inv(cfg, s) && (s.win.grabbed ==> s.win.focused) && KeysWhileFocused(cfg, s, evs)
    ensures var r := SinkModel.Run(cfg, s, evs); r.win.grabbed ==> r.win.focused
    decreases |evs|
  {
    if evs != [] {
      GrabWithoutFocusIff(cfg, s, evs[0]);
      StepInv(cfg, s, evs[0]);
      GrabImpliesFocus(cfg, SinkModel.Step(cfg, s, evs[0]), evs[1..]);
    }
  }
}
