// The host text in the stream: exactly the texts that were accepted, each asked for by the user of
// the connection it went to.

module SinkText {
  import opened Protocol
  import opened TxQueue
  import opened TxRing
  import opened SinkModel
  import opened SinkSafety
  import opened SinkTheorems
  import opened SinkPaste
  import opened SinkConsent
  import ClipIn

  // ---- the clipboard packets of a stream -------------------------------------------------------

  function Clips(ps: seq<Pkt>): seq<Pkt> {
    if ps == [] then []
    else Clips(ps[..|ps| - 1]) + if ps[|ps| - 1].kind == Clipboard then [ps[|ps| - 1]] else []
  }

  lemma ClipsSnoc(ps: seq<Pkt>, p: Pkt)
    ensures Clips(ps + [p]) == Clips(ps) + if p.kind == Clipboard then [p] else []
  {
    assert (ps + [p])[..|ps|] == ps;
  }

  lemma {:induction false} ClipsIn(ps: seq<Pkt>, p: Pkt)
    ensures p in Clips(ps) <==> p in ps && p.kind == Clipboard
  {
    if ps != [] {
      var n := |ps| - 1;
      ClipsIn(ps[..n], p);
      assert p in ps <==> p in ps[..n] || p == ps[n];
    }
  }

  lemma {:induction false} ClipsAppend(ps: seq<Pkt>, cs: seq<Pkt>)
    requires forall c <- cs :: c.kind == Clipboard
    ensures Clips(ps + cs) == Clips(ps) + cs
  {
    if cs == [] {
      assert ps + cs == ps;
    } else {
      var n := |cs| - 1;
      assert ps + cs == (ps + cs[..n]) + [cs[n]] && cs == cs[..n] + [cs[n]];
      ClipsSnoc(ps + cs[..n], cs[n]);
      ClipsAppend(ps, cs[..n]);
    }
  }

  lemma {:induction false} ClipPktsAreClips(flags: Uint16, seqno: Uint32, text: seq<Byte>)
    ensures forall c <- ClipPkts(flags, seqno, text) :: c.kind == Clipboard
    decreases |text|
  {
    if |text| > CLIP_PKT_BYTES {
      ClipPktsAreClips(flags, NextSeq(seqno), text[CLIP_PKT_BYTES..]);
    }
  }

  /** Coalescing leaves the clipboard packets alone. */
  lemma {:induction false} ClipsOfSticky(ps: seq<Pkt>)
    ensures Clips(Sticky(ps)) == Clips(ps)
  {
    if ps != [] {
      var n := |ps| - 1;
      ClipsOfSticky(ps[..n]);
      if Kept(ps[n]) == [] {
        assert Sticky(ps[..n]) + [] == Sticky(ps[..n]);
      } else {
        ClipsSnoc(Sticky(ps[..n]), ps[n]);
      }
    }
  }

  // ---- what no step but one adds to ------------------------------------------------------------

  /** The connection is over, or it is the same one with the same text in its stream. */
  predicate SameText(s: Sink, r: Sink) {
    r.link.connected ==> s.link.connected && r.link.generation == s.link.generation
                         && Clips(r.link.emitted) == Clips(s.link.emitted)
  }

  lemma EmitText(s: Sink, kind: Kind, x: Int32, y: Int32, w0: Uint32, w1: Uint32)
    requires kind != Clipboard
    ensures SameText(s, Emit(s, kind, x, y, w0, w1))
  {
    ClipsSnoc(s.link.emitted, Packet(s, kind, x, y, w0, w1));
  }

  lemma KeyEdgeText(s: Sink, kind: Kind, code: Code, down: bool)
    requires kind != Clipboard
    ensures SameText(s, KeyEdge(s, kind, code, down))
  {
    EmitText(SetKey(s, code, down), kind, code, B(down), 0, 0);
  }

  lemma {:induction false} ReleaseText(s: Sink, c: nat)
    requires c <= KEY_CNT
    ensures SameText(s, ReleaseFrom(s, c))
    decreases KEY_CNT - c
  {
    if c < KEY_CNT {
      KeyEdgeText(s, EdgeKind(c), c, false);
      ReleaseText(if c in s.keys.down then KeyEdge(s, EdgeKind(c), c, false) else s, c + 1);
    }
  }

  lemma {:induction false} KeyEdgesText(s: Sink, es: seq<(Code, bool)>)
    ensures SameText(s, KeyEdges(s, es))
    decreases |es|
  {
    if es != [] {
      KeyEdgeText(s, Key, es[0].0, es[0].1);
      KeyEdgesText(KeyEdge(s, Key, es[0].0, es[0].1), es[1..]);
    }
  }

  lemma SetGrabText(cfg: Config, s: Sink, on: bool, ok: bool)
    ensures SameText(s, SetGrab(cfg, s, on, ok))
  {
    var s0 := s.(win := s.win.(backendGrab := on));
    ReleaseText(s0, 0);
    var s1 := ReleaseAll(s0);
    EmitText(s1.(win := s1.win.(grabbed := on)), Grab, B(on), 0, 0, 0);
  }

  lemma ClipFinishText(s: Sink, generation: nat, paste: bool)
    ensures SameText(s, ClipFinish(s, generation, paste))
  {
    KeyEdgesText(Unheld(s), Chord(s));
  }

  lemma PasteTriggerText(cfg: Config, s: Sink, fetch: Fetch)
    ensures SameText(s, PasteTrigger(cfg, s, fetch))
  {
    var g, r := s.clip.held.generation, PasteTrigger(cfg, s, fetch);
    var told := s.(clip := s.clip.(toldOff := true));
    assert r == ClipFinish(told, g, true) || r == ClipFinish(s, g, true) || r == ClipFinish(s, g, false) || r == s;
    ClipFinishText(told, g, true);
    ClipFinishText(s, g, true);
    ClipFinishText(s, g, false);
  }

  lemma PasteKeyText(cfg: Config, s: Sink, t: Trigger, r: KeyReply)
    ensures SameText(s, OnPasteKey(cfg, s, t, r))
  {
    var s1 := s.(clip := s.clip.(held := Held(t.code, t.ctrl, t.shift, s.link.generation)));
    PasteTriggerText(cfg, s1, r.fetch);
  }

  lemma KeyText(cfg: Config, s0: Sink, code: nat, down: bool, r: KeyReply)
    ensures SameText(s0, OnKey(cfg, s0, code, down, r))
  {
    if code < KEY_CNT {
      var s := s0.(keys := s0.keys.(latch := Latched(s0.keys.latch, code, down)));
      var n := OnLatchedKey(cfg, s, code, down, r);
      var t := if down && s.win.focused then PasteKey(cfg, s, code) else [];
      if down && IsHotkey(s.keys.latch, code) {
        assert n == OnHotkey(cfg, Consume(s, code), code, r);
        SetGrabText(cfg, Consume(s, code), !s.win.grabbed, r.grabOk);
      } else if t != [] {
        assert n == OnPasteKey(cfg, Consume(s, code), t[0].(code := code), r);
        PasteKeyText(cfg, Consume(s, code), t[0].(code := code), r);
      } else {
        assert n == OnPlainKey(s, code, down);
        KeyEdgeText(s, Key, code, down);
      }
    }
  }

  lemma FocusText(s: Sink, active: bool)
    ensures SameText(s, OnFocus(s, active))
  {
    if active {
      EmitText(s.(win := s.win.(focused := true)), Focus, 1, 0, 0, 0);
    } else {
      var s0 := s.(win := Ungrabbed(s.win.(focused := false)));
      ReleaseText(s0, 0);
      var s1 := ReleaseAll(s0);
      var s2 := s1.(win := s1.win.(pointerIn := false));
      EmitText(s2, Focus, 0, 0, 0, 0);
      EmitText(Emit(s2, Focus, 0, 0, 0, 0), Grab, 0, 0, 0, 0);
    }
  }

  lemma PointerText(cfg: Config, s: Sink, ev: Event)
    requires ev.EvBtn? || ev.EvAbs? || ev.EvRel? || ev.EvWheel? || ev.EvPointer? || ev.EvSurface?
    ensures SameText(s, SinkModel.Step(cfg, s, ev))
  {
    var r := SinkModel.Step(cfg, s, ev);
    match ev
    case EvBtn(code, down) =>
      assert r == OnBtn(s, code, down);
      if code < KEY_CNT {
        KeyEdgeText(s, Btn, code, down);
      }
    case EvAbs(x, y, w, h) =>
      assert r == OnAbs(s, x, y, w, h);
      EmitText(s, Abs, x, y, w, h);
    case EvRel(dx, dy) =>
      assert r == OnRel(s, dx, dy);
      EmitText(s, Rel, dx, dy, 0, 0);
    case EvWheel(v, h) =>
      assert r == OnWheel(s, v, h);
      EmitText(s, Wheel, v, h, 0, 0);
    case EvPointer(inside) =>
      assert r == OnPointer(s, inside);
      EmitText(s.(win := s.win.(pointerIn := inside)), Pointer, B(inside), 0, 0, 0);
    case EvSurface(w, h, refresh) =>
      assert r == OnSurface(s, w, h, refresh);
      EmitText(s.(win := s.win.(width := w, height := h)), Surface, Signed(w), Signed(h), refresh, 0);
  }

  lemma ReportText(s: Sink, r: Report)
    ensures SameText(s, OnReport(s, r))
  {
    match r
    case Released(lo, hi) => EmitText(s, Release, 0, 0, lo, hi);
    case Paced => EmitText(s, Frame, 0, 0, 0, 0);
    case Unusable(fourcc, lo, hi) => EmitText(s, Format, 0, Signed(fourcc), lo, hi);
  }

  lemma SayText(s: Sink, kind: Kind, x: Int32, sends: seq<Send>)
    requires kind != Clipboard
    ensures SameText(s, SayAndFlush(s, kind, x, sends))
  {
    EmitText(s, kind, x, 0, 0, 0);
  }

  lemma DetachText(s: Sink)
    ensures !Detach(s).link.connected
  {}

  lemma FarewellText(cfg: Config, s: Sink, ev: Event)
    requires ev.EvHangup? || ev.EvClose? || ev.EvBye? || ev.EvViolation?
    ensures SameText(s, SinkModel.Step(cfg, s, ev))
  {
    match ev
    case EvHangup => DetachText(s);
    case EvClose(action, sends) => SayText(s, Close, action, sends);
    case EvBye(reason, sends) => SayText(s, Bye, reason, sends);
    case EvViolation(sends) => DetachText(SayAndFlush(s, Bye, 2, sends));
  }

  lemma AnswerText(cfg: Config, s: Sink, ev: Event)
    requires ev.EvFlush? || ev.EvFullscreen? || ev.EvCaps? || ev.EvClipOffered? || ev.EvReport? || ev.EvFormat?
    ensures SameText(s, SinkModel.Step(cfg, s, ev))
  {
    var r := SinkModel.Step(cfg, s, ev);
    match ev
    case EvFlush(sends) => assert r == OnFlush(s, sends);
    case EvFullscreen(on) => assert r.link == s.link;
    case EvCaps(bits) => assert r.link == s.link;
    case EvClipOffered => assert r.link == s.link;
    case EvReport(report) =>
      assert r == OnReport(s, report);
      ReportText(s, report);
    case EvFormat(usable, fourcc, lo, hi) =>
      assert r == OnFormat(s, usable, fourcc, lo, hi);
      EmitText(s, Format, B(usable), Signed(fourcc), lo, hi);
  }

  /** No other step touches the text of a connection. */
  lemma OtherText(cfg: Config, s: Sink, ev: Event)
    requires !ev.EvAttach? && !ev.EvSendClipboard?
    ensures SameText(s, SinkModel.Step(cfg, s, ev))
  {
    var r := SinkModel.Step(cfg, s, ev);
    match ev
    case EvKey(code, down, reply) =>
      assert r == OnKey(cfg, s, code, down, reply);
      KeyText(cfg, s, code, down, reply);
    case EvFocus(active) =>
      assert r == OnFocus(s, active);
      FocusText(s, active);
    case EvUngrab => SetGrabText(cfg, s, false, true);
    case EvClipFinish(generation, paste) =>
      assert r == ClipFinish(s, generation, paste);
      ClipFinishText(s, generation, paste);
    case EvBtn(_, _) => PointerText(cfg, s, ev);
    case EvAbs(_, _, _, _) => PointerText(cfg, s, ev);
    case EvRel(_, _) => PointerText(cfg, s, ev);
    case EvWheel(_, _) => PointerText(cfg, s, ev);
    case EvPointer(_) => PointerText(cfg, s, ev);
    case EvSurface(_, _, _) => PointerText(cfg, s, ev);
    case EvHangup => FarewellText(cfg, s, ev);
    case EvClose(_, _) => FarewellText(cfg, s, ev);
    case EvBye(_, _) => FarewellText(cfg, s, ev);
    case EvViolation(_) => FarewellText(cfg, s, ev);
    case _ => AnswerText(cfg, s, ev);
  }

  // ---- one step ---------------------------------------------------------------------------------

  /** A text is offered and taken. */
  predicate Sends(s: Sink, ev: Event) {
    ev.EvSendClipboard? && SendClipboard(s, ev.generation, ev.text).1
  }

  /** What a step adds to the text of the connection it leaves. */
  function Chunks(s: Sink, ev: Event): seq<Pkt> {
    if Sends(s, ev) then ClipPkts(Flags(s.win), s.link.seqno, ev.text) else []
  }

  lemma SendText(s: Sink, ev: Event)
    requires ev.EvSendClipboard?
    ensures var r := SendClipboard(s, ev.generation, ev.text).0;
            r.link.connected ==> s.link.connected && r.link.generation == s.link.generation
                                 && Clips(r.link.emitted) == Clips(s.link.emitted) + Chunks(s, ev)
  {
    if Sends(s, ev) {
      ClipPktsAreClips(Flags(s.win), s.link.seqno, ev.text);
      ClipsAppend(s.link.emitted, Chunks(s, ev));
    }
  }

  lemma HandshakeText(cfg: Config, w: Window)
    ensures Clips(Handshake(cfg, w)) == []
  {
    var hs := Handshake(cfg, w);
    if Clips(hs) != [] {
      ClipsIn(hs, Clips(hs)[0]);
    }
  }

  /** One step leaves a connection with the text it had and the chunks of a text it took; a new one has none. */
  lemma StepText(cfg: Config, s: Sink, ev: Event)
    ensures var r := SinkModel.Step(cfg, s, ev);
            r.link.connected ==>
              if r.link.generation == s.link.generation
              then s.link.connected && Clips(r.link.emitted) == Clips(s.link.emitted) + Chunks(s, ev)
              else Clips(r.link.emitted) == []
  {
    if ev.EvAttach? {
      HandshakeText(cfg, Ungrabbed(s.win));
    } else if ev.EvSendClipboard? {
      SendText(s, ev);
    } else {
      OtherText(cfg, s, ev);
    }
  }

  // ---- whole histories --------------------------------------------------------------------------

  /** The texts taken on the connection a history ends with, in chunks, in order. */
  function TextSent(cfg: Config, evs: seq<Event>): seq<Pkt> {
    if evs == [] then []
    else
      var n := |evs| - 1;
      var s := After(cfg, evs[..n]);
      if After(cfg, evs).link.generation != s.link.generation then []
      else TextSent(cfg, evs[..n]) + Chunks(s, evs[n])
  }

  lemma {:induction false} EmittedText(cfg: Config, evs: seq<Event>)
    requires After(cfg, evs).link.connected
    ensures Clips(After(cfg, evs).link.emitted) == TextSent(cfg, evs)
    decreases |evs|
  {
    if evs != [] {
      var n := |evs| - 1;
      var s := After(cfg, evs[..n]);
      assert evs == evs[..n] + [evs[n]];
      RunSnoc(cfg, Initial, evs[..n], evs[n]);
      StepText(cfg, s, evs[n]);
      if After(cfg, evs).link.generation == s.link.generation {
        EmittedText(cfg, evs[..n]);
      }
    }
  }

  /** What the client has or will receive, and what was emitted, have the same text. */
  lemma StreamText(l: Link)
    requires Faithful(l) && l.connected
    ensures Clips(l.tx.delivered + l.tx.queue) == Clips(l.emitted)
  {
    ClipsOfSticky(l.tx.delivered + l.tx.queue);
    ClipsOfSticky(l.emitted);
  }

  /**
   * After any history: the clipboard packets the client has or will receive are the chunks of the
   * texts taken for it, all of them, in order, and nothing else.
   */
  lemma TextIsWhatWasSent(cfg: Config, evs: seq<Event>)
    requires After(cfg, evs).link.connected
    ensures var l := After(cfg, evs).link; Clips(l.tx.delivered + l.tx.queue) == TextSent(cfg, evs)
  {
    AfterInv(cfg, evs);
    StreamText(After(cfg, evs).link);
    EmittedText(cfg, evs);
  }

  /**
   * Event `i` took a text that `p` is a chunk of: on the connection the history ends with, while a key
   * was held that the user of that connection had pressed for it.
   */
  ghost predicate SentAt(cfg: Config, evs: seq<Event>, i: int, p: Pkt) {
    && 0 <= i < |evs| && Sends(After(cfg, evs[..i]), evs[i]) && p in Chunks(After(cfg, evs[..i]), evs[i])
    && After(cfg, evs[..i]).link.generation == After(cfg, evs).link.generation && After(cfg, evs[..i]).clip.announced
    && exists j :: HeldSince(cfg, evs[..i], j)
  }

  lemma SentJustNow(cfg: Config, evs: seq<Event>, p: Pkt)
    requires evs != [] && p in Chunks(After(cfg, evs[..|evs| - 1]), evs[|evs| - 1])
    requires After(cfg, evs[..|evs| - 1]).link.generation == After(cfg, evs).link.generation
    ensures SentAt(cfg, evs, |evs| - 1, p)
  {
    var n := |evs| - 1;
    AcceptedWasAskedFor(cfg, evs[..n], evs[n].generation, evs[n].text);
  }

  lemma SentBefore(cfg: Config, evs: seq<Event>, i: int, p: Pkt)
    requires evs != [] && SentAt(cfg, evs[..|evs| - 1], i, p)
    requires After(cfg, evs[..|evs| - 1]).link.generation == After(cfg, evs).link.generation
    ensures SentAt(cfg, evs, i, p)
  {
    assert evs[..|evs| - 1][..i] == evs[..i];
  }

  lemma {:induction false} ChunkWasSent(cfg: Config, evs: seq<Event>, p: Pkt)
    requires p in TextSent(cfg, evs)
    ensures exists i :: SentAt(cfg, evs, i, p)
  {
    var n := |evs| - 1;
    if p in Chunks(After(cfg, evs[..n]), evs[n]) {
      SentJustNow(cfg, evs, p);
    } else {
      ChunkWasSent(cfg, evs[..n], p);
      var i :| SentAt(cfg, evs[..n], i, p);
      SentBefore(cfg, evs, i, p);
    }
  }

  /**
   * Host text reaches only the connection whose own user pressed the paste key, in consent mode: every
   * clipboard packet the client has or will receive goes back to such a press, held until its text was taken.
   */
  lemma TextGoesToItsOwner(cfg: Config, evs: seq<Event>, p: Pkt)
    requires var l := After(cfg, evs).link; l.connected && p.kind == Clipboard && p in l.tx.delivered + l.tx.queue
    ensures cfg.mode == ClipIn.Consent && exists i :: SentAt(cfg, evs, i, p)
  {
    var l := After(cfg, evs).link;
    TextIsWhatWasSent(cfg, evs);
    ClipsIn(l.tx.delivered + l.tx.queue, p);
    ChunkWasSent(cfg, evs, p);
    var i :| SentAt(cfg, evs, i, p);
    AcceptedWasAskedFor(cfg, evs[..i], evs[i].generation, evs[i].text);
  }
}
