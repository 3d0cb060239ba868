// What every step of the policy core keeps, over whole runs.

module SinkSafety {
  import opened Protocol
  import opened TxQueue
  import opened TxRing
  import opened SinkModel
  import ClipIn

  // ---- the invariant ------------------------------------------------------------------

  /** The stream is the emitted one, but for merged motion and pacing, and admissible throughout. */
  predicate Renders(stream: seq<Pkt>, emitted: seq<Pkt>) {
    && Sticky(stream) == Sticky(emitted)
    && SameJourney(Stretches(stream), Stretches(emitted))
    && Admitted(stream)
  }

  /** What the socket has accepted: the delivered packets whole, and the first bytes of the one at the head. */
  predicate Wired(l: Link) {
    l.connected ==> l.wire == l.tx.Wire()
  }

  predicate Faithful(l: Link) {
    Wired(l) && (l.connected ==> Renders(l.tx.Stream(), l.emitted))
  }

  predicate InRange(keys: set<int>) {
    forall c :: c in keys ==> 0 <= c < KEY_CNT
  }

  /** What the client believes: these keys down, this focus and grab. */
  predicate Believes(l: Link, down: set<int>, m: Mode) {
    l.connected ==> KeyView(l.emitted) == down && ModeOf(l.emitted) == m
  }

  /** The client's own view of its keys, and of focus and grab, is the broker's. */
  predicate Agreed(s: Sink) {
    && InRange(s.keys.down)
    && Believes(s.link, s.keys.down, Mode(s.win.focused, s.win.grabbed))
    && (s.link.connected && !s.win.focused ==> s.keys.down == {})
  }

  /** The display-side grab is the sink's, and it is never held without a client or without focus events. */
  predicate GrabSafe(cfg: Config, s: Sink) {
    s.win.backendGrab == s.win.grabbed && (s.win.grabbed ==> s.link.connected && cfg.FocusEvents())
  }

  /** A held paste key belongs to this connection, in consent mode, with an agent announced. */
  predicate HeldSafe(cfg: Config, s: Sink) {
    && s.clip.held.key < KEY_CNT
    && (s.clip.held.key != 0 ==>
          && cfg.mode == ClipIn.Consent && s.link.connected
          && s.clip.announced && s.clip.held.generation == s.link.generation)
    && (s.link.connected && s.clip.capsSeen % 2 == 1 ==> s.clip.announced)
  }

  predicate Inv(cfg: Config, s: Sink) {
    Faithful(s.link) && Agreed(s) && GrabSafe(cfg, s) && HeldSafe(cfg, s)
  }

  // ---- emission -------------------------------------------------------------------------

  lemma RelievedUnobserved(t: Tx)
    requires t.Valid()
    ensures Sticky(t.Relieved().Stream()) == Sticky(t.Stream())
    ensures SameJourney(Stretches(t.Relieved().Stream()), Stretches(t.Stream()))
    ensures Admitted(t.Stream()) ==> Admitted(t.Relieved().Stream())
  {
    if |t.queue| > TXRING / 4 {
      CoalesceUnobserved(t.delivered, t.queue, t.partial);
    } else {
      SameJourneyReflexive(Stretches(t.Stream()));
    }
  }

  lemma PushFaithful(stream: seq<Pkt>, emitted: seq<Pkt>, p: Pkt)
    requires Renders(stream, emitted) && Admits(ModeOf(emitted), p)
    ensures Renders(stream + [p], emitted + [p])
  {
    ViewsOfSticky(stream);
    ViewsOfSticky(emitted);
    StickySnoc(stream, p);
    StickySnoc(emitted, p);
    SameJourneyAppend(stream, emitted, [p]);
    AdmittedSnoc(stream, p);
  }

  /** `l'` is `l` with packet `p` on its way, or closed for want of room. */
  predicate Sent(l: Link, p: Pkt, l': Link) {
    if !l.connected then l' == l
    else if l'.connected
    then l'.generation == l.generation && l'.wire == l.wire && l'.emitted == l.emitted + [p]
    else l' == Ended(l)
  }

  lemma TransmitSends(l: Link, p: Pkt)
    ensures Sent(l, p, Transmit(l, p))
  {}

  /** A packet half sent keeps its place and its bytes, whatever is merged behind it. */
  lemma RelievedWire(t: Tx)
    requires t.Valid()
    ensures t.Relieved().Wire() == t.Wire()
  {
    CoalesceSize(t.queue, t.partial);
  }

  /** Nothing that is only queued moves the wire. */
  lemma QueuedWire(t: Tx, ps: seq<Pkt>)
    requires t.Valid() && |t.queue| + |ps| < TXRING
    ensures t.(queue := t.queue + ps).Wire() == t.Wire()
  {}

  lemma TransmitWired(l: Link, p: Pkt)
    requires Wired(l)
    ensures Wired(Transmit(l, p))
  {
    if l.connected {
      RelievedWire(l.tx);
      if !l.tx.Relieved().Full() {
        QueuedWire(l.tx.Relieved(), [p]);
      }
    }
  }

  lemma TransmitFaithful(l: Link, p: Pkt)
    requires Faithful(l) && (l.connected ==> Admits(ModeOf(l.emitted), p))
    ensures Faithful(Transmit(l, p))
  {
    TransmitWired(l, p);
    if l.connected {
      var t := l.tx.Relieved();
      RelievedUnobserved(l.tx);
      SameJourneyTransitive(Stretches(t.Stream()), Stretches(l.tx.Stream()), Stretches(l.emitted));
      PushFaithful(t.Stream(), l.emitted, p);
      if !t.Full() {
        assert t.Push(p).Stream() == t.Stream() + [p];
      }
    }
  }

  /** Nothing of the connection has changed but what is queued. */
  predicate SameConnection(s: Sink, r: Sink) {
    r.link.generation == s.link.generation && r.link.wire == s.link.wire
  }

  /** The same link, or the connection lost. */
  predicate Survives(s: Sink, r: Sink) {
    if !s.link.connected then r == s
    else if r.link.connected then SameConnection(s, r) && r == s.(link := r.link)
    else r == Detach(s)
  }

  lemma EmitKeeps(s: Sink, kind: Kind, x: Int32, y: Int32, w0: Uint32, w1: Uint32)
    requires kind != Clipboard && Faithful(s.link)
    requires s.link.connected ==> Admits(ModeOf(s.link.emitted), Packet(s, kind, x, y, w0, w1))
    ensures Faithful(Emit(s, kind, x, y, w0, w1).link)
    ensures Sent(s.link, Packet(s, kind, x, y, w0, w1), Emit(s, kind, x, y, w0, w1).link)
    ensures Survives(s, Emit(s, kind, x, y, w0, w1))
  {
    TransmitSends(s.link, Packet(s, kind, x, y, w0, w1));
    TransmitFaithful(s.link, Packet(s, kind, x, y, w0, w1));
  }

  lemma SentBelieves(l: Link, p: Pkt, l': Link, down: set<int>, m: Mode)
    requires Sent(l, p, l') && Believes(l, down, m)
    ensures Believes(l', Edge(down, p), Switch(m, p))
  {}

  // ---- key edges ------------------------------------------------------------------------

  /** A consistent moment inside an operation: the client believes `m`, and what the broker has down. */
  predicate Midway(s: Sink, m: Mode) {
    && Faithful(s.link) && InRange(s.keys.down)
    && Believes(s.link, s.keys.down, m)
    && (s.link.connected && s.keys.down != {} ==> m.focus)
  }

  lemma MidwayAfterEdge(s: Sink, code: Code, down: bool, p: Pkt, r: Sink, m: Mode)
    requires Midway(s, m) && code < KEY_CNT && (s.link.connected ==> m.focus)
    requires (p.kind == Key || p.kind == Btn) && p.body == Args(code, B(down), 0, 0)
    requires Faithful(r.link) && Sent(s.link, p, r.link) && Survives(SetKey(s, code, down), r)
    ensures Midway(r, m)
  {
    SentBelieves(s.link, p, r.link, s.keys.down, m);
  }

  lemma KeyEdgeKeeps(s: Sink, kind: Kind, code: Code, down: bool, m: Mode)
    requires Midway(s, m) && (kind == Key || kind == Btn) && code < KEY_CNT && (s.link.connected ==> m.focus)
    ensures Midway(KeyEdge(s, kind, code, down), m)
    ensures Survives(SetKey(s, code, down), KeyEdge(s, kind, code, down))
  {
    var s1 := SetKey(s, code, down);
    EmitKeeps(s1, kind, code, B(down), 0, 0);
    MidwayAfterEdge(s, code, down, Packet(s1, kind, code, B(down), 0, 0), KeyEdge(s, kind, code, down), m);
  }

  /** Nothing is left down, whatever became of the connection on the way. */
  predicate Released(s: Sink, r: Sink) {
    if !s.link.connected then r == s.(keys := s.keys.(down := {}))
    else if r.link.connected
    then SameConnection(s, r) && r == s.(link := r.link, keys := s.keys.(down := {}))
    else r == Detach(s)
  }

  lemma ReleasedAfterEdge(s: Sink, c: Code, s1: Sink, r: Sink)
    requires Survives(SetKey(s, c, false), s1) && Released(s1, r)
    ensures Released(s, r)
  {}

  lemma {:induction false} ReleaseFromKeeps(s: Sink, c: nat, m: Mode)
    requires Midway(s, m) && c <= KEY_CNT && forall k :: k in s.keys.down ==> c <= k
    ensures Midway(ReleaseFrom(s, c), m) && Released(s, ReleaseFrom(s, c))
    decreases KEY_CNT - c
  {
    if c == KEY_CNT {
      assert forall k :: k !in s.keys.down;
      assert s.keys.down == {};
    } else if c in s.keys.down {
      var s1 := KeyEdge(s, EdgeKind(c), c, false);
      var r := ReleaseFrom(s1, c + 1);
      KeyEdgeKeeps(s, EdgeKind(c), c, false, m);
      assert Midway(r, m) && Released(s1, r) by {
        ReleaseFromKeeps(s1, c + 1, m);
      }
      ReleasedAfterEdge(s, c, s1, r);
    } else {
      ReleaseFromKeeps(s, c + 1, m);
    }
  }

  // ---- every entry point keeps the invariant ----------------------------------------------

  lemma DetachInv(cfg: Config, s: Sink)
    requires s.link.connected && s.win.backendGrab == s.win.grabbed
    ensures Inv(cfg, Detach(s))
  {}

  /** A packet that is not a key edge, sent from a moment that is consistent once it is out. */
  lemma EmitInv(cfg: Config, s: Sink, kind: Kind, x: Int32, y: Int32, w0: Uint32, w1: Uint32, m: Mode)
    requires kind != Clipboard && kind != Key && kind != Btn
    requires Midway(s, m) && GrabSafe(cfg, s) && HeldSafe(cfg, s)
    requires s.link.connected ==>
               && Admits(m, Packet(s, kind, x, y, w0, w1))
               && Switch(m, Packet(s, kind, x, y, w0, w1)) == Mode(s.win.focused, s.win.grabbed)
               && (!s.win.focused ==> s.keys.down == {})
    ensures Inv(cfg, Emit(s, kind, x, y, w0, w1))
  {
    var p, r := Packet(s, kind, x, y, w0, w1), Emit(s, kind, x, y, w0, w1);
    EmitKeeps(s, kind, x, y, w0, w1);
    SentBelieves(s.link, p, r.link, s.keys.down, m);
    if s.link.connected && !r.link.connected {
      DetachInv(cfg, s);
    }
  }

  /** The common case: nothing but the packet changes. */
  lemma PlainEmitInv(cfg: Config, s: Sink, kind: Kind, x: Int32, y: Int32, w0: Uint32, w1: Uint32)
    requires kind != Clipboard && kind != Key && kind != Btn && kind != Focus && kind != Grab
    requires Inv(cfg, s) && (s.link.connected ==> Admits(Mode(s.win.focused, s.win.grabbed), Packet(s, kind, x, y, w0, w1)))
    ensures Inv(cfg, Emit(s, kind, x, y, w0, w1))
  {
    EmitInv(cfg, s, kind, x, y, w0, w1, Mode(s.win.focused, s.win.grabbed));
  }

  lemma KeyEdgeInv(cfg: Config, s: Sink, kind: Kind, code: Code, down: bool)
    requires Inv(cfg, s) && (kind == Key || kind == Btn) && code < KEY_CNT && s.win.focused
    ensures Inv(cfg, KeyEdge(s, kind, code, down))
  {
    KeyEdgeKeeps(s, kind, code, down, Mode(s.win.focused, s.win.grabbed));
    if s.link.connected && !KeyEdge(s, kind, code, down).link.connected {
      DetachInv(cfg, SetKey(s, code, down));
    }
  }

  /** nb_release_all leaves nothing down and nothing latched, or has lost the client. */
  predicate AllReleased(s: Sink, r: Sink) {
    var keys := Keys(NoLatch, {}, s.keys.consumed);
    if !s.link.connected then r == s.(keys := keys)
    else if r.link.connected then SameConnection(s, r) && r == s.(link := r.link, keys := keys)
    else r == Detach(s)
  }

  lemma ReleaseAllKeeps(s: Sink, m: Mode)
    requires Midway(s, m)
    ensures Midway(ReleaseAll(s), m) && AllReleased(s, ReleaseAll(s))
  {
    ReleaseFromKeeps(s, 0, m);
  }

  /**
   * Taking or dropping the grab: the releases go out first, and may lose the client -- which would
   * leave the display-side grab behind, were it not given back afterwards.
   */
  lemma SetGrabInv(cfg: Config, s: Sink, on: bool, ok: bool)
    requires Inv(cfg, s)
    ensures Inv(cfg, SetGrab(cfg, s, on, ok))
  {
    if s.win.grabbed != on && (on ==> cfg.FocusEvents() && ok) {
      var m := Mode(s.win.focused, s.win.grabbed);
      var s0 := s.(win := s.win.(backendGrab := on));
      ReleaseAllKeeps(s0, m);
      var s1 := ReleaseAll(s0);
      var s2 := s1.(win := s1.win.(grabbed := on));
      if s2.link.connected {
        EmitInv(cfg, s2, Grab, B(on), 0, 0, 0, m);
      } else {
        LostWhileGrabbing(cfg, s, on, s1);
      }
    }
  }

  lemma LostWhileGrabbing(cfg: Config, s: Sink, on: bool, s1: Sink)
    requires Inv(cfg, s) && s.win.grabbed != on
    ensures !s1.link.connected && AllReleased(s.(win := s.win.(backendGrab := on)), s1)
            ==> && Inv(cfg, s1.(win := s1.win.(backendGrab := false, grabbed := false)))
                && (!on ==> !s1.win.backendGrab)
  {}

  lemma OnFocusInv(cfg: Config, s: Sink, active: bool)
    requires Inv(cfg, s)
    ensures Inv(cfg, OnFocus(s, active))
  {
    if s.win.focused != active {
      var m := Mode(s.win.focused, s.win.grabbed);
      if active {
        EmitInv(cfg, s.(win := s.win.(focused := true)), Focus, 1, 0, 0, 0, m);
      } else {
        var s0 := s.(win := Ungrabbed(s.win.(focused := false)));
        ReleaseAllKeeps(s0, m);
        var s1 := ReleaseAll(s0);
        FocusLostInv(cfg, s1.(win := s1.win.(pointerIn := false)), m);
      }
    }
  }

  /** FOCUS 0 and GRAB 0, after everything was released. */
  lemma FocusLostInv(cfg: Config, s: Sink, m: Mode)
    requires Midway(s, m) && GrabSafe(cfg, s) && HeldSafe(cfg, s)
    requires !s.win.focused && !s.win.grabbed && (s.link.connected ==> s.keys.down == {})
    ensures Inv(cfg, Emit(Emit(s, Focus, 0, 0, 0, 0), Grab, 0, 0, 0, 0))
  {
    var r := Emit(s, Focus, 0, 0, 0, 0);
    FocusLostMidway(cfg, s, m, r);
    EmitInv(cfg, r, Grab, 0, 0, 0, 0, Mode(false, m.grab));
  }

  lemma FocusLostMidway(cfg: Config, s: Sink, m: Mode, r: Sink)
    requires Midway(s, m) && GrabSafe(cfg, s) && HeldSafe(cfg, s)
    requires !s.win.focused && !s.win.grabbed && (s.link.connected ==> s.keys.down == {})
    requires r == Emit(s, Focus, 0, 0, 0, 0)
    ensures Midway(r, Mode(false, m.grab)) && GrabSafe(cfg, r) && HeldSafe(cfg, r)
    ensures !r.win.focused && !r.win.grabbed && (r.link.connected ==> r.keys.down == {})
  {
    var p := Packet(s, Focus, 0, 0, 0, 0);
    EmitKeeps(s, Focus, 0, 0, 0, 0);
    SentBelieves(s.link, p, r.link, s.keys.down, m);
    if s.link.connected && !r.link.connected {
      DetachInv(cfg, s);
    }
  }

  // ---- the paste key -----------------------------------------------------------------------

  lemma {:induction false} KeyEdgesInv(cfg: Config, s: Sink, es: seq<(Code, bool)>)
    requires Inv(cfg, s) && s.win.focused && forall e <- es :: e.0 < KEY_CNT
    ensures Inv(cfg, KeyEdges(s, es))
    decreases |es|
  {
    if es != [] {
      KeyEdgeInv(cfg, s, Key, es[0].0, es[0].1);
      KeyEdgeFocused(s, es[0].0, es[0].1);
      KeyEdgesInv(cfg, KeyEdge(s, Key, es[0].0, es[0].1), es[1..]);
    }
  }

  lemma KeyEdgeFocused(s: Sink, code: Code, down: bool)
    ensures KeyEdge(s, Key, code, down).win.focused == s.win.focused
  {}

  function Unheld(s: Sink): Sink {
    s.(clip := s.clip.(held := NotHeld))
  }

  /** Finishing needs no more of the held key than that it is this connection's. */
  lemma ClipFinishInv(cfg: Config, s: Sink, generation: nat, paste: bool)
    requires Inv(cfg, Unheld(s)) && s.clip.held.key < KEY_CNT
    requires s.clip.held.key == 0 || Current(s, generation) || HeldSafe(cfg, s)
    ensures Inv(cfg, ClipFinish(s, generation, paste))
  {
    if Current(s, generation) && paste && s.win.focused {
      KeyEdgesInv(cfg, Unheld(s), Chord(s));
    }
  }

  lemma PasteTriggerInv(cfg: Config, s: Sink, fetch: Fetch)
    requires Inv(cfg, Unheld(s)) && s.clip.held.key < KEY_CNT && s.clip.held.generation == s.link.generation
    ensures Inv(cfg, PasteTrigger(cfg, s, fetch))
  {
    var g := s.clip.held.generation;
    if cfg.mode != ClipIn.Consent {
      ClipFinishInv(cfg, s.(clip := s.clip.(toldOff := true)), g, true);
    } else {
      ClipFinishInv(cfg, s, g, true);
      ClipFinishInv(cfg, s, g, false);
    }
  }

  lemma OnKeyInv(cfg: Config, s0: Sink, code: nat, down: bool, r: KeyReply)
    requires Inv(cfg, s0)
    ensures Inv(cfg, OnKey(cfg, s0, code, down, r))
  {
    if code < KEY_CNT {
      var s := s0.(keys := s0.keys.(latch := Latched(s0.keys.latch, code, down)));
      assert Inv(cfg, s) && Inv(cfg, Consume(s, code));
      if down && IsHotkey(s.keys.latch, code) {
        SetGrabInv(cfg, Consume(s, code), !s.win.grabbed, r.grabOk);
      } else {
        var t := if down && s.win.focused then PasteKey(cfg, s, code) else [];
        if t != [] {
          OnPasteKeyInv(cfg, Consume(s, code), t[0].(code := code), r);
        } else if s.win.focused {
          KeyEdgeInv(cfg, s, Key, code, down);
        }
      }
    }
  }

  lemma OnPasteKeyInv(cfg: Config, s: Sink, t: Trigger, r: KeyReply)
    requires Inv(cfg, s) && t.code < KEY_CNT
    ensures Inv(cfg, OnPasteKey(cfg, s, t, r))
  {
    if s.clip.held.key == 0 {
      var s1 := s.(clip := s.clip.(held := Held(t.code, t.ctrl, t.shift, s.link.generation)));
      PasteTriggerInv(cfg, s1, r.fetch);
    }
  }

  // ---- host clipboard text ------------------------------------------------------------------

  lemma {:induction false} AppendRenders(stream: seq<Pkt>, emitted: seq<Pkt>, ps: seq<Pkt>)
    requires Renders(stream, emitted) && forall p <- ps :: p.kind == Clipboard
    ensures Renders(stream + ps, emitted + ps)
    decreases |ps|
  {
    if ps == [] {
      assert stream + ps == stream && emitted + ps == emitted;
    } else {
      var w, e := stream + [ps[0]], emitted + [ps[0]];
      assert w + ps[1..] == stream + ps && e + ps[1..] == emitted + ps;
      assert Renders(w, e) by { PushFaithful(stream, emitted, ps[0]); }
      AppendRenders(w, e, ps[1..]);
    }
  }

  lemma {:induction false} AppendViews(emitted: seq<Pkt>, ps: seq<Pkt>)
    requires forall p <- ps :: p.kind == Clipboard
    ensures KeyView(emitted + ps) == KeyView(emitted) && ModeOf(emitted + ps) == ModeOf(emitted)
  {
    if ps == [] {
      assert emitted + ps == emitted;
    } else {
      var ps', p := ps[..|ps| - 1], ps[|ps| - 1];
      AppendViews(emitted, ps');
      ViewsSnoc(emitted + ps', p);
      assert emitted + ps == (emitted + ps') + [p];
    }
  }

  lemma {:induction false} ClipPktsKind(flags: Uint16, seqno: Uint32, text: seq<Byte>)
    ensures forall p <- ClipPkts(flags, seqno, text) :: p.kind == Clipboard
    decreases |text|
  {
    if |text| > CLIP_PKT_BYTES {
      ClipPktsKind(flags, NextSeq(seqno), text[CLIP_PKT_BYTES..]);
    }
  }

  lemma AppendKeeps(l: Link, ps: seq<Pkt>, down: set<int>, m: Mode)
    requires l.connected && |l.tx.queue| + |ps| < TXRING && forall p <- ps :: p.kind == Clipboard
    requires Faithful(l) && Believes(l, down, m)
    ensures Faithful(Append(l, ps)) && Believes(Append(l, ps), down, m)
  {
    AppendRenders(l.tx.Stream(), l.emitted, ps);
    AppendViews(l.emitted, ps);
    Associate(l.tx.delivered, l.tx.queue, ps);
    QueuedWire(l.tx, ps);
  }

  lemma SendClipboardInv(cfg: Config, s: Sink, generation: nat, text: seq<Byte>)
    requires Inv(cfg, s)
    ensures Inv(cfg, SendClipboard(s, generation, text).0)
  {
    if CanSend(s, generation, |text|) {
      ClipPktsKind(Flags(s.win), s.link.seqno, text);
      AppendKeeps(s.link, ClipPkts(Flags(s.win), s.link.seqno, text), s.keys.down, Mode(s.win.focused, s.win.grabbed));
    }
  }

  // ---- connections --------------------------------------------------------------------------

  /** What the socket accepts continues the wire, through every partial write. */
  lemma WriteFaithful(l: Link, sends: seq<Send>)
    requires l.connected && Faithful(l)
    ensures Faithful(Write(l, sends))
  {
    FlushExtendsWire(l.tx, sends);
  }

  lemma OnFlushInv(cfg: Config, s: Sink, sends: seq<Send>)
    requires Inv(cfg, s)
    ensures Inv(cfg, OnFlush(s, sends))
  {
    if s.link.connected {
      WriteFaithful(s.link, sends);
    }
  }

  lemma SayAndFlushInv(cfg: Config, s: Sink, kind: Kind, x: Int32, sends: seq<Send>)
    requires Inv(cfg, s) && (kind == Bye || kind == Close)
    ensures Inv(cfg, SayAndFlush(s, kind, x, sends))
  {
    PlainEmitInv(cfg, s, kind, x, 0, 0, 0);
    OnFlushInv(cfg, Emit(s, kind, x, 0, 0, 0), sends);
  }

  lemma DetachKeepsInv(cfg: Config, s: Sink)
    requires Inv(cfg, s)
    ensures Inv(cfg, Detach(s))
  {
    if s.link.connected {
      DetachInv(cfg, s);
    }
  }

  lemma HandshakeViews(cfg: Config, w: Window)
    ensures var hs := Handshake(cfg, w);
            KeyView(hs) == {} && ModeOf(hs) == Mode(w.focused, false) && Admitted(hs)
  {
    var hs := Handshake(cfg, w);
    ViewsSnoc([], hs[0]);
    ViewsSnoc(hs[..1], hs[1]);
    ViewsSnoc(hs[..2], hs[2]);
    ViewsSnoc(hs[..3], hs[3]);
    ViewsSnoc(hs[..4], hs[4]);
    AdmittedSnoc([], hs[0]);
    AdmittedSnoc(hs[..1], hs[1]);
    AdmittedSnoc(hs[..2], hs[2]);
    AdmittedSnoc(hs[..3], hs[3]);
    AdmittedSnoc(hs[..4], hs[4]);
    assert [] + [hs[0]] == hs[..1] && hs[..1] + [hs[1]] == hs[..2] && hs[..2] + [hs[2]] == hs[..3];
    assert hs[..3] + [hs[3]] == hs[..4] && hs[..4] + [hs[4]] == hs;
  }

  lemma AttachInv(cfg: Config, s: Sink, ok: bool)
    requires Inv(cfg, s) && !s.link.connected
    ensures Inv(cfg, Attach(cfg, s, ok))
  {
    var hs := Handshake(cfg, Ungrabbed(s.win));
    HandshakeViews(cfg, Ungrabbed(s.win));
    assert hs + [] == hs && Bytes(hs) + [] == Bytes(hs);
    SameJourneyReflexive(Stretches(hs));
  }

  // ---- steps and runs -------------------------------------------------------------------------

  predicate IsInput(ev: Event) {
    ev.EvKey? || ev.EvBtn? || ev.EvAbs? || ev.EvRel? || ev.EvWheel? || ev.EvFocus? || ev.EvUngrab?
  }

  predicate IsReport(ev: Event) {
    ev.EvPointer? || ev.EvSurface? || ev.EvReport? || ev.EvFullscreen? || ev.EvFormat?
  }

  lemma InputInv(cfg: Config, s: Sink, ev: Event)
    requires Inv(cfg, s) && IsInput(ev)
    ensures Inv(cfg, SinkModel.Step(cfg, s, ev))
  {
    match ev
    case EvKey(code, down, reply) => OnKeyInv(cfg, s, code, down, reply);
    case EvBtn(code, down) => if code < KEY_CNT && s.win.focused { KeyEdgeInv(cfg, s, Btn, code, down); }
    case EvAbs(x, y, w, h) => PointerInv(cfg, s, Abs, x, y, w, h);
    case EvRel(dx, dy) => PointerInv(cfg, s, Rel, dx, dy, 0, 0);
    case EvWheel(v, h) => PointerInv(cfg, s, Wheel, v, h, 0, 0);
    case EvFocus(active) => OnFocusInv(cfg, s, active);
    case EvUngrab => SetGrabInv(cfg, s, false, true);
  }

  lemma OnPointerInv(cfg: Config, s: Sink, inside: bool)
    requires Inv(cfg, s)
    ensures Inv(cfg, OnPointer(s, inside))
  {
    PlainEmitInv(cfg, s.(win := s.win.(pointerIn := inside)), Pointer, B(inside), 0, 0, 0);
  }

  lemma OnSurfaceInv(cfg: Config, s: Sink, w: Uint32, h: Uint32, refresh: Uint32)
    requires Inv(cfg, s)
    ensures Inv(cfg, OnSurface(s, w, h, refresh))
  {
    PlainEmitInv(cfg, s.(win := s.win.(width := w, height := h)), Surface, Signed(w), Signed(h), refresh, 0);
  }

  lemma OnReportInv(cfg: Config, s: Sink, r: Report)
    requires Inv(cfg, s)
    ensures Inv(cfg, OnReport(s, r))
  {
    match r
    case Released(lo, hi) => PlainEmitInv(cfg, s, Release, 0, 0, lo, hi);
    case Paced => PlainEmitInv(cfg, s, Frame, 0, 0, 0, 0);
    case Unusable(fourcc, lo, hi) => PlainEmitInv(cfg, s, Format, 0, Signed(fourcc), lo, hi);
  }

  lemma ReportInv(cfg: Config, s: Sink, ev: Event)
    requires Inv(cfg, s) && IsReport(ev)
    ensures Inv(cfg, SinkModel.Step(cfg, s, ev))
  {
    var r := SinkModel.Step(cfg, s, ev);
    match ev
    case EvPointer(inside) =>
      assert r == OnPointer(s, inside);
      OnPointerInv(cfg, s, inside);
    case EvSurface(w, h, refresh) =>
      assert r == OnSurface(s, w, h, refresh);
      OnSurfaceInv(cfg, s, w, h, refresh);
    case EvReport(report) =>
      assert r == OnReport(s, report);
      OnReportInv(cfg, s, report);
    case EvFullscreen(on) => FullscreenInv(cfg, s, on);
    case EvFormat(usable, fourcc, lo, hi) =>
      assert r == OnFormat(s, usable, fourcc, lo, hi);
      PlainEmitInv(cfg, s, Format, B(usable), Signed(fourcc), lo, hi);
  }

  lemma FullscreenInv(cfg: Config, s: Sink, on: bool)
    requires Inv(cfg, s)
    ensures Inv(cfg, s.(win := s.win.(fullscreen := on)))
  {}

  lemma ConnectionInv(cfg: Config, s: Sink, ev: Event)
    requires Inv(cfg, s) && !IsInput(ev) && !IsReport(ev)
    ensures Inv(cfg, SinkModel.Step(cfg, s, ev))
  {
    var r := SinkModel.Step(cfg, s, ev);
    match ev
    case EvAttach(ok) =>
      if !s.link.connected {
        assert r == Attach(cfg, s, ok);
        AttachInv(cfg, s, ok);
      }
    case EvHangup =>
      assert r == Detach(s);
      DetachKeepsInv(cfg, s);
    case EvFlush(sends) =>
      assert r == OnFlush(s, sends);
      OnFlushInv(cfg, s, sends);
    case EvClose(action, sends) =>
      assert s.link.connected ==> r == SayAndFlush(s, Close, action, sends);
      SayAndFlushInv(cfg, s, Close, action, sends);
    case EvBye(reason, sends) =>
      assert r == SayAndFlush(s, Bye, reason, sends);
      SayAndFlushInv(cfg, s, Bye, reason, sends);
    case EvViolation(sends) =>
      assert r == Violate(s, sends);
      ViolateInv(cfg, s, sends);
    case _ => ClipboardInv(cfg, s, ev);
  }

  lemma ViolateInv(cfg: Config, s: Sink, sends: seq<Send>)
    requires Inv(cfg, s)
    ensures Inv(cfg, Violate(s, sends))
  {
    SayAndFlushInv(cfg, s, Bye, 2, sends);
    DetachKeepsInv(cfg, SayAndFlush(s, Bye, 2, sends));
  }

  lemma CompletionInv(cfg: Config, s: Sink, generation: nat, paste: bool)
    requires Inv(cfg, s)
    ensures Inv(cfg, ClipFinish(s, generation, paste))
  {
    ClipFinishInv(cfg, s, generation, paste);
  }

  lemma ClipboardInv(cfg: Config, s: Sink, ev: Event)
    requires Inv(cfg, s) && (ev.EvClipFinish? || ev.EvSendClipboard? || ev.EvCaps? || ev.EvClipOffered?)
    ensures Inv(cfg, SinkModel.Step(cfg, s, ev))
  {
    var r := SinkModel.Step(cfg, s, ev);
    match ev
    case EvClipFinish(generation, paste) =>
      assert r == ClipFinish(s, generation, paste);
      CompletionInv(cfg, s, generation, paste);
    case EvSendClipboard(generation, text) =>
      assert r == SendClipboard(s, generation, text).0;
      SendClipboardInv(cfg, s, generation, text);
    case EvCaps(bits) =>
      assert r == if s.link.connected then OnCaps(s, bits) else s;
      CapsInv(cfg, s, bits);
    case EvClipOffered =>
      assert r == if s.link.connected then OnClipOffered(cfg, s) else s;
      CapsInv(cfg, s, 0);
  }

  lemma CapsInv(cfg: Config, s: Sink, bits: Uint32)
    requires Inv(cfg, s)
    ensures Inv(cfg, OnCaps(s, bits)) && Inv(cfg, OnClipOffered(cfg, s))
  {}

  lemma StepInv(cfg: Config, s: Sink, ev: Event)
    requires Inv(cfg, s)
    ensures Inv(cfg, SinkModel.Step(cfg, s, ev))
  {
    if IsInput(ev) {
      InputInv(cfg, s, ev);
    } else if IsReport(ev) {
      ReportInv(cfg, s, ev);
    } else {
      ConnectionInv(cfg, s, ev);
    }
  }

  lemma PointerInv(cfg: Config, s: Sink, kind: Kind, x: Int32, y: Int32, w0: Uint32, w1: Uint32)
    requires Inv(cfg, s) && (kind == Abs || kind == Rel || kind == Wheel)
    ensures s.win.focused && (kind == Abs ==> !s.win.grabbed) && (kind == Rel ==> s.win.grabbed)
            ==> Inv(cfg, Emit(s, kind, x, y, w0, w1))
  {
    if s.win.focused && (kind == Abs ==> !s.win.grabbed) && (kind == Rel ==> s.win.grabbed) {
      PlainEmitInv(cfg, s, kind, x, y, w0, w1);
    }
  }

  lemma {:induction false} RunInv(cfg: Config, s: Sink, evs: seq<Event>)
    requires Inv(cfg, s)
    ensures Inv(cfg, SinkModel.Run(cfg, s, evs))
    decreases |evs|
  {
    if evs != [] {
      StepInv(cfg, s, evs[0]);
      RunInv(cfg, SinkModel.Step(cfg, s, evs[0]), evs[1..]);
    }
  }

  /** The broker's state after any history of events. */
  function After(cfg: Config, evs: seq<Event>): Sink {
    SinkModel.Run(cfg, Initial, evs)
  }

  lemma AfterInv(cfg: Config, evs: seq<Event>)
    ensures Inv(cfg, After(cfg, evs))
  {
    RunInv(cfg, Initial, evs);
  }
}
