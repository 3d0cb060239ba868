// When a client is given up for a full ring, inside whatever operation that happens.

module SinkLoss {
  import opened Protocol
  import opened TxQueue
  import opened TxRing
  import opened SinkModel
  import opened SinkSafety
  import SinkTheorems
  import ClipIn

  /** The packets queued that may never be merged or dropped. */
  function Backlog(s: Sink): nat {
    |Sticky(s.link.tx.queue)|
  }

  /** From `s` to `r` at most `n` packets were emitted; if that lost the client, there was no room for them. */
  predicate Spends(s: Sink, r: Sink, n: nat) {
    && (!s.link.connected ==> !r.link.connected)
    && (s.link.connected ==> if r.link.connected then Backlog(r) <= Backlog(s) + n else Backlog(s) + n >= 255)
  }

  lemma SpendsBoth(s: Sink, r: Sink, t: Sink, a: nat, b: nat)
    requires Spends(s, r, a) && Spends(r, t, b)
    ensures Spends(s, t, a + b)
  {}

  lemma TransmitSpends(l: Link, p: Pkt)
    requires Faithful(l) && l.connected
    ensures var l' := Transmit(l, p);
            if l'.connected then |Sticky(l'.tx.queue)| <= |Sticky(l.tx.queue)| + 1 else |Sticky(l.tx.queue)| >= 254
  {
    SinkTheorems.StuckWhenLost(l, p);
    if |l.tx.queue| > TXRING / 4 {
      CoalesceKeepsSticky(l.tx.queue, l.tx.partial);
    }
    StickySnoc(l.tx.Relieved().queue, p);
  }

  lemma EmitSpends(s: Sink, kind: Kind, x: Int32, y: Int32, w0: Uint32, w1: Uint32)
    requires kind != Clipboard && Faithful(s.link)
    ensures Spends(s, Emit(s, kind, x, y, w0, w1), 1)
  {
    if s.link.connected {
      TransmitSpends(s.link, Packet(s, kind, x, y, w0, w1));
    }
  }

  lemma KeyEdgeSpends(s: Sink, kind: Kind, code: Code, down: bool)
    requires kind != Clipboard && Faithful(s.link)
    ensures Spends(s, KeyEdge(s, kind, code, down), 1)
  {
    EmitSpends(SetKey(s, code, down), kind, code, B(down), 0, 0);
  }

  /** At most `n` keys are down, none of them below code `c`. */
  predicate LeftFrom(keys: set<int>, c: nat, n: nat) {
    |keys| <= n && forall k :: k in keys ==> c <= k
  }

  lemma ReleaseOneSpends(s: Sink, c: nat, m: Mode, s1: Sink, n: nat)
    requires Midway(s, m) && c < KEY_CNT && c in s.keys.down && LeftFrom(s.keys.down, c, n)
    requires s1 == KeyEdge(s, EdgeKind(c), c, false)
    ensures Midway(s1, m) && Spends(s, s1, 1) && n > 0 && LeftFrom(s1.keys.down, c + 1, n - 1)
  {
    KeyEdgeKeeps(s, EdgeKind(c), c, false, m);
    KeyEdgeSpends(s, EdgeKind(c), c, false);
    assert |s.keys.down - {c}| == |s.keys.down| - 1;
  }

  lemma SkipCode(keys: set<int>, c: nat, n: nat)
    requires LeftFrom(keys, c, n) && c !in keys
    ensures LeftFrom(keys, c + 1, n)
  {}

  lemma ReleaseNext(s: Sink, c: nat)
    requires c < KEY_CNT
    ensures ReleaseFrom(s, c) == ReleaseFrom(if c in s.keys.down then KeyEdge(s, EdgeKind(c), c, false) else s, c + 1)
  {}

  /** The releases cost one packet for each key that is down. */
  lemma {:induction false} ReleaseFromSpends(s: Sink, c: nat, m: Mode, n: nat)
    requires Midway(s, m) && c <= KEY_CNT && LeftFrom(s.keys.down, c, n)
    ensures Spends(s, ReleaseFrom(s, c), n)
    decreases KEY_CNT - c
  {
    if c < KEY_CNT {
      if c in s.keys.down {
        var s1 := KeyEdge(s, EdgeKind(c), c, false);
        var r := ReleaseFrom(s1, c + 1);
        ReleaseOneSpends(s, c, m, s1, n);
        assert Spends(s1, r, n - 1) by {
          ReleaseFromSpends(s1, c + 1, m, n - 1);
        }
        ReleaseNext(s, c);
        SpendsBoth(s, s1, r, 1, n - 1);
      } else {
        var r := ReleaseFrom(s, c + 1);
        ReleaseNext(s, c);
        assert Spends(s, r, n) by {
          SkipCode(s.keys.down, c, n);
          ReleaseFromSpends(s, c + 1, m, n);
        }
      }
    }
  }

  lemma ReleaseAllSpends(s: Sink, m: Mode)
    requires Midway(s, m)
    ensures Spends(s, ReleaseAll(s), |s.keys.down|)
  {
    ReleaseFromSpends(s, 0, m, |s.keys.down|);
  }

  lemma SetGrabSpends(cfg: Config, s: Sink, on: bool, ok: bool)
    requires Inv(cfg, s)
    ensures Spends(s, SetGrab(cfg, s, on, ok), |s.keys.down| + 1)
  {
    if s.win.grabbed != on && (on ==> cfg.FocusEvents() && ok) {
      var m := Mode(s.win.focused, s.win.grabbed);
      var s0 := s.(win := s.win.(backendGrab := on));
      var s1 := ReleaseAll(s0);
      var s2 := s1.(win := s1.win.(grabbed := on));
      ReleaseAllSpends(s0, m);
      ReleaseAllKeeps(s0, m);
      EmitSpends(s2, Grab, B(on), 0, 0, 0);
      SpendsBoth(s, s2, Emit(s2, Grab, B(on), 0, 0, 0), |s.keys.down|, 1);
    }
  }

  lemma OnFocusSpends(cfg: Config, s: Sink, active: bool)
    requires Inv(cfg, s)
    ensures Spends(s, OnFocus(s, active), |s.keys.down| + 2)
  {
    if s.win.focused != active {
      var m := Mode(s.win.focused, s.win.grabbed);
      if active {
        EmitSpends(s.(win := s.win.(focused := true)), Focus, 1, 0, 0, 0);
      } else {
        var s0 := s.(win := Ungrabbed(s.win.(focused := false)));
        var s1 := ReleaseAll(s0);
        ReleaseAllSpends(s0, m);
        ReleaseAllKeeps(s0, m);
        FocusLostSpends(s1.(win := s1.win.(pointerIn := false)), m);
        var s2 := s1.(win := s1.win.(pointerIn := false));
        SpendsBoth(s, s2, Emit(Emit(s2, Focus, 0, 0, 0, 0), Grab, 0, 0, 0, 0), |s.keys.down|, 2);
      }
    }
  }

  lemma FocusLostSpends(s: Sink, m: Mode)
    requires Midway(s, m)
    ensures Spends(s, Emit(Emit(s, Focus, 0, 0, 0, 0), Grab, 0, 0, 0, 0), 2)
  {
    var r := Emit(s, Focus, 0, 0, 0, 0);
    EmitSpends(s, Focus, 0, 0, 0, 0);
    EmitKeeps(s, Focus, 0, 0, 0, 0);
    EmitSpends(r, Grab, 0, 0, 0, 0);
    SpendsBoth(s, r, Emit(r, Grab, 0, 0, 0, 0), 1, 1);
  }

  lemma {:induction false} KeyEdgesSpends(cfg: Config, s: Sink, es: seq<(Code, bool)>)
    requires Inv(cfg, s) && s.win.focused && forall e <- es :: e.0 < KEY_CNT
    ensures Spends(s, KeyEdges(s, es), |es|)
    decreases |es|
  {
    if es != [] {
      var r := KeyEdge(s, Key, es[0].0, es[0].1);
      KeyEdgeSpends(s, Key, es[0].0, es[0].1);
      KeyEdgeInv(cfg, s, Key, es[0].0, es[0].1);
      KeyEdgeFocused(s, es[0].0, es[0].1);
      KeyEdgesSpends(cfg, r, es[1..]);
      SpendsBoth(s, r, KeyEdges(r, es[1..]), 1, |es| - 1);
    }
  }

  lemma ChordIsSmall(s: Sink)
    requires s.clip.held.key < KEY_CNT
    ensures |Chord(s)| <= REPLAY_RESERVE && forall e <- Chord(s) :: e.0 < KEY_CNT
  {}

  /** The chord costs no more than the slots reserved for it. */
  lemma ClipFinishSpends(cfg: Config, s: Sink, generation: nat, paste: bool)
    requires Inv(cfg, Unheld(s)) && s.clip.held.key < KEY_CNT
    ensures Spends(s, ClipFinish(s, generation, paste), REPLAY_RESERVE)
  {
    if Current(s, generation) && paste && s.win.focused && s.link.connected {
      var s1, es := Unheld(s), Chord(s);
      var r := KeyEdges(s1, es);
      assert Spends(s1, r, REPLAY_RESERVE) by {
        ChordIsSmall(s);
        KeyEdgesSpends(cfg, s1, es);
      }
      assert ClipFinish(s, generation, paste) == r;
    }
  }

  lemma PasteTriggerSpends(cfg: Config, s: Sink, fetch: Fetch)
    requires Inv(cfg, Unheld(s)) && s.clip.held.key < KEY_CNT
    ensures Spends(s, PasteTrigger(cfg, s, fetch), REPLAY_RESERVE)
  {
    var g := s.clip.held.generation;
    if cfg.mode != ClipIn.Consent {
      ClipFinishSpends(cfg, s.(clip := s.clip.(toldOff := true)), g, true);
    } else {
      ClipFinishSpends(cfg, s, g, true);
      ClipFinishSpends(cfg, s, g, false);
    }
  }

  lemma OnPasteKeySpends(cfg: Config, s: Sink, t: Trigger, r: KeyReply)
    requires Inv(cfg, s) && t.code < KEY_CNT
    ensures Spends(s, OnPasteKey(cfg, s, t, r), REPLAY_RESERVE)
  {
    if s.clip.held.key == 0 {
      PasteTriggerSpends(cfg, s.(clip := s.clip.(held := Held(t.code, t.ctrl, t.shift, s.link.generation))), r.fetch);
    }
  }

  /** Of a step: at most a release of every key and six packets more. */
  function Cost(s: Sink): nat {
    |s.keys.down| + REPLAY_RESERVE
  }

  lemma OnHotkeySpends(cfg: Config, s: Sink, code: Code, r: KeyReply)
    requires Inv(cfg, s)
    ensures Spends(s, OnHotkey(cfg, s, code, r), |s.keys.down| + 1)
  {
    if code == KEY_G {
      SetGrabSpends(cfg, s, !s.win.grabbed, r.grabOk);
    }
  }

  lemma OnPlainKeySpends(s: Sink, code: Code, down: bool)
    requires Faithful(s.link)
    ensures Spends(s, OnPlainKey(s, code, down), 1)
  {
    KeyEdgeSpends(s, Key, code, down);
  }

  lemma OnLatchedKeySpends(cfg: Config, s: Sink, code: Code, down: bool, r: KeyReply)
    requires Inv(cfg, s) && code < KEY_CNT
    ensures Spends(s, OnLatchedKey(cfg, s, code, down, r), Cost(s))
  {
    var n := OnLatchedKey(cfg, s, code, down, r);
    var s1 := Consume(s, code);
    var t := if down && s.win.focused then PasteKey(cfg, s, code) else [];
    assert Inv(cfg, s1) && s1.link == s.link && s1.keys.down == s.keys.down;
    if down && IsHotkey(s.keys.latch, code) {
      assert n == OnHotkey(cfg, s1, code, r);
      OnHotkeySpends(cfg, s1, code, r);
    } else if t != [] {
      assert n == OnPasteKey(cfg, s1, t[0].(code := code), r);
      OnPasteKeySpends(cfg, s1, t[0].(code := code), r);
    } else {
      assert n == OnPlainKey(s, code, down);
      OnPlainKeySpends(s, code, down);
    }
  }

  lemma OnKeySpends(cfg: Config, s: Sink, code: nat, down: bool, r: KeyReply)
    requires Inv(cfg, s)
    ensures Spends(s, OnKey(cfg, s, code, down, r), Cost(s))
  {
    if code < KEY_CNT {
      OnLatchedKeySpends(cfg, s.(keys := s.keys.(latch := Latched(s.keys.latch, code, down))), code, down, r);
    }
  }

  lemma SaySpends(s: Sink, kind: Kind, x: Int32, sends: seq<Send>)
    requires kind != Clipboard && Faithful(s.link)
    ensures s.link.connected && !SayAndFlush(s, kind, x, sends).link.connected ==> Backlog(s) + 1 >= 255
  {
    EmitSpends(s, kind, x, 0, 0, 0);
  }

  lemma InputSpends(cfg: Config, s: Sink, ev: Event)
    requires Inv(cfg, s) && (ev.EvBtn? || ev.EvAbs? || ev.EvRel? || ev.EvWheel?)
    ensures Spends(s, SinkModel.Step(cfg, s, ev), 1)
  {
    var r := SinkModel.Step(cfg, s, ev);
    match ev
    case EvBtn(code, down) =>
      assert r == OnBtn(s, code, down);
      if code < KEY_CNT {
        KeyEdgeSpends(s, Btn, code, down);
      }
    case EvAbs(x, y, w, h) =>
      assert r == OnAbs(s, x, y, w, h);
      EmitSpends(s, Abs, x, y, w, h);
    case EvRel(dx, dy) =>
      assert r == OnRel(s, dx, dy);
      EmitSpends(s, Rel, dx, dy, 0, 0);
    case EvWheel(v, h) =>
      assert r == OnWheel(s, v, h);
      EmitSpends(s, Wheel, v, h, 0, 0);
  }

  lemma WindowSpends(s: Sink, inside: bool, w: Uint32, h: Uint32, refresh: Uint32)
    requires Faithful(s.link)
    ensures Spends(s, OnPointer(s, inside), 1) && Spends(s, OnSurface(s, w, h, refresh), 1)
  {
    EmitSpends(s.(win := s.win.(pointerIn := inside)), Pointer, B(inside), 0, 0, 0);
    EmitSpends(s.(win := s.win.(width := w, height := h)), Surface, Signed(w), Signed(h), refresh, 0);
  }

  lemma ReportSpends(s: Sink, r: Report)
    requires Faithful(s.link)
    ensures Spends(s, OnReport(s, r), 1)
  {
    match r
    case Released(lo, hi) => EmitSpends(s, Release, 0, 0, lo, hi);
    case Paced => EmitSpends(s, Frame, 0, 0, 0, 0);
    case Unusable(fourcc, lo, hi) => EmitSpends(s, Format, 0, Signed(fourcc), lo, hi);
  }

  /** The client's connection did not survive the step. */
  predicate Loses(cfg: Config, s: Sink, ev: Event) {
    s.link.connected && !SinkModel.Step(cfg, s, ev).link.connected
  }

  lemma QuietStep(cfg: Config, s: Sink, ev: Event)
    requires ev.EvAttach? || ev.EvFlush? || ev.EvFullscreen? || ev.EvSendClipboard? || ev.EvCaps? || ev.EvClipOffered?
    ensures !Loses(cfg, s, ev)
  {}

  /** A step that neither hangs up nor punishes loses the client only for want of room for what it emits. */
  lemma StepSpends(cfg: Config, s: Sink, ev: Event)
    requires Inv(cfg, s) && !ev.EvHangup? && !ev.EvViolation?
    ensures Loses(cfg, s, ev) ==> Backlog(s) + Cost(s) >= 255
  {
    var r := SinkModel.Step(cfg, s, ev);
    match ev
    case EvKey(code, down, reply) =>
      assert r == OnKey(cfg, s, code, down, reply);
      OnKeySpends(cfg, s, code, down, reply);
    case EvFocus(active) =>
      assert r == OnFocus(s, active);
      OnFocusSpends(cfg, s, active);
    case EvUngrab =>
      assert r == if s.win.grabbed then SetGrab(cfg, s, false, true) else s;
      SetGrabSpends(cfg, s, false, true);
    case EvClipFinish(generation, paste) =>
      assert r == ClipFinish(s, generation, paste);
      ClipFinishSpends(cfg, s, generation, paste);
    case EvBtn(_, _) => InputSpends(cfg, s, ev);
    case EvAbs(_, _, _, _) => InputSpends(cfg, s, ev);
    case EvRel(_, _) => InputSpends(cfg, s, ev);
    case EvWheel(_, _) => InputSpends(cfg, s, ev);
    case _ => OtherSpends(cfg, s, ev);
  }

  lemma OtherSpends(cfg: Config, s: Sink, ev: Event)
    requires Inv(cfg, s) && !IsInput(ev) && !ev.EvClipFinish? && !ev.EvHangup? && !ev.EvViolation?
    ensures Loses(cfg, s, ev) ==> Backlog(s) + Cost(s) >= 255
  {
    var r := SinkModel.Step(cfg, s, ev);
    match ev
    case EvReport(report) =>
      assert r == OnReport(s, report);
      ReportSpends(s, report);
    case EvFormat(usable, fourcc, lo, hi) =>
      assert r == OnFormat(s, usable, fourcc, lo, hi);
      EmitSpends(s, Format, B(usable), Signed(fourcc), lo, hi);
    case EvClose(action, sends) =>
      assert s.link.connected ==> r == SayAndFlush(s, Close, action, sends);
      SaySpends(s, Close, action, sends);
    case EvBye(reason, sends) =>
      assert r == SayAndFlush(s, Bye, reason, sends);
      SaySpends(s, Bye, reason, sends);
    case EvPointer(inside) =>
      assert r == OnPointer(s, inside);
      WindowSpends(s, inside, 0, 0, 0);
    case EvSurface(w, h, refresh) =>
      assert r == OnSurface(s, w, h, refresh);
      WindowSpends(s, false, w, h, refresh);
    case _ => QuietStep(cfg, s, ev);
  }

  /**
   * Whatever has happened before, and wherever inside a step the ring is found full -- among the
   * releases of a grab or a focus loss, or in the middle of a paste chord: the client is given up only
   * if the packets queued that may not be merged, the keys to release and six more come to 255.
   */
  lemma LostOnlyWhenStuck(cfg: Config, evs: seq<Event>, ev: Event)
    requires !ev.EvHangup? && !ev.EvViolation?
    ensures var s := After(cfg, evs);
            Loses(cfg, s, ev) ==> |Sticky(s.link.tx.queue)| + |s.keys.down| + 6 >= 255
  {
    AfterInv(cfg, evs);
    StepSpends(cfg, After(cfg, evs), ev);
  }
}
