// What every event leaves behind on the broker's side: window, keys and paste state, field by field.

module SinkState {
  import opened Protocol
  import opened TxQueue
  import opened TxRing
  import opened SinkModel
  import opened SinkSafety
  import opened SinkTheorems
  import opened SinkPaste
  import opened SinkConsent
  import opened SinkScript
  import ClipIn

  /** Everything but the connection. */
  datatype Side = Side(win: Window, keys: Keys, clip: Clip)

  function SideOf(s: Sink): Side {
    Side(s.win, s.keys, s.clip)
  }

  // ---- the table ----------------------------------------------------------------------------------

  function WithGrab(w: Window, on: bool): Window {
    w.(grabbed := on, backendGrab := on)
  }

  /** A change of grab lets go of every key and modifier; without a client there is no grab to take. */
  function GrabSide(cfg: Config, s: Sink, on: bool, ok: bool): Side {
    if !GrabChanges(cfg, s, on, ok) then SideOf(s)
    else Side(WithGrab(s.win, on && s.link.connected), Keys(NoLatch, {}, s.keys.consumed), s.clip)
  }

  /** A new paste key: held for the text that is coming, or done with at once. */
  function PasteSide(cfg: Config, s: Sink, keys: Keys, code: Code, fetch: Fetch): Side {
    var h := Held(code, keys.latch.ctrl, keys.latch.shift, s.link.generation);
    var waits := cfg.mode == ClipIn.Consent && s.link.connected && s.clip.capsSeen % 2 == 1 && fetch == Started;
    if s.clip.held.key != 0 then Side(s.win, keys, s.clip)
    else Side(s.win,
              if s.link.connected && code != 0 && PassedOn(cfg, s, fetch) then keys.(down := keys.down - {code}) else keys,
              s.clip.(held := if waits || code == 0 then h else NotHeld,
                      toldOff := s.clip.toldOff || cfg.mode != ClipIn.Consent))
  }

  function KeySide(cfg: Config, s: Sink, code: nat, down: bool, r: KeyReply): Side {
    var l := Modifiers(s.keys.latch, code, down);
    var keys := s.keys.(latch := l);
    var mine := keys.(consumed := keys.consumed + {code});
    if code >= 768 then SideOf(s)
    else if BrokersOwn(l, code, down) then
      if code == 34 then GrabSide(cfg, s.(keys := mine), !s.win.grabbed, r.grabOk)
      else Side(if r.fullscreenOk then s.win.(fullscreen := !s.win.fullscreen) else s.win, mine, s.clip)
    else if PasteAsked(cfg, s, l, code, down) then PasteSide(cfg, s, mine, code, r.fetch)
    else if code in s.keys.consumed then
      Side(s.win, if down then keys else keys.(consumed := keys.consumed - {code}), s.clip)
    else if s.win.focused then
      Side(s.win, keys.(down := if down then keys.down + {code} else keys.down - {code}), s.clip)
    else Side(s.win, keys, s.clip)
  }

  /** The state after an event, as long as the client was not lost over it. */
  function Settled(cfg: Config, s: Sink, ev: Event): Side {
    var w, k, c := s.win, s.keys, s.clip;
    match ev
    case EvKey(code, down, reply) => KeySide(cfg, s, code, down, reply)
    case EvBtn(code, down) =>
      Side(w, if code < 768 && HasPointer(w) then k.(down := if down then k.down + {code} else k.down - {code}) else k, c)
    case EvFocus(active) =>
      if w.focused == active then Side(w, k, c)
      else if active then Side(w.(focused := true), k, c)
      else Side(WithGrab(w.(focused := false, pointerIn := false), false), Keys(NoLatch, {}, k.consumed), c)
    case EvPointer(inside) => Side(w.(pointerIn := inside), k, c)
    case EvSurface(ww, hh, _) => Side(if ww == 0 || hh == 0 then w else w.(width := ww, height := hh), k, c)
    case EvFullscreen(on) => Side(w.(fullscreen := on), k, c)
    case EvUngrab => GrabSide(cfg, s, false, true)
    case EvClipFinish(generation, paste) =>
      if c.held.key == 0 || !(generation == s.link.generation == c.held.generation) then Side(w, k, c)
      else Side(w, if paste && w.focused && s.link.connected then k.(down := k.down - {c.held.key}) else k,
                c.(held := NotHeld))
    case EvCaps(bits) =>
      Side(w, k, if s.link.connected then c.(capsSeen := bits, announced := c.announced || bits % 2 == 1) else c)
    case EvClipOffered =>
      Side(w, k, if s.link.connected && cfg.mode == ClipIn.Off then c.(toldOff := true) else c)
    case EvAttach(_) => if s.link.connected then Side(w, k, c) else Side(WithGrab(w, false), NoKeys, NoClip)
    case _ => Side(w, k, c)
  }

  /**
   * `r` has the state `e`; or the client was lost on the way, and with it the grab, what it had latched
   * or consumed, and everything about its paste keys.
   */
  predicate Settles(s: Sink, e: Side, r: Sink) {
    if s.link.connected && !r.link.connected
    then r.win == WithGrab(e.win, false) && r.keys.latch == NoLatch && r.keys.consumed == {} && r.clip == NoClip
    else SideOf(r) == e
  }

  // ---- the policy core keeps to it ------------------------------------------------------------------

  lemma EmitSettles(s0: Sink, s: Sink, kind: Kind, x: Int32, y: Int32, w0: Uint32, w1: Uint32)
    requires kind != Clipboard && s.link == s0.link && s.win.backendGrab == s.win.grabbed
    ensures Settles(s0, SideOf(s), Emit(s, kind, x, y, w0, w1))
  {
    EmitSpeaks(s, kind, x, y, w0, w1);
  }

  lemma KeyEdgeSettles(s: Sink, kind: Kind, code: Code, down: bool)
    requires kind != Clipboard && s.win.backendGrab == s.win.grabbed
    ensures Settles(s, SideOf(SetKey(s, code, down)), KeyEdge(s, kind, code, down))
  {
    EmitSettles(s, SetKey(s, code, down), kind, code, B(down), 0, 0);
  }

  /** Edges one after the other: the keys they press and release, unless the client is lost. */
  lemma {:induction false} EdgesSettle(s: Sink, es: seq<(Code, bool)>)
    requires s.win.backendGrab == s.win.grabbed
    ensures Settles(s, Side(s.win, s.keys.(down := Pressed(s.keys.down, es)), s.clip), KeyEdges(s, es))
    decreases |es|
  {
    if es != [] {
      var s1, r := KeyEdge(s, Key, es[0].0, es[0].1), KeyEdges(s, es);
      KeyEdgeSettles(s, Key, es[0].0, es[0].1);
      KeyEdgesSameOrEnded(s1, es[1..]);
      assert s1.win.backendGrab == s1.win.grabbed;
      EdgesSettle(s1, es[1..]);
    }
  }

  lemma FinishSettles(cfg: Config, s: Sink, generation: nat, paste: bool)
    requires s.win.backendGrab == s.win.grabbed
    ensures Settles(s, Settled(cfg, s, EvClipFinish(generation, paste)), ClipFinish(s, generation, paste))
  {
    ChordBalanced(s);
    EdgesSettle(Unheld(s), Chord(s));
  }

  lemma SetGrabSettles(cfg: Config, s: Sink, on: bool, ok: bool)
    requires Inv(cfg, s)
    ensures Settles(s, GrabSide(cfg, s, on, ok), SetGrab(cfg, s, on, ok))
  {
    if GrabChanges(cfg, s, on, ok) {
      var s0 := s.(win := s.win.(backendGrab := on));
      ReleaseAllKeeps(s0, Mode(s.win.focused, s.win.grabbed));
      var s1 := ReleaseAll(s0);
      var s2 := s1.(win := s1.win.(grabbed := on));
      if s2.link.connected {
        EmitSettles(s2, s2, Grab, B(on), 0, 0, 0);
      } else if !on {
        EmitSpeaks(s2, Grab, 0, 0, 0, 0);
      }
    }
  }

  lemma FocusLossSettles(cfg: Config, s: Sink)
    requires Inv(cfg, s) && s.win.focused
    ensures Settles(s, Settled(cfg, s, EvFocus(false)), OnFocus(s, false))
  {
    var s0 := s.(win := Ungrabbed(s.win.(focused := false)));
    ReleaseAllKeeps(s0, Mode(s.win.focused, s.win.grabbed));
    var s1 := ReleaseAll(s0);
    var s2 := s1.(win := s1.win.(pointerIn := false));
    var s3 := Emit(s2, Focus, 0, 0, 0, 0);
    EmitSettles(s2, s2, Focus, 0, 0, 0, 0);
    EmitSettles(s3, s3, Grab, 0, 0, 0, 0);
  }

  lemma FocusSettles(cfg: Config, s: Sink, active: bool)
    requires Inv(cfg, s)
    ensures Settles(s, Settled(cfg, s, EvFocus(active)), OnFocus(s, active))
  {
    if s.win.focused != active {
      if active {
        EmitSettles(s, s.(win := s.win.(focused := true)), Focus, 1, 0, 0, 0);
      } else {
        FocusLossSettles(cfg, s);
      }
    }
  }

  /** A paste key just taken, and done with again. */
  lemma FinishedSettles(cfg: Config, s: Sink, h: Held, told: bool, paste: bool)
    requires s.win.backendGrab == s.win.grabbed && s.win.focused && h.generation == s.link.generation
    ensures Settles(s,
              Side(s.win, if paste && s.link.connected && h.key != 0 then s.keys.(down := s.keys.down - {h.key}) else s.keys,
                   s.clip.(held := if h.key == 0 then h else NotHeld, toldOff := told)),
              ClipFinish(s.(clip := s.clip.(held := h, toldOff := told)), h.generation, paste))
  {
    FinishSettles(cfg, s.(clip := s.clip.(held := h, toldOff := told)), h.generation, paste);
  }

  lemma PasteKeySettles(cfg: Config, s: Sink, t: Trigger, r: KeyReply)
    requires s.win.backendGrab == s.win.grabbed && s.win.focused && t.ctrl == s.keys.latch.ctrl && t.shift == s.keys.latch.shift
    ensures Settles(s, PasteSide(cfg, s, s.keys, t.code, r.fetch), OnPasteKey(cfg, s, t, r))
  {
    if s.clip.held.key == 0 {
      var h, told := Held(t.code, t.ctrl, t.shift, s.link.generation), s.clip.toldOff || cfg.mode != ClipIn.Consent;
      var n, s1 := OnPasteKey(cfg, s, t, r), s.(clip := s.clip.(held := h, toldOff := told));
      if s.link.connected && cfg.mode == ClipIn.Consent && s.clip.capsSeen % 2 == 1 && r.fetch == Started {
        assert n == s1;
      } else {
        var paste := cfg.mode != ClipIn.Consent || (s.link.connected && PassedOn(cfg, s, r.fetch));
        assert n == ClipFinish(s1, h.generation, paste);
        FinishedSettles(cfg, s, h, told, paste);
      }
    }
  }

  lemma PlainKeySettles(cfg: Config, s: Sink, code: Code, down: bool)
    requires s.win.backendGrab == s.win.grabbed
    ensures Settles(s,
              if code in s.keys.consumed then
                Side(s.win, if down then s.keys else s.keys.(consumed := s.keys.consumed - {code}), s.clip)
              else if s.win.focused then SideOf(SetKey(s, code, down))
              else SideOf(s),
              OnPlainKey(s, code, down))
  {
    KeyEdgeSettles(s, Key, code, down);
    assert down == (code in s.keys.down) ==> SetKey(s, code, down).keys.down == s.keys.down;
  }

  lemma KeySettles(cfg: Config, s0: Sink, code: nat, down: bool, r: KeyReply)
    requires Inv(cfg, s0)
    ensures Settles(s0, KeySide(cfg, s0, code, down, r), OnKey(cfg, s0, code, down, r))
  {
    if code < KEY_CNT {
      var l := Modifiers(s0.keys.latch, code, down);
      assert l == Latched(s0.keys.latch, code, down);
      var s := s0.(keys := s0.keys.(latch := l));
      var s1, n := Consume(s, code), OnLatchedKey(cfg, s, code, down, r);
      assert Inv(cfg, s1);
      FoundIffCompletes(cfg.triggers, code, l);
      var t := if down && s.win.focused then PasteKey(cfg, s, code) else [];
      if BrokersOwn(l, code, down) {
        assert n == OnHotkey(cfg, s1, code, r);
        SetGrabSettles(cfg, s1, !s.win.grabbed, r.grabOk);
      } else if t != [] {
        assert n == OnPasteKey(cfg, s1, t[0].(code := code), r);
        PasteKeySettles(cfg, s1, t[0].(code := code), r);
      } else {
        assert n == OnPlainKey(s, code, down);
        PlainKeySettles(cfg, s, code, down);
      }
    }
  }

  lemma PointerSettles(cfg: Config, s: Sink, ev: Event)
    requires s.win.backendGrab == s.win.grabbed
    requires ev.EvBtn? || ev.EvAbs? || ev.EvRel? || ev.EvWheel? || ev.EvPointer? || ev.EvSurface?
    ensures Settles(s, Settled(cfg, s, ev), SinkModel.Step(cfg, s, ev))
  {
    var r := SinkModel.Step(cfg, s, ev);
    match ev
    case EvBtn(code, down) =>
      assert r == OnBtn(s, code, down);
      if code < KEY_CNT {
        KeyEdgeSettles(s, Btn, code, down);
        assert down == (code in s.keys.down) ==> SetKey(s, code, down).keys.down == s.keys.down;
      }
    case EvAbs(x, y, w, h) =>
      assert r == OnAbs(s, x, y, w, h);
      EmitSettles(s, s, Abs, x, y, w, h);
    case EvRel(dx, dy) =>
      assert r == OnRel(s, dx, dy);
      EmitSettles(s, s, Rel, dx, dy, 0, 0);
    case EvWheel(v, h) =>
      assert r == OnWheel(s, v, h);
      EmitSettles(s, s, Wheel, v, h, 0, 0);
    case EvPointer(inside) =>
      assert r == OnPointer(s, inside);
      EmitSettles(s, s.(win := s.win.(pointerIn := inside)), Pointer, B(inside), 0, 0, 0);
    case EvSurface(w, h, refresh) =>
      assert r == OnSurface(s, w, h, refresh);
      EmitSettles(s, s.(win := s.win.(width := w, height := h)), Surface, Signed(w), Signed(h), refresh, 0);
  }

  lemma SaySettles(s: Sink, kind: Kind, x: Int32, sends: seq<Send>)
    requires kind != Clipboard && s.win.backendGrab == s.win.grabbed
    ensures Settles(s, SideOf(s), SayAndFlush(s, kind, x, sends))
    ensures Settles(s, SideOf(s), Detach(SayAndFlush(s, kind, x, sends)))
  {
    EmitSettles(s, s, kind, x, 0, 0, 0);
  }

  lemma ReportSettles(s: Sink, r: Report)
    requires s.win.backendGrab == s.win.grabbed
    ensures Settles(s, SideOf(s), OnReport(s, r))
  {
    match r
    case Released(lo, hi) => EmitSettles(s, s, Release, 0, 0, lo, hi);
    case Paced => EmitSettles(s, s, Frame, 0, 0, 0, 0);
    case Unusable(fourcc, lo, hi) => EmitSettles(s, s, Format, 0, Signed(fourcc), lo, hi);
  }

  lemma OtherSettles(cfg: Config, s: Sink, ev: Event)
    requires Inv(cfg, s)
    requires ev.EvReport? || ev.EvFormat? || ev.EvClose? || ev.EvBye? || ev.EvViolation?
    ensures Settles(s, Settled(cfg, s, ev), SinkModel.Step(cfg, s, ev))
  {
    match ev
    case EvReport(r) => ReportSettles(s, r);
    case EvFormat(usable, fourcc, lo, hi) => EmitSettles(s, s, Format, B(usable), Signed(fourcc), lo, hi);
    case EvClose(action, sends) => SaySettles(s, Close, action, sends);
    case EvBye(reason, sends) => SaySettles(s, Bye, reason, sends);
    case EvViolation(sends) => SaySettles(s, Bye, 2, sends);
  }

  lemma QuietSettles(cfg: Config, s: Sink, ev: Event)
    requires Inv(cfg, s)
    requires ev.EvAttach? || ev.EvHangup? || ev.EvFlush? || ev.EvFullscreen? || ev.EvSendClipboard? || ev.EvCaps?
             || ev.EvClipOffered?
    ensures Settles(s, Settled(cfg, s, ev), SinkModel.Step(cfg, s, ev))
  {}

  /** Every event leaves the broker's own state as the table says. */
  lemma StepSettles(cfg: Config, s: Sink, ev: Event)
    requires Inv(cfg, s)
    ensures Settles(s, Settled(cfg, s, ev), SinkModel.Step(cfg, s, ev))
  {
    var r := SinkModel.Step(cfg, s, ev);
    match ev
    case EvKey(code, down, reply) =>
      assert r == OnKey(cfg, s, code, down, reply);
      KeySettles(cfg, s, code, down, reply);
    case EvFocus(active) =>
      assert r == OnFocus(s, active);
      FocusSettles(cfg, s, active);
    case EvUngrab => SetGrabSettles(cfg, s, false, true);
    case EvClipFinish(generation, paste) =>
      assert r == ClipFinish(s, generation, paste);
      FinishSettles(cfg, s, generation, paste);
    case EvReport(_) => OtherSettles(cfg, s, ev);
    case EvFormat(_, _, _, _) => OtherSettles(cfg, s, ev);
    case EvClose(_, _) => OtherSettles(cfg, s, ev);
    case EvBye(_, _) => OtherSettles(cfg, s, ev);
    case EvViolation(_) => OtherSettles(cfg, s, ev);
    case EvAttach(_) => QuietSettles(cfg, s, ev);
    case EvHangup => QuietSettles(cfg, s, ev);
    case EvFlush(_) => QuietSettles(cfg, s, ev);
    case EvFullscreen(_) => QuietSettles(cfg, s, ev);
    case EvSendClipboard(_, _) => QuietSettles(cfg, s, ev);
    case EvCaps(_) => QuietSettles(cfg, s, ev);
    case EvClipOffered => QuietSettles(cfg, s, ev);
    case _ => PointerSettles(cfg, s, ev);
  }

  // ---- over whole histories ---------------------------------------------------------------------------

  /** What the display last said about focus, the pointer and the window's size. */
  datatype Reported = Reported(focused: bool, pointerIn: bool, width: Uint32, height: Uint32)

  function ReportOf(w: Window): Reported {
    Reported(w.focused, w.pointerIn, w.width, w.height)
  }

  function Updated(was: Reported, ev: Event): Reported {
    match ev
    case EvFocus(active) => was.(focused := active, pointerIn := was.pointerIn && (active || !was.focused))
    case EvPointer(inside) => was.(pointerIn := inside)
    case EvSurface(w, h, _) => if w == 0 || h == 0 then was else was.(width := w, height := h)
    case _ => was
  }

  function ReportedBy(evs: seq<Event>): Reported {
    if evs == [] then Reported(false, false, 0, 0) else Updated(ReportedBy(evs[..|evs| - 1]), evs[|evs| - 1])
  }

  lemma KeyReported(cfg: Config, s: Sink, code: nat, down: bool, r: KeyReply)
    ensures ReportOf(KeySide(cfg, s, code, down, r).win) == ReportOf(s.win)
  {}

  lemma SettledReported(cfg: Config, s: Sink, ev: Event)
    ensures ReportOf(Settled(cfg, s, ev).win) == Updated(ReportOf(s.win), ev)
  {
    match ev
    case EvKey(code, down, reply) => KeyReported(cfg, s, code, down, reply);
    case _ =>
  }

  lemma StepReported(cfg: Config, s: Sink, ev: Event)
    requires Inv(cfg, s)
    ensures ReportOf(SinkModel.Step(cfg, s, ev).win) == Updated(ReportOf(s.win), ev)
  {
    SettledReported(cfg, s, ev);
    StepSettles(cfg, s, ev);
    var r := SinkModel.Step(cfg, s, ev);
    assert r.win == Settled(cfg, s, ev).win || r.win == WithGrab(Settled(cfg, s, ev).win, false);
  }

  /** After every history, whoever has come and gone: focus, pointer and size are as the display last reported them. */
  lemma {:induction false} WindowAsReported(cfg: Config, evs: seq<Event>)
    ensures ReportOf(After(cfg, evs).win) == ReportedBy(evs)
    decreases |evs|
  {
    if evs != [] {
      var n := |evs| - 1;
      assert evs == evs[..n] + [evs[n]];
      WindowAsReported(cfg, evs[..n]);
      RunSnoc(cfg, Initial, evs[..n], evs[n]);
      AfterInv(cfg, evs[..n]);
      StepReported(cfg, After(cfg, evs[..n]), evs[n]);
    }
  }
}
