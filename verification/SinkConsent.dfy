// What only the user can bring about: a held paste key and a grab each go back to a key that was
// pressed on the connection they are for, and have stood ever since.

module SinkConsent {
  import opened Protocol
  import opened SinkModel
  import opened SinkSafety
  import opened SinkTheorems
  import opened SinkPaste
  import SinkAgent
  import ClipIn

  /** Pressed with these modifiers, the key is one of the configured paste triggers. */
  predicate Completes(ts: seq<Trigger>, code: nat, l: Latch) {
    exists t <- ts :: t.code == code && t.ctrl == l.ctrl && t.shift == l.shift
  }

  lemma {:induction false} FoundIffCompletes(ts: seq<Trigger>, code: nat, l: Latch)
    ensures var t := FindTrigger(ts, code, l);
            (t != [] <==> Completes(ts, code, l)) && (t != [] ==> t[0].ctrl == l.ctrl && t[0].shift == l.shift)
  {
    if ts != [] {
      FoundIffCompletes(ts[1..], code, l);
      assert forall t :: t in ts <==> t == ts[0] || t in ts[1..];
    }
  }

  // ---- the paste key ------------------------------------------------------------------------

  /**
   * The user of a focused window, in consent mode, presses a paste key: on a connection whose client
   * has an agent and for which no key is held yet, and the display starts to read the selection.
   */
  predicate AsksToPaste(cfg: Config, s: Sink, ev: Event) {
    && ev.EvKey? && ev.down && 0 < ev.code < KEY_CNT && ev.reply.fetch == Started
    && cfg.mode == ClipIn.Consent && s.win.focused && s.link.connected
    && s.clip.capsSeen % 2 == 1 && s.clip.held.key == 0
    && var l := Latched(s.keys.latch, ev.code, true);
       Completes(cfg.triggers, ev.code, l) && !IsHotkey(l, ev.code)
  }

  /** The key such a press holds back: with its modifiers, and for that connection. */
  function Asked(s: Sink, ev: Event): Held
    requires ev.EvKey? && ev.code < KEY_CNT
  {
    var l := Latched(s.keys.latch, ev.code, true);
    Held(ev.code, l.ctrl, l.shift, s.link.generation)
  }

  /** No key is held, or the same one as before. */
  predicate SameHeld(s: Sink, r: Sink) {
    r.clip.held.key == 0 || r.clip.held == s.clip.held
  }

  /** A new paste key stays held exactly when its text is being fetched for a client that can take it. */
  lemma TriggerHolds(cfg: Config, s: Sink, fetch: Fetch)
    requires s.clip.held.key != 0 && s.clip.held.generation == s.link.generation
    ensures var r := PasteTrigger(cfg, s, fetch);
            if cfg.mode == ClipIn.Consent && s.link.connected && s.clip.capsSeen % 2 == 1 && fetch == Started
            then r == s else r.clip.held.key == 0
  {
    var g := s.clip.held.generation;
    SinkAgent.ClipFinishKeepsHeld(s.(clip := s.clip.(toldOff := true)), g, true);
    SinkAgent.ClipFinishKeepsHeld(s, g, true);
    SinkAgent.ClipFinishKeepsHeld(s, g, false);
  }

  /** A trigger of key 0 holds nothing. */
  lemma TriggerZero(cfg: Config, s: Sink, fetch: Fetch)
    requires s.clip.held.key == 0
    ensures PasteTrigger(cfg, s, fetch).clip.held.key == 0
  {}

  lemma PasteKeyHeld(cfg: Config, s: Sink, t: Trigger, r: KeyReply)
    ensures var n := OnPasteKey(cfg, s, t, r);
            if s.clip.held.key == 0 && t.code != 0 && cfg.mode == ClipIn.Consent && s.link.connected
               && s.clip.capsSeen % 2 == 1 && r.fetch == Started
            then n.clip.held == Held(t.code, t.ctrl, t.shift, s.link.generation) else SameHeld(s, n)
  {
    if s.clip.held.key == 0 {
      var s1 := s.(clip := s.clip.(held := Held(t.code, t.ctrl, t.shift, s.link.generation)));
      if t.code == 0 {
        TriggerZero(cfg, s1, r.fetch);
      } else {
        TriggerHolds(cfg, s1, r.fetch);
      }
    }
  }

  lemma PlainKeyHeld(s: Sink, code: Code, down: bool)
    ensures SameHeld(s, OnPlainKey(s, code, down))
  {
    SinkAgent.EmitKeepsHeld(SetKey(s, code, down), Key, code, B(down), 0, 0);
  }

  lemma HotkeyHeld(cfg: Config, s: Sink, code: nat, r: KeyReply)
    ensures SameHeld(s, OnHotkey(cfg, s, code, r))
  {
    SinkAgent.SetGrabKeepsHeld(cfg, s, !s.win.grabbed, r.grabOk);
  }

  lemma KeyHeld(cfg: Config, s0: Sink, code: nat, down: bool, r: KeyReply)
    ensures var n, ev := OnKey(cfg, s0, code, down, r), EvKey(code, down, r);
            if AsksToPaste(cfg, s0, ev) then n.clip.held == Asked(s0, ev) else SameHeld(s0, n)
  {
    if code < KEY_CNT {
      var s := s0.(keys := s0.keys.(latch := Latched(s0.keys.latch, code, down)));
      var n := OnLatchedKey(cfg, s, code, down, r);
      FoundIffCompletes(cfg.triggers, code, s.keys.latch);
      var t := if down && s.win.focused then PasteKey(cfg, s, code) else [];
      if down && IsHotkey(s.keys.latch, code) {
        assert n == OnHotkey(cfg, Consume(s, code), code, r);
        HotkeyHeld(cfg, Consume(s, code), code, r);
      } else if t != [] {
        assert n == OnPasteKey(cfg, Consume(s, code), t[0].(code := code), r);
        PasteKeyHeld(cfg, Consume(s, code), t[0].(code := code), r);
      } else {
        assert n == OnPlainKey(s, code, down);
        PlainKeyHeld(s, code, down);
      }
    }
  }

  /** One step holds a key it did not hold before exactly when the user asked for it. */
  lemma HeldIffAsked(cfg: Config, s: Sink, ev: Event)
    ensures var r := SinkModel.Step(cfg, s, ev);
            if AsksToPaste(cfg, s, ev) then r.clip.held == Asked(s, ev) else SameHeld(s, r)
  {
    if ev.EvKey? {
      KeyHeld(cfg, s, ev.code, ev.down, ev.reply);
    } else if !ev.EvCaps? {
      SinkAgent.StepKeepsHeld(cfg, s, ev);
    }
  }

  /** Event `i` of the history was the user asking for the key that is held, and it has been held ever since. */
  predicate HeldSince(cfg: Config, evs: seq<Event>, i: int) {
    && 0 <= i < |evs| && AsksToPaste(cfg, After(cfg, evs[..i]), evs[i])
    && var h := After(cfg, evs).clip.held;
       && h == Asked(After(cfg, evs[..i]), evs[i])
       && forall j :: i < j <= |evs| ==> HeldAt(cfg, evs, j, h)
  }

  predicate HeldAt(cfg: Config, evs: seq<Event>, j: int, h: Held)
    requires 0 <= j <= |evs|
  {
    var s := After(cfg, evs[..j]); s.clip.held == h && s.link.connected && s.link.generation == h.generation
  }

  /** The last event of a history that ends with a key held: it asked for that key, or left it as it was. */
  lemma HeldLast(cfg: Config, evs: seq<Event>)
    requires evs != [] && After(cfg, evs).clip.held.key != 0
    ensures var s, h := After(cfg, evs[..|evs| - 1]), After(cfg, evs).clip.held;
            && HeldAt(cfg, evs, |evs|, h)
            && if AsksToPaste(cfg, s, evs[|evs| - 1]) then h == Asked(s, evs[|evs| - 1]) else h == s.clip.held
  {
    var n := |evs| - 1;
    assert evs == evs[..n] + [evs[n]] && evs[..|evs|] == evs;
    RunSnoc(cfg, Initial, evs[..n], evs[n]);
    HeldIffAsked(cfg, After(cfg, evs[..n]), evs[n]);
    HeldKeyIsThisConnections(cfg, evs);
  }

  /** After any history: a held key is one the user pressed, focused on this very connection. */
  lemma {:induction false} HeldKeyWasPressed(cfg: Config, evs: seq<Event>)
    requires After(cfg, evs).clip.held.key != 0
    ensures exists i :: HeldSince(cfg, evs, i)
    decreases |evs|
  {
    if evs != [] {
      var n := |evs| - 1;
      HeldLast(cfg, evs);
      if AsksToPaste(cfg, After(cfg, evs[..n]), evs[n]) {
        assert HeldSince(cfg, evs, n);
      } else {
        HeldKeyWasPressed(cfg, evs[..n]);
        var i :| HeldSince(cfg, evs[..n], i);
        HeldOn(cfg, evs, i);
      }
    }
  }

  /** A key that stayed held over the last event. */
  lemma HeldOn(cfg: Config, evs: seq<Event>, i: int)
    requires evs != [] && HeldSince(cfg, evs[..|evs| - 1], i)
    requires HeldAt(cfg, evs, |evs|, After(cfg, evs[..|evs| - 1]).clip.held)
    ensures HeldSince(cfg, evs, i)
  {
    var n := |evs| - 1;
    assert evs[..|evs|] == evs && evs[..n][..i] == evs[..i];
    forall j | i < j <= |evs| ensures HeldAt(cfg, evs, j, After(cfg, evs).clip.held) {
      if j <= n {
        assert evs[..n][..j] == evs[..j] && HeldAt(cfg, evs[..n], j, After(cfg, evs[..n]).clip.held);
      }
    }
  }

  /**
   * A text is taken only in consent mode and for the connection whose own user pressed the paste key:
   * that press is in the history, and its key has been held for that connection ever since.
   */
  lemma AcceptedWasAskedFor(cfg: Config, evs: seq<Event>, generation: nat, text: seq<Byte>)
    requires SendClipboard(After(cfg, evs), generation, text).1
    ensures var s := After(cfg, evs);
            && cfg.mode == ClipIn.Consent && s.clip.announced
            && generation == s.link.generation == s.clip.held.generation
    ensures exists i :: HeldSince(cfg, evs, i) && After(cfg, evs[..i]).link.generation == generation
  {
    HeldKeyIsThisConnections(cfg, evs);
    HeldKeyWasPressed(cfg, evs);
  }

  // ---- the grab -----------------------------------------------------------------------------

  /** The user presses the grab hotkey on a connected, ungrabbed window, and the display grants it. */
  predicate AsksToGrab(cfg: Config, s: Sink, ev: Event) {
    && ev.EvKey? && ev.down && ev.code == KEY_G && ev.reply.grabOk
    && s.keys.latch.ctrl && s.keys.latch.alt && !s.win.grabbed && s.link.connected && cfg.FocusEvents()
  }

  lemma PasteTriggerWindow(cfg: Config, s: Sink, fetch: Fetch)
    ensures PasteTrigger(cfg, s, fetch).win.grabbed ==> s.win.grabbed
  {
    var g := s.clip.held.generation;
    ClipFinishWindow(s.(clip := s.clip.(toldOff := true)), g, true);
    ClipFinishWindow(s, g, true);
    ClipFinishWindow(s, g, false);
  }

  lemma OnPasteKeyWindow(cfg: Config, s: Sink, t: Trigger, r: KeyReply)
    ensures OnPasteKey(cfg, s, t, r).win.grabbed ==> s.win.grabbed
  {
    PasteTriggerWindow(cfg, s.(clip := s.clip.(held := Held(t.code, t.ctrl, t.shift, s.link.generation))), r.fetch);
  }

  /** A grab is taken only where there is a client, focus loss can be seen, and the display agrees. */
  lemma GrabTaken(cfg: Config, s: Sink, ok: bool)
    requires !s.win.grabbed && SetGrab(cfg, s, true, ok).win.grabbed
    ensures cfg.FocusEvents() && ok && s.link.connected
  {
    ReleaseFromSameOrEnded(s.(win := s.win.(backendGrab := true)), 0);
  }

  lemma HotkeyGrab(cfg: Config, s: Sink, code: nat, r: KeyReply)
    ensures OnHotkey(cfg, s, code, r).win.grabbed
            ==> s.win.grabbed || (code == KEY_G && cfg.FocusEvents() && r.grabOk && s.link.connected)
  {
    if !s.win.grabbed && code == KEY_G && OnHotkey(cfg, s, code, r).win.grabbed {
      GrabTaken(cfg, s, r.grabOk);
    }
  }

  lemma KeyGrab(cfg: Config, s0: Sink, code: nat, down: bool, r: KeyReply)
    ensures OnKey(cfg, s0, code, down, r).win.grabbed ==> s0.win.grabbed || AsksToGrab(cfg, s0, EvKey(code, down, r))
  {
    if code < KEY_CNT {
      var s := s0.(keys := s0.keys.(latch := Latched(s0.keys.latch, code, down)));
      var n := OnLatchedKey(cfg, s, code, down, r);
      var t := if down && s.win.focused then PasteKey(cfg, s, code) else [];
      if down && IsHotkey(s.keys.latch, code) {
        assert n == OnHotkey(cfg, Consume(s, code), code, r);
        HotkeyGrab(cfg, Consume(s, code), code, r);
      } else if t != [] {
        assert n == OnPasteKey(cfg, Consume(s, code), t[0].(code := code), r);
        OnPasteKeyWindow(cfg, Consume(s, code), t[0].(code := code), r);
      } else {
        assert n == OnPlainKey(s, code, down);
        EmitWindow(SetKey(s, code, down), Key, code, B(down), 0, 0);
      }
    }
  }

  /** No event but the user's hotkey takes a grab: no command of a client, and no other input. */
  lemma GrabOnlyAsked(cfg: Config, s: Sink, ev: Event)
    ensures SinkModel.Step(cfg, s, ev).win.grabbed ==> s.win.grabbed || AsksToGrab(cfg, s, ev)
  {
    match ev
    case EvKey(code, down, reply) => KeyGrab(cfg, s, code, down, reply);
    case EvFocus(active) =>
      if active && !s.win.focused {
        EmitWindow(s.(win := s.win.(focused := true)), Focus, 1, 0, 0, 0);
      } else if s.win.focused && !active {
        FocusLossDropsGrab(s);
      }
    case _ => StepWindow(cfg, s, ev);
  }

  /** A step that ends grabbed has not changed connections. */
  lemma GrabKeepsConnection(cfg: Config, s: Sink, ev: Event)
    requires Inv(cfg, s) && SinkModel.Step(cfg, s, ev).win.grabbed
    ensures var r := SinkModel.Step(cfg, s, ev); r.link.connected && r.link.generation == s.link.generation
  {
    StepInv(cfg, s, ev);
    if ev.EvAttach? {
      AttachUngrabs(cfg, s, ev.ok);
    } else {
      StepSameOrEnded(cfg, s, ev);
    }
  }

  lemma AttachUngrabs(cfg: Config, s: Sink, ok: bool)
    ensures var r := SinkModel.Step(cfg, s, EvAttach(ok)); r.win.grabbed ==> r == s
  {}

  predicate GrabbedAt(cfg: Config, evs: seq<Event>, j: int, generation: nat)
    requires 0 <= j <= |evs|
  {
    var s := After(cfg, evs[..j]); s.win.grabbed && s.link.connected && s.link.generation == generation
  }

  /** Event `i` of the history was the user taking the grab, and it has been held ever since. */
  predicate GrabbedSince(cfg: Config, evs: seq<Event>, i: int) {
    && 0 <= i < |evs| && AsksToGrab(cfg, After(cfg, evs[..i]), evs[i])
    && var g := After(cfg, evs).link.generation;
       && After(cfg, evs[..i]).link.generation == g
       && forall j :: i < j <= |evs| ==> GrabbedAt(cfg, evs, j, g)
  }

  /** The last event of a history that ends grabbed: it asked for the grab, or found it. */
  lemma GrabbedLast(cfg: Config, evs: seq<Event>)
    requires evs != [] && After(cfg, evs).win.grabbed
    ensures var s := After(cfg, evs[..|evs| - 1]);
            && GrabbedAt(cfg, evs, |evs|, s.link.generation)
            && (s.win.grabbed || AsksToGrab(cfg, s, evs[|evs| - 1]))
  {
    var n := |evs| - 1;
    var s := After(cfg, evs[..n]);
    assert evs == evs[..n] + [evs[n]] && evs[..|evs|] == evs;
    RunSnoc(cfg, Initial, evs[..n], evs[n]);
    AfterInv(cfg, evs[..n]);
    GrabOnlyAsked(cfg, s, evs[n]);
    GrabKeepsConnection(cfg, s, evs[n]);
  }

  lemma GrabbedJustNow(cfg: Config, evs: seq<Event>)
    requires evs != [] && AsksToGrab(cfg, After(cfg, evs[..|evs| - 1]), evs[|evs| - 1])
    requires GrabbedAt(cfg, evs, |evs|, After(cfg, evs[..|evs| - 1]).link.generation)
    ensures GrabbedSince(cfg, evs, |evs| - 1)
  {
    assert evs[..|evs|] == evs;
  }

  /** After any history: a grab is one the user asked for on this very connection. */
  lemma {:induction false} GrabWasAskedFor(cfg: Config, evs: seq<Event>)
    requires After(cfg, evs).win.grabbed
    ensures exists i :: GrabbedSince(cfg, evs, i)
    decreases |evs|
  {
    if evs != [] {
      GrabbedLast(cfg, evs);
      if After(cfg, evs[..|evs| - 1]).win.grabbed {
        GrabWasAskedFor(cfg, evs[..|evs| - 1]);
        var i :| GrabbedSince(cfg, evs[..|evs| - 1], i);
        GrabbedOn(cfg, evs, i);
      } else {
        GrabbedJustNow(cfg, evs);
      }
    }
  }

  /** A grab that outlasted the last event. */
  lemma GrabbedOn(cfg: Config, evs: seq<Event>, i: int)
    requires evs != [] && GrabbedSince(cfg, evs[..|evs| - 1], i)
    requires GrabbedAt(cfg, evs, |evs|, After(cfg, evs[..|evs| - 1]).link.generation)
    ensures GrabbedSince(cfg, evs, i)
  {
    var n := |evs| - 1;
    assert evs[..|evs|] == evs && evs[..n][..i] == evs[..i];
    forall j | i < j <= |evs| ensures GrabbedAt(cfg, evs, j, After(cfg, evs).link.generation) {
      if j <= n {
        assert evs[..n][..j] == evs[..j] && GrabbedAt(cfg, evs[..n], j, After(cfg, evs[..n]).link.generation);
      }
    }
  }
}
