// A held paste key and the clipboard agent behind it: exactly how the one can outlive the other.

module SinkAgent {
  import opened Protocol
  import opened TxRing
  import opened SinkModel
  import ClipIn

  /** A paste key is held only while the client reports an agent. */
  predicate Backed(s: Sink) {
    s.clip.held.key != 0 ==> s.clip.capsSeen % 2 == 1
  }

  /** The held key is let go of, or nothing about it has changed. */
  predicate KeepsHeld(s: Sink, r: Sink) {
    r.clip.held.key == 0 || (r.clip.held == s.clip.held && r.clip.capsSeen == s.clip.capsSeen)
  }

  lemma EmitKeepsHeld(s: Sink, kind: Kind, x: Int32, y: Int32, w0: Uint32, w1: Uint32)
    requires kind != Clipboard
    ensures KeepsHeld(s, Emit(s, kind, x, y, w0, w1))
  {}

  lemma {:induction false} ReleaseKeepsHeld(s: Sink, c: nat)
    requires c <= KEY_CNT
    ensures KeepsHeld(s, ReleaseFrom(s, c))
    decreases KEY_CNT - c
  {
    if c < KEY_CNT {
      EmitKeepsHeld(SetKey(s, c, false), EdgeKind(c), c, B(false), 0, 0);
      ReleaseKeepsHeld(if c in s.keys.down then KeyEdge(s, EdgeKind(c), c, false) else s, c + 1);
    }
  }

  lemma {:induction false} EdgesKeepHeld(s: Sink, es: seq<(Code, bool)>)
    ensures KeepsHeld(s, KeyEdges(s, es))
    decreases |es|
  {
    if es != [] {
      EmitKeepsHeld(SetKey(s, es[0].0, es[0].1), Key, es[0].0, B(es[0].1), 0, 0);
      EdgesKeepHeld(KeyEdge(s, Key, es[0].0, es[0].1), es[1..]);
    }
  }

  lemma SetGrabKeepsHeld(cfg: Config, s: Sink, on: bool, ok: bool)
    ensures KeepsHeld(s, SetGrab(cfg, s, on, ok))
  {
    var s0 := s.(win := s.win.(backendGrab := on));
    ReleaseKeepsHeld(s0, 0);
    var s1 := ReleaseAll(s0);
    EmitKeepsHeld(s1.(win := s1.win.(grabbed := on)), Grab, B(on), 0, 0, 0);
  }

  lemma OnFocusKeepsHeld(s: Sink, active: bool)
    ensures KeepsHeld(s, OnFocus(s, active))
  {
    if !active {
      var s0 := s.(win := Ungrabbed(s.win.(focused := false)));
      ReleaseKeepsHeld(s0, 0);
      var s1 := ReleaseAll(s0);
      var s2 := s1.(win := s1.win.(pointerIn := false));
      EmitKeepsHeld(s2, Focus, 0, 0, 0, 0);
      EmitKeepsHeld(Emit(s2, Focus, 0, 0, 0, 0), Grab, 0, 0, 0, 0);
    }
  }

  /** Finishing lets go of the key it is for, and of no other. */
  lemma ClipFinishKeepsHeld(s: Sink, generation: nat, paste: bool)
    ensures KeepsHeld(s, ClipFinish(s, generation, paste))
    ensures Current(s, generation) ==> ClipFinish(s, generation, paste).clip.held.key == 0
  {
    EdgesKeepHeld(s.(clip := s.clip.(held := NotHeld)), Chord(s));
  }

  /** A new paste key stays held only in front of an agent: every other outcome finishes it at once. */
  lemma PasteTriggerBacked(cfg: Config, s: Sink, fetch: Fetch)
    requires s.clip.held.generation == s.link.generation
    ensures Backed(PasteTrigger(cfg, s, fetch))
  {
    var g := s.clip.held.generation;
    if cfg.mode != ClipIn.Consent {
      ClipFinishKeepsHeld(s.(clip := s.clip.(toldOff := true)), g, true);
    } else {
      ClipFinishKeepsHeld(s, g, true);
      ClipFinishKeepsHeld(s, g, false);
    }
  }

  lemma OnKeyBacked(cfg: Config, s0: Sink, code: nat, down: bool, r: KeyReply)
    requires Backed(s0)
    ensures Backed(OnKey(cfg, s0, code, down, r))
  {
    if code < KEY_CNT {
      var s := s0.(keys := s0.keys.(latch := Latched(s0.keys.latch, code, down)));
      var s1 := Consume(s, code);
      if down && IsHotkey(s.keys.latch, code) {
        SetGrabKeepsHeld(cfg, s1, !s1.win.grabbed, r.grabOk);
      } else {
        var t := if down && s.win.focused then PasteKey(cfg, s, code) else [];
        if t != [] {
          PasteTriggerBacked(cfg, s1.(clip := s1.clip.(held := Held(code, t[0].ctrl, t[0].shift, s1.link.generation))), r.fetch);
        } else {
          EmitKeepsHeld(SetKey(s, code, down), Key, code, B(down), 0, 0);
        }
      }
    }
  }

  lemma SayKeepsHeld(s: Sink, kind: Kind, x: Int32, sends: seq<Send>)
    requires kind != Clipboard
    ensures KeepsHeld(s, SayAndFlush(s, kind, x, sends)) && KeepsHeld(s, Detach(SayAndFlush(s, kind, x, sends)))
  {
    EmitKeepsHeld(s, kind, x, 0, 0, 0);
  }

  lemma InputKeepsHeld(cfg: Config, s: Sink, ev: Event)
    requires ev.EvBtn? || ev.EvAbs? || ev.EvRel? || ev.EvWheel? || ev.EvPointer? || ev.EvSurface?
    ensures KeepsHeld(s, SinkModel.Step(cfg, s, ev))
  {
    match ev
    case EvBtn(code, down) =>
    case EvAbs(x, y, w, h) =>
    case EvRel(dx, dy) =>
    case EvWheel(v, h) =>
    case EvPointer(inside) =>
    case EvSurface(w, h, refresh) =>
  }

  lemma ReportKeepsHeld(s: Sink, r: Report)
    ensures KeepsHeld(s, OnReport(s, r))
  {}

  lemma StepKeepsHeld(cfg: Config, s: Sink, ev: Event)
    requires !ev.EvKey? && !ev.EvCaps?
    ensures KeepsHeld(s, SinkModel.Step(cfg, s, ev))
  {
    match ev
    case EvAttach(ok) =>
    case EvHangup =>
    case EvFlush(sends) =>
    case EvFullscreen(on) =>
    case EvSendClipboard(generation, text) =>
    case EvClipOffered =>
    case EvReport(r) => ReportKeepsHeld(s, r);
    case EvFormat(usable, fourcc, lo, hi) => EmitKeepsHeld(s, Format, B(usable), Signed(fourcc), lo, hi);
    case EvFocus(active) => OnFocusKeepsHeld(s, active);
    case EvUngrab => SetGrabKeepsHeld(cfg, s, false, true);
    case EvClipFinish(generation, paste) => ClipFinishKeepsHeld(s, generation, paste);
    case EvClose(action, sends) => SayKeepsHeld(s, Close, action, sends);
    case EvBye(reason, sends) => SayKeepsHeld(s, Bye, reason, sends);
    case EvViolation(sends) => SayKeepsHeld(s, Bye, 2, sends);
    case _ => InputKeepsHeld(cfg, s, ev);
  }

  /** The client reports, over a live connection, that it has no agent any more, while its key is held. */
  predicate Withdraws(s: Sink, ev: Event) {
    ev.EvCaps? && ev.bits % 2 == 0 && s.link.connected && s.clip.held.key != 0
  }

  /** A step leaves a key held without an agent exactly when it is the client withdrawing the agent. */
  lemma AgentWithdrawnIff(cfg: Config, s: Sink, ev: Event)
    requires Backed(s)
    ensures !Backed(SinkModel.Step(cfg, s, ev)) <==> Withdraws(s, ev)
  {
    if ev.EvKey? {
      OnKeyBacked(cfg, s, ev.code, ev.down, ev.reply);
    } else if !ev.EvCaps? {
      StepKeepsHeld(cfg, s, ev);
    }
  }

  predicate NeverWithdraws(cfg: Config, s: Sink, evs: seq<Event>)
    decreases |evs|
  {
    evs == [] || (!Withdraws(s, evs[0]) && NeverWithdraws(cfg, SinkModel.Step(cfg, s, evs[0]), evs[1..]))
  }

  /** Over runs in which no client does that, a held key always has its agent. */
  lemma {:induction false} HeldKeyHasAgent(cfg: Config, s: Sink, evs: seq<Event>)
    requires Backed(s)
    ensures NeverWithdraws(cfg, s, evs) ==> Backed(SinkModel.Run(cfg, s, evs))
    decreases |evs|
  {
    if evs != [] && NeverWithdraws(cfg, s, evs) {
      AgentWithdrawnIff(cfg, s, evs[0]);
      HeldKeyHasAgent(cfg, SinkModel.Step(cfg, s, evs[0]), evs[1..]);
    }
  }
}
