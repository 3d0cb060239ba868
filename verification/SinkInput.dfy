// The user's input, as the client gets it: every key, button and motion that is the client's, and the
// paste chord with the modifiers it takes.

module SinkInput {
  import opened Protocol
  import opened TxQueue
  import opened TxRing
  import opened SinkModel
  import opened SinkSafety
  import opened SinkPaste
  import opened SinkConsent
  import opened SinkScript
  import SinkStream
  import ClipIn

  /** The connection with one packet of this kind and these arguments added, or lost for want of room. */
  predicate Adds(s: Sink, kind: Kind, body: Body, l: Link)
    requires s.link.connected
  {
    if s.link.tx.Relieved().Full() then !l.connected
    else && l.connected && l.generation == s.link.generation && |l.emitted| == |s.link.emitted| + 1
         && l.emitted[..|s.link.emitted|] == s.link.emitted
         && var p := l.emitted[|s.link.emitted|];
            && p.kind == kind && p.body == body && p.seqno == s.link.seqno
            && p.flags == Bits(s.win.grabbed, s.win.focused, s.win.fullscreen)
  }

  lemma OneLine(s: Sink, kind: Kind, x: Int32, y: Int32, w0: Uint32, w1: Uint32)
    requires kind != Clipboard && s.link.connected
    ensures Adds(s, kind, Args(x, y, w0, w1), Spoken(s.link, [Line(s.win, kind, x, y, w0, w1)]))
  {
    var p := Line(s.win, kind, x, y, w0, w1);
    var q := p.(seqno := s.link.seqno);
    assert [p][1..] == [];
    assert Stamp(s.link.seqno, [p]) == [q];
    TakesOne(s.link.tx, q);
  }

  // ---- keys and buttons --------------------------------------------------------------------------

  /** The key is the broker's own, or a paste key the policy looks at. */
  predicate Kept(cfg: Config, s: Sink, code: nat, down: bool) {
    var l := Modifiers(s.keys.latch, code, down);
    BrokersOwn(l, code, down) || PasteAsked(cfg, s, l, code, down)
  }

  /** A key that is the client's, moved: the window has focus, its press was not consumed, and it is an edge. */
  predicate ClientsEdge(s: Sink, code: nat, down: bool) {
    code < 768 && s.win.focused && code !in s.keys.consumed && down != (code in s.keys.down)
  }

  /**
   * A key the broker does not keep for itself reaches the client exactly when it is an edge of a focused
   * window's: as one KEY packet with its code and direction.  Otherwise the client hears nothing.
   */
  lemma KeyReachesClient(cfg: Config, s: Sink, code: nat, down: bool, r: KeyReply)
    requires s.link.connected && !Kept(cfg, s, code, down)
    ensures var l := SinkModel.Step(cfg, s, EvKey(code, down, r)).link;
            if ClientsEdge(s, code, down) then Adds(s, Key, Args(code, if down then 1 else 0, 0, 0), l) else l == s.link
  {
    SinkStream.StepOutcome(cfg, s, EvKey(code, down, r));
    SpokenNothing(s.link);
    if ClientsEdge(s, code, down) {
      OneLine(s, Key, code, if down then 1 else 0, 0, 0);
    }
  }

  /** So does a button, while the pointer is the client's. */
  lemma ButtonReachesClient(cfg: Config, s: Sink, code: nat, down: bool)
    requires s.link.connected
    ensures var l := SinkModel.Step(cfg, s, EvBtn(code, down)).link;
            if code < 768 && s.win.focused && (s.win.grabbed || s.win.pointerIn) && down != (code in s.keys.down)
            then Adds(s, Btn, Args(code, if down then 1 else 0, 0, 0), l) else l == s.link
  {
    SinkStream.StepOutcome(cfg, s, EvBtn(code, down));
    SpokenNothing(s.link);
    if code < 768 {
      OneLine(s, Btn, code, if down then 1 else 0, 0, 0);
    }
  }

  /** Motion reaches the client with the numbers the display reported: positions without a grab, deltas with one. */
  lemma AbsReachesClient(cfg: Config, s: Sink, x: Int32, y: Int32, w: Uint32, h: Uint32)
    requires s.link.connected
    ensures var l := SinkModel.Step(cfg, s, EvAbs(x, y, w, h)).link;
            if s.win.focused && s.win.pointerIn && !s.win.grabbed then Adds(s, Abs, Args(x, y, w, h), l) else l == s.link
  {
    SinkStream.StepOutcome(cfg, s, EvAbs(x, y, w, h));
    SpokenNothing(s.link);
    OneLine(s, Abs, x, y, w, h);
  }

  lemma RelReachesClient(cfg: Config, s: Sink, x: Int32, y: Int32)
    requires s.link.connected
    ensures var l := SinkModel.Step(cfg, s, EvRel(x, y)).link;
            if s.win.focused && s.win.grabbed && (x != 0 || y != 0) then Adds(s, Rel, Args(x, y, 0, 0), l) else l == s.link
  {
    SinkStream.StepOutcome(cfg, s, EvRel(x, y));
    SpokenNothing(s.link);
    OneLine(s, Rel, x, y, 0, 0);
  }

  lemma WheelReachesClient(cfg: Config, s: Sink, x: Int32, y: Int32)
    requires s.link.connected
    ensures var l := SinkModel.Step(cfg, s, EvWheel(x, y)).link;
            if s.win.focused && (s.win.grabbed || s.win.pointerIn) then Adds(s, Wheel, Args(x, y, 0, 0), l) else l == s.link
  {
    SinkStream.StepOutcome(cfg, s, EvWheel(x, y));
    SpokenNothing(s.link);
    OneLine(s, Wheel, x, y, 0, 0);
  }

  // ---- the paste chord ----------------------------------------------------------------------------

  /** A Ctrl key, a Shift key. */
  predicate HasCtrl(keys: set<int>) {
    29 in keys || 97 in keys
  }

  predicate HasShift(keys: set<int>) {
    42 in keys || 54 in keys
  }

  /** What the client has down once the modifiers are. */
  predicate Modified(v: set<int>, down: set<int>, ctrl: bool, shift: bool) {
    && (ctrl ==> HasCtrl(v)) && (shift ==> HasShift(v))
    && down <= v && (forall m :: m in v ==> m in down || (ctrl && m == 29) || (shift && m == 42))
    && (HasCtrl(down) ==> 29 in down || 29 !in v) && (HasShift(down) ==> 42 in down || 42 !in v)
  }

  /**
   * `sent` has, from position `at` on, a press of `code`; just before it the client has down what it
   * had (`down`) and the modifiers the paste key takes, and nothing else.
   */
  predicate PressedWith(sent: seq<Pkt>, at: nat, k: int, down: set<int>, code: Code, ctrl: bool, shift: bool) {
    && at <= k < |sent| && sent[k].kind == Key && sent[k].body == Args(code, 1, 0, 0)
    && Modified(KeyView(sent[..k]), down, ctrl, shift)
  }

  lemma LeadView(before: seq<Pkt>, n: Uint32, w: Window, c: bool, h: bool)
    ensures KeyView(before + Stamp(n, Lead(w, c, h)))
            == KeyView(before) + (if c then {29} else {}) + (if h then {42} else {})
  {
    var qs := Stamp(n, Lead(w, c, h));
    if c && h {
      var p, q := EdgeLine(w, 29, true).(seqno := n), EdgeLine(w, 42, true).(seqno := NextSeq(n));
      StampAt(n, Lead(w, c, h), 0);
      StampAt(n, Lead(w, c, h), 1);
      assert before + qs == (before + [p]) + [q];
      ViewsSnoc(before, p);
      ViewsSnoc(before + [p], q);
    } else if c || h {
      var p := EdgeLine(w, if c then 29 else 42, true).(seqno := n);
      StampAt(n, Lead(w, c, h), 0);
      assert before + qs == before + [p];
      ViewsSnoc(before, p);
    } else {
      assert before + qs == before;
    }
  }

  lemma LeadModifies(down: set<int>, ctrl: bool, shift: bool, c: bool, h: bool)
    requires c == (ctrl && 29 !in down && 97 !in down) && h == (shift && 42 !in down && 54 !in down)
    ensures Modified(down + (if c then {29} else {}) + (if h then {42} else {}), down, ctrl, shift)
  {}

  lemma PressAt(pre: seq<Pkt>, post: seq<Pkt>, at: nat, down: set<int>, code: Code, ctrl: bool, shift: bool)
    requires at <= |pre| && post != [] && post[0].kind == Key && post[0].body == Args(code, 1, 0, 0)
    requires Modified(KeyView(pre), down, ctrl, shift)
    ensures PressedWith(pre + post, at, |pre|, down, code, ctrl, shift)
  {
    assert (pre + post)[..|pre|] == pre && (pre + post)[|pre|] == post[0];
  }

  lemma ChordHasModifiers(before: seq<Pkt>, n: Uint32, w: Window, down: set<int>, code: Code, ctrl: bool, shift: bool)
    requires KeyView(before) == down
    ensures exists k :: PressedWith(before + Stamp(n, ChordLines(w, down, code, ctrl, shift)), |before|, k, down, code, ctrl, shift)
  {
    var c, h := ctrl && 29 !in down && 97 !in down, shift && 42 !in down && 54 !in down;
    var lead, trail := Lead(w, c, h), Trail(w, code, c, h);
    var pre, post := before + Stamp(n, lead), Stamp(AdvanceSeq(n, |lead|), trail);
    StampAppend(n, lead, trail);
    Associate(before, Stamp(n, lead), post);
    LeadView(before, n, w, c, h);
    LeadModifies(down, ctrl, shift, c, h);
    StampAt(AdvanceSeq(n, |lead|), trail, 0);
    PressAt(pre, post, |before|, down, code, ctrl, shift);
    assert before + Stamp(n, ChordLines(w, down, code, ctrl, shift)) == pre + post;
  }

  lemma {:induction false} RoomForAll(tx: Tx, ps: seq<Pkt>)
    requires tx.Valid() && |tx.queue| + |ps| < TXRING
    ensures Takes(tx, ps)
    decreases |ps|
  {
    if ps != [] {
      CoalesceSize(tx.queue, tx.partial);
      RoomForAll(tx.Relieved().Push(ps[0]), ps[1..]);
    }
  }

  /** A chord said on a connection whose client sees these keys down. */
  lemma ChordSaid(l: Link, w: Window, down: set<int>, code: Code, ctrl: bool, shift: bool, l': Link)
    requires l.connected && KeyView(l.emitted) == down && l' == Spoken(l, ChordLines(w, down, code, ctrl, shift))
    ensures |l.tx.queue| + 6 < TXRING ==> l'.connected
    ensures l'.connected ==> exists k :: PressedWith(l'.emitted, |l.emitted|, k, down, code, ctrl, shift)
  {
    var lines := ChordLines(w, down, code, ctrl, shift);
    assert |lines| <= 6;
    if |l.tx.queue| + 6 < TXRING {
      RoomForAll(l.tx, Stamp(l.seqno, lines));
    }
    ChordHasModifiers(l.emitted, l.seqno, w, down, code, ctrl, shift);
  }

  lemma PasteSays(cfg: Config, s: Sink, generation: nat)
    requires s.win.focused && s.clip.held.key != 0 && generation == s.link.generation == s.clip.held.generation
    ensures var h := s.clip.held;
            SinkModel.Step(cfg, s, EvClipFinish(generation, true)).link
            == Spoken(s.link, ChordLines(s.win, s.keys.down, h.key, h.ctrl, h.shift))
  {
    SinkStream.StepOutcome(cfg, s, EvClipFinish(generation, true));
  }

  /**
   * A text has come for the held key and the window still has focus: the key is pressed in front of the
   * client with the modifiers it was pressed with, even if the user has let go of them since, and with
   * no others.  Six free slots are enough for the client to survive it.
   */
  lemma PasteIsPressed(cfg: Config, s: Sink, generation: nat)
    requires Inv(cfg, s) && s.link.connected && s.win.focused && s.clip.held.key != 0
    requires generation == s.link.generation == s.clip.held.generation
    ensures var l, h := SinkModel.Step(cfg, s, EvClipFinish(generation, true)).link, s.clip.held;
            && (|s.link.tx.queue| + 6 < TXRING ==> l.connected)
            && (l.connected ==> exists k :: PressedWith(l.emitted, |s.link.emitted|, k, s.keys.down, h.key, h.ctrl, h.shift))
  {
    var h, l := s.clip.held, SinkModel.Step(cfg, s, EvClipFinish(generation, true)).link;
    PasteSays(cfg, s, generation);
    ChordSaid(s.link, s.win, s.keys.down, h.key, h.ctrl, h.shift, l);
  }

  /** A paste key for which no text will come is pressed in front of the client at once. */
  lemma PasteIsPassedOn(cfg: Config, s: Sink, code: Code, r: KeyReply)
    requires Inv(cfg, s) && s.link.connected && 0 < code < 768 && s.clip.held.key == 0
    requires var l := Modifiers(s.keys.latch, code, true);
             PasteAsked(cfg, s, l, code, true) && !BrokersOwn(l, code, true) && PassedOn(cfg, s, r.fetch)
    ensures var l, m := SinkModel.Step(cfg, s, EvKey(code, true, r)).link, Modifiers(s.keys.latch, code, true);
            && (|s.link.tx.queue| + 6 < TXRING ==> l.connected)
            && (l.connected ==> exists k :: PressedWith(l.emitted, |s.link.emitted|, k, s.keys.down, code, m.ctrl, m.shift))
  {
    var m, l := Modifiers(s.keys.latch, code, true), SinkModel.Step(cfg, s, EvKey(code, true, r)).link;
    assert l == Spoken(s.link, ChordLines(s.win, s.keys.down, code, m.ctrl, m.shift)) by {
      SinkStream.StepOutcome(cfg, s, EvKey(code, true, r));
    }
    ChordSaid(s.link, s.win, s.keys.down, code, m.ctrl, m.shift, l);
  }

  /**
   * From `l` to `l'`: chunks that join to the text stand in one piece at the end of what was queued,
   * right before a press of the held key with its modifiers.
   */
  predicate PastedAs(l: Link, l': Link, text: seq<Byte>, down: set<int>, h: Held,
                     q: seq<Pkt>, chunks: seq<Pkt>, chord: seq<Pkt>, k: int) {
    && AllSound(chunks) && Rejoin(chunks) == text
    && l'.tx.queue == q + (chunks + chord) && l'.emitted == l.emitted + chunks + chord
    && PressedWith(l'.emitted, |l.emitted| + |chunks|, k, down, h.key, h.ctrl, h.shift)
  }

  ghost predicate Pasted(l: Link, l': Link, text: seq<Byte>, down: set<int>, h: Held) {
    exists q: seq<Pkt>, chunks: seq<Pkt>, chord: seq<Pkt>, k :: PastedAs(l, l', text, down, h, q, chunks, chord, k)
  }

  lemma PastedWhole(l: Link, l': Link, chunks: seq<Pkt>, es: seq<(Code, bool)>, text: seq<Byte>, down: set<int>, h: Held)
    requires ChordBehind(l, l', chunks, es) && AllSound(chunks) && Rejoin(chunks) == text
    requires exists k :: PressedWith(l'.emitted, |l.emitted + chunks|, k, down, h.key, h.ctrl, h.shift)
    ensures Pasted(l, l', text, down, h)
  {
    var q: seq<Pkt>, chord: seq<Pkt> :| SpellsOut(chord, es)
      && l'.tx.queue == q + (chunks + chord) && l'.emitted == l.emitted + chunks + chord;
    var k :| PressedWith(l'.emitted, |l.emitted + chunks|, k, down, h.key, h.ctrl, h.shift);
    assert PastedAs(l, l', text, down, h, q, chunks, chord, k);
  }

  /** A text that is taken is queued, and nothing else changes. */
  lemma SendEffect(s: Sink, generation: nat, text: seq<Byte>)
    requires SendClipboard(s, generation, text).1
    ensures var s1 := SendClipboard(s, generation, text).0;
            && s1 == s.(link := s1.link) && s1.link.connected && s1.link.generation == s.link.generation
            && s1.link.emitted == s.link.emitted + ClipPkts(Flags(s.win), s.link.seqno, text)
  {}

  lemma SendAndFinishSteps(cfg: Config, s: Sink, generation: nat, text: seq<Byte>)
    ensures SinkModel.Step(cfg, s, EvSendClipboard(generation, text)) == SendClipboard(s, generation, text).0
    ensures SinkModel.Step(cfg, s, EvClipFinish(generation, true)) == ClipFinish(s, generation, true)
  {}

  /**
   * An accepted text, finished at once on a focused window: the client is never lost, the text arrives
   * whole and right before the paste key, pressed with its modifiers, and no other key changes.
   */
  lemma PasteArrivesWhole(cfg: Config, s: Sink, generation: nat, text: seq<Byte>)
    requires Inv(cfg, s) && s.win.focused && TextFits(s, generation, text)
    ensures var s1 := SinkModel.Step(cfg, s, EvSendClipboard(generation, text));
            var r := SinkModel.Step(cfg, s1, EvClipFinish(generation, true));
            && r.link.connected && Pasted(s.link, r.link, text, s.keys.down, s.clip.held)
            && r.keys.down == s.keys.down - {s.clip.held.key}
  {
    var s1, chunks := SendClipboard(s, generation, text).0, ClipPkts(Flags(s.win), s.link.seqno, text);
    SinkStream.TakenIffFits(s, generation, text);
    SendAndFinishSteps(cfg, s, generation, text);
    SendAndFinishSteps(cfg, s1, generation, text);
    SendEffect(s, generation, text);
    SendClipboardInv(cfg, s, generation, text);
    PasteIsPressed(cfg, s1, generation);
    ChordFollowsText(cfg, s, generation, text);
    PastedWhole(s.link, ClipFinish(s1, generation, true).link, chunks, Chord(s), text, s.keys.down, s.clip.held);
  }
}
