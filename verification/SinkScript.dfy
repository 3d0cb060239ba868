// What every event makes the broker say to the client, written down packet by packet, and the proof
// that the policy core says exactly that.

module SinkScript {
  import opened Protocol
  import opened TxRing
  import opened SinkModel
  import opened SinkSafety
  import opened SinkPaste
  import opened SinkConsent
  import ClipIn

  // ---- lines, and what saying them does to a connection -----------------------------------------

  /** The flag bits of a packet. */
  function Bits(grabbed: bool, focused: bool, fullscreen: bool): Uint16 {
    match (grabbed, focused, fullscreen)
    case (false, false, false) => 0
    case (true, false, false) => 1
    case (false, true, false) => 2
    case (true, true, false) => 3
    case (false, false, true) => 4
    case (true, false, true) => 5
    case (false, true, true) => 6
    case (true, true, true) => 7
  }

  /** A packet as the script has it: its number is not known yet. */
  function Line(w: Window, kind: Kind, x: Int32, y: Int32, w0: Uint32, w1: Uint32): Pkt
    requires kind != Clipboard
  {
    Pkt(kind, Bits(w.grabbed, w.focused, w.fullscreen), 0, Args(x, y, w0, w1))
  }

  /** The lines numbered from `n` on. */
  function Stamp(n: Uint32, ps: seq<Pkt>): (r: seq<Pkt>)
    ensures |r| == |ps|
    decreases |ps|
  {
    if ps == [] then [] else [ps[0].(seqno := n)] + Stamp(NextSeq(n), ps[1..])
  }

  /** The ring takes these packets, one after another, coalescing as it goes. */
  predicate Takes(tx: Tx, ps: seq<Pkt>)
    requires tx.Valid()
    decreases |ps|
  {
    ps == [] || (!tx.Relieved().Full() && Takes(tx.Relieved().Push(ps[0]), ps[1..]))
  }

  function Taken(tx: Tx, ps: seq<Pkt>): (r: Tx)
    requires tx.Valid() && Takes(tx, ps)
    ensures r.Valid()
    decreases |ps|
  {
    if ps == [] then tx else Taken(tx.Relieved().Push(ps[0]), ps[1..])
  }

  /** The connection with these packets in its ring. */
  function Said(l: Link, qs: seq<Pkt>): Link
    requires l.connected && Takes(l.tx, qs)
  {
    WithTx(l, Taken(l.tx, qs), qs)
  }

  function WithTx(l: Link, tx: Tx, qs: seq<Pkt>): Link
    requires tx.Valid()
  {
    l.(tx := tx, seqno := AdvanceSeq(l.seqno, |qs|), emitted := l.emitted + qs)
  }

  /** The connection with the lines said, or lost because the ring had no room for all of them. */
  function Spoken(l: Link, ps: seq<Pkt>): Link {
    if !l.connected then l
    else
      var qs := Stamp(l.seqno, ps);
      if Takes(l.tx, qs) then Said(l, qs) else Ended(l)
  }

  lemma {:induction false} StampAt(n: Uint32, ps: seq<Pkt>, i: nat)
    requires i < |ps|
    ensures Stamp(n, ps)[i] == ps[i].(seqno := AdvanceSeq(n, i))
    decreases |ps|
  {
    if i > 0 {
      StampAt(NextSeq(n), ps[1..], i - 1);
      AdvanceBoth(n, 1, i - 1);
    }
  }

  lemma {:induction false} StampAppend(n: Uint32, a: seq<Pkt>, b: seq<Pkt>)
    ensures Stamp(n, a + b) == Stamp(n, a) + Stamp(AdvanceSeq(n, |a|), b)
    decreases |a|
  {
    if a == [] {
      assert a + b == b;
    } else {
      assert (a + b)[0] == a[0] && (a + b)[1..] == a[1..] + b;
      StampAppend(NextSeq(n), a[1..], b);
      assert AdvanceSeq(NextSeq(n), |a| - 1) == AdvanceSeq(n, |a|);
      Associate([a[0].(seqno := n)], Stamp(NextSeq(n), a[1..]), Stamp(AdvanceSeq(n, |a|), b));
    }
  }

  lemma {:induction false} TakesAppend(tx: Tx, a: seq<Pkt>, b: seq<Pkt>)
    requires tx.Valid()
    ensures Takes(tx, a + b) <==> Takes(tx, a) && Takes(Taken(tx, a), b)
    ensures Takes(tx, a + b) ==> Taken(tx, a + b) == Taken(Taken(tx, a), b)
    decreases |a|
  {
    if a == [] {
      assert a + b == b;
    } else {
      assert (a + b)[0] == a[0] && (a + b)[1..] == a[1..] + b;
      if !tx.Relieved().Full() {
        TakesAppend(tx.Relieved().Push(a[0]), a[1..], b);
      }
    }
  }

  lemma SpokenNothing(l: Link)
    ensures Spoken(l, []) == l
  {
    assert l.emitted + [] == l.emitted;
  }

  lemma AdvanceBoth(n: Uint32, a: nat, b: nat)
    ensures AdvanceSeq(AdvanceSeq(n, a), b) == AdvanceSeq(n, a + b)
  {}

  lemma ClosedSilent(l: Link, ps: seq<Pkt>)
    requires !l.connected
    ensures Spoken(l, ps) == l
  {}

  lemma WithBoth(l: Link, t1: Tx, t2: Tx, qa: seq<Pkt>, qb: seq<Pkt>)
    requires t1.Valid() && t2.Valid()
    ensures WithTx(WithTx(l, t1, qa), t2, qb) == WithTx(l, t2, qa + qb)
  {
    Associate(l.emitted, qa, qb);
    AdvanceBoth(l.seqno, |qa|, |qb|);
  }

  lemma SaidBoth(l: Link, qa: seq<Pkt>, qb: seq<Pkt>, l1: Link)
    requires l.connected && Takes(l.tx, qa) && l1 == Said(l, qa)
    ensures Takes(l.tx, qa + qb) <==> Takes(l1.tx, qb)
    ensures Takes(l.tx, qa + qb) ==> Said(l1, qb) == Said(l, qa + qb)
  {
    var t1 := Taken(l.tx, qa);
    TakesAppend(l.tx, qa, qb);
    assert l1.tx == t1;
    if Takes(t1, qb) {
      var t2 := Taken(t1, qb);
      assert Said(l1, qb) == WithTx(l1, t2, qb) && Said(l, qa + qb) == WithTx(l, t2, qa + qb);
      WithBoth(l, t1, t2, qa, qb);
    }
  }

  lemma SpokenAfter(l: Link, a: seq<Pkt>, b: seq<Pkt>)
    requires l.connected && Takes(l.tx, Stamp(l.seqno, a))
    ensures Spoken(Spoken(l, a), b) == Spoken(l, a + b)
  {
    var qa := Stamp(l.seqno, a);
    var l1 := Said(l, qa);
    var qb := Stamp(l1.seqno, b);
    assert Spoken(l, a) == l1;
    assert Stamp(l.seqno, a + b) == qa + qb by {
      StampAppend(l.seqno, a, b);
    }
    SaidBoth(l, qa, qb, l1);
  }

  /** Saying one thing after the other is saying both. */
  lemma SpokenBoth(l: Link, a: seq<Pkt>, b: seq<Pkt>)
    ensures Spoken(Spoken(l, a), b) == Spoken(l, a + b)
  {
    if l.connected && Takes(l.tx, Stamp(l.seqno, a)) {
      SpokenAfter(l, a, b);
    } else if l.connected {
      StampAppend(l.seqno, a, b);
      TakesAppend(l.tx, Stamp(l.seqno, a), Stamp(AdvanceSeq(l.seqno, |a|), b));
      ClosedSilent(Spoken(l, a), b);
    }
  }

  /** One line, and then others if the client is still there. */
  lemma SpokenThen(l: Link, p: Pkt, rest: seq<Pkt>, l1: Link, r: Link)
    requires l1 == Spoken(l, [p]) && r == if l1.connected then Spoken(l1, rest) else l1
    ensures r == Spoken(l, [p] + rest)
  {
    SpokenBoth(l, [p], rest);
  }

  lemma TakesOne(tx: Tx, q: Pkt)
    requires tx.Valid()
    ensures Takes(tx, [q]) <==> !tx.Relieved().Full()
    ensures Takes(tx, [q]) ==> Taken(tx, [q]) == tx.Relieved().Push(q)
  {
    assert [q][1..] == [];
  }

  lemma TransmitSpeaks(l: Link, p: Pkt)
    ensures Transmit(l, p.(seqno := l.seqno)) == Spoken(l, [p])
  {
    if l.connected {
      var q := p.(seqno := l.seqno);
      assert [p][1..] == [];
      assert Stamp(l.seqno, [p]) == [q];
      TakesOne(l.tx, q);
      assert AdvanceSeq(l.seqno, 1) == NextSeq(l.seqno);
      if !l.tx.Relieved().Full() {
        assert Said(l, [q]) == WithTx(l, l.tx.Relieved().Push(q), [q]);
      }
    }
  }

  /** An emission says its line, and changes nothing else while the client is there. */
  lemma EmitSpeaks(s: Sink, kind: Kind, x: Int32, y: Int32, w0: Uint32, w1: Uint32)
    requires kind != Clipboard
    ensures var r := Emit(s, kind, x, y, w0, w1);
            && r.link == Spoken(s.link, [Line(s.win, kind, x, y, w0, w1)])
            && r == if s.link.connected && !r.link.connected then Detach(s) else s.(link := r.link)
  {
    TransmitSpeaks(s.link, Line(s.win, kind, x, y, w0, w1));
  }

  // ---- the script --------------------------------------------------------------------------------

  function EdgeLine(w: Window, code: Code, down: bool): Pkt {
    Line(w, Key, code, if down then 1 else 0, 0, 0)
  }

  /** Everything the client has down, from code `c` on, goes up in order of code: buttons as buttons. */
  function ReleaseLines(w: Window, down: set<int>, c: nat): seq<Pkt>
    requires c <= KEY_CNT
    decreases KEY_CNT - c
  {
    if c == KEY_CNT then []
    else (if c in down then [Line(w, if 0x100 <= c < 0x160 then Btn else Key, c, 0, 0, 0)] else [])
         + ReleaseLines(w, down, c + 1)
  }

  /** The modifiers in effect once this key has moved. */
  function Modifiers(l: Latch, code: nat, down: bool): Latch {
    Latch(if code in {29, 97} then down else l.ctrl, if code in {56, 100} then down else l.alt,
          if code in {42, 54} then down else l.shift)
  }

  /** The modifiers go down in front of a paste key, and up after it. */
  function Lead(w: Window, c: bool, h: bool): seq<Pkt> {
    (if c then [EdgeLine(w, 29, true)] else []) + (if h then [EdgeLine(w, 42, true)] else [])
  }

  function Trail(w: Window, code: Code, c: bool, h: bool): seq<Pkt> {
    [EdgeLine(w, code, true), EdgeLine(w, code, false)]
    + (if h then [EdgeLine(w, 42, false)] else []) + (if c then [EdgeLine(w, 29, false)] else [])
  }

  /** A paste key with its modifiers: what the client does not already have down is wrapped around it. */
  function ChordLines(w: Window, down: set<int>, code: Code, ctrl: bool, shift: bool): seq<Pkt> {
    var c, h := ctrl && 29 !in down && 97 !in down, shift && 42 !in down && 54 !in down;
    Lead(w, c, h) + Trail(w, code, c, h)
  }

  /** A change of grab that takes effect. */
  predicate GrabChanges(cfg: Config, s: Sink, on: bool, ok: bool) {
    s.win.grabbed != on && (on ==> cfg.FocusEvents() && ok)
  }

  function GrabLines(cfg: Config, s: Sink, on: bool, ok: bool): seq<Pkt> {
    if !GrabChanges(cfg, s, on, ok) then []
    else ReleaseLines(s.win, s.keys.down, 0)
         + [Line(s.win.(grabbed := on), Grab, if on then 1 else 0, 0, 0, 0)]
  }

  /** The key is the broker's own: Ctrl+Alt+G or Ctrl+Alt+F. */
  predicate BrokersOwn(l: Latch, code: nat, down: bool) {
    down && l.ctrl && l.alt && code in {33, 34}
  }

  /** The key is a paste key, and the policy looks at it. */
  predicate PasteAsked(cfg: Config, s: Sink, l: Latch, code: nat, down: bool) {
    down && s.win.focused && !(cfg.mode == ClipIn.Off && s.clip.toldOff) && Completes(cfg.triggers, code, l)
  }

  /** No text will come for it, so the key is passed on at once. */
  predicate PassedOn(cfg: Config, s: Sink, fetch: Fetch) {
    cfg.mode != ClipIn.Consent || s.clip.capsSeen % 2 == 0 || fetch == NoText
  }

  function KeyLines(cfg: Config, s: Sink, code: nat, down: bool, r: KeyReply): seq<Pkt> {
    var l := Modifiers(s.keys.latch, code, down);
    if code >= 768 then []
    else if BrokersOwn(l, code, down) then
      if code == 34 then GrabLines(cfg, s, !s.win.grabbed, r.grabOk) else []
    else if PasteAsked(cfg, s, l, code, down) then
      if s.clip.held.key == 0 && code != 0 && PassedOn(cfg, s, r.fetch)
      then ChordLines(s.win, s.keys.down, code, l.ctrl, l.shift) else []
    else if code !in s.keys.consumed && s.win.focused && down != (code in s.keys.down) then [EdgeLine(s.win, code, down)]
    else []
  }

  function FocusLines(s: Sink, active: bool): seq<Pkt> {
    if s.win.focused == active then []
    else if active then [Line(s.win.(focused := true), Focus, 1, 0, 0, 0)]
    else
      var w := s.win.(focused := false, grabbed := false);
      ReleaseLines(w, s.keys.down, 0) + [Line(w, Focus, 0, 0, 0, 0), Line(w, Grab, 0, 0, 0, 0)]
  }

  function ReportLine(w: Window, r: Report): Pkt {
    match r
    case Released(lo, hi) => Line(w, Release, 0, 0, lo, hi)
    case Paced => Line(w, Frame, 0, 0, 0, 0)
    case Unusable(fourcc, lo, hi) => Line(w, Format, 0, Signed(fourcc), lo, hi)
  }

  function ReportLines(w: Window, rs: seq<Report>): seq<Pkt>
    decreases |rs|
  {
    if rs == [] then [] else [ReportLine(w, rs[0])] + ReportLines(w, rs[1..])
  }

  /** The text has come, or is known not to: the held key is pressed if it is still wanted. */
  function FinishLines(s: Sink, generation: nat, paste: bool): seq<Pkt> {
    var h := s.clip.held;
    if paste && s.win.focused && h.key != 0 && generation == s.link.generation == h.generation
    then ChordLines(s.win, s.keys.down, h.key, h.ctrl, h.shift) else []
  }

  /** The pointer is the client's: the window has it, or the grab does. */
  predicate HasPointer(w: Window) {
    w.focused && (w.grabbed || w.pointerIn)
  }

  function TextLines(w: Window, text: seq<Byte>): seq<Pkt> {
    ClipPkts(Bits(w.grabbed, w.focused, w.fullscreen), 0, text)
  }

  /** The text is for the key that is held, within the cap, and fits the ring with the six edges of a chord. */
  predicate TextFits(s: Sink, generation: nat, text: seq<Byte>) {
    && s.link.connected && s.clip.held.key != 0 && generation == s.link.generation == s.clip.held.generation
    && |text| <= 7168 && |s.link.tx.queue| + |TextLines(s.win, text)| + 6 < 512
  }

  /** The lines an event adds to the stream of a connection it does not end. */
  function Script(cfg: Config, s: Sink, ev: Event): seq<Pkt> {
    var w := s.win;
    match ev
    case EvKey(code, down, reply) => KeyLines(cfg, s, code, down, reply)
    case EvBtn(code, down) =>
      if code < 768 && HasPointer(w) && down != (code in s.keys.down)
      then [Line(w, Btn, code, if down then 1 else 0, 0, 0)] else []
    case EvAbs(x, y, ww, hh) => if w.focused && w.pointerIn && !w.grabbed then [Line(w, Abs, x, y, ww, hh)] else []
    case EvRel(dx, dy) => if w.focused && w.grabbed && !(dx == 0 && dy == 0) then [Line(w, Rel, dx, dy, 0, 0)] else []
    case EvWheel(v, hz) => if HasPointer(w) then [Line(w, Wheel, v, hz, 0, 0)] else []
    case EvFocus(active) => FocusLines(s, active)
    case EvPointer(inside) =>
      if w.pointerIn == inside then [] else [Line(w, Pointer, if inside then 1 else 0, 0, 0, 0)]
    case EvSurface(ww, hh, refresh) =>
      if ww == 0 || hh == 0 || (w.width, w.height) == (ww, hh) then []
      else [Line(w, Surface, Signed(ww), Signed(hh), refresh, 0)]
    case EvReport(report) => [ReportLine(w, report)]
    case EvFormat(usable, fourcc, lo, hi) => [Line(w, Format, if usable then 1 else 0, Signed(fourcc), lo, hi)]
    case EvUngrab => GrabLines(cfg, s, false, true)
    case EvClose(action, _) => [Line(w, Close, action, 0, 0, 0)]
    case EvBye(reason, _) => [Line(w, Bye, reason, 0, 0, 0)]
    case EvViolation(_) => [Line(w, Bye, 2, 0, 0, 0)]
    case EvClipFinish(generation, paste) => FinishLines(s, generation, paste)
    case EvSendClipboard(generation, text) => if TextFits(s, generation, text) then TextLines(w, text) else []
    case EvAttach(_) => []
    case EvHangup => []
    case EvFlush(_) => []
    case EvFullscreen(_) => []
    case EvCaps(_) => []
    case EvClipOffered => []
  }

  // ---- the policy core follows it -----------------------------------------------------------------

  lemma {:induction false} ReleaseLinesFrom(w: Window, down: set<int>, k: int, c: nat)
    requires k < c <= KEY_CNT
    ensures ReleaseLines(w, down - {k}, c) == ReleaseLines(w, down, c)
    decreases KEY_CNT - c
  {
    if c < KEY_CNT {
      ReleaseLinesFrom(w, down, k, c + 1);
    }
  }

  lemma KeyEdgeSpeaks(s: Sink, kind: Kind, code: Code, down: bool)
    requires kind != Clipboard
    ensures var r := KeyEdge(s, kind, code, down);
            && r.link == Spoken(s.link, [Line(s.win, kind, code, B(down), 0, 0)])
            && (r.link.connected ==> r.win == s.win && r.keys.down == SetKey(s, code, down).keys.down)
  {
    EmitSpeaks(SetKey(s, code, down), kind, code, B(down), 0, 0);
  }

  lemma ReleaseLinesNext(w: Window, down: set<int>, c: nat)
    requires c < KEY_CNT
    ensures ReleaseLines(w, down, c)
            == if c in down then [Line(w, EdgeKind(c), c, 0, 0, 0)] + ReleaseLines(w, down - {c}, c + 1)
               else ReleaseLines(w, down, c + 1)
  {
    ReleaseLinesFrom(w, down, c, c + 1);
    assert [] + ReleaseLines(w, down, c + 1) == ReleaseLines(w, down, c + 1);
  }

  lemma {:induction false} ReleaseSpeaks(s: Sink, c: nat)
    requires c <= KEY_CNT
    ensures ReleaseFrom(s, c).link == Spoken(s.link, ReleaseLines(s.win, s.keys.down, c))
    decreases KEY_CNT - c
  {
    if c == KEY_CNT {
      SpokenNothing(s.link);
    } else {
      ReleaseLinesNext(s.win, s.keys.down, c);
      if c in s.keys.down {
        var s1 := KeyEdge(s, EdgeKind(c), c, false);
        var r := ReleaseFrom(s1, c + 1).link;
        KeyEdgeSpeaks(s, EdgeKind(c), c, false);
        ReleaseSpeaks(s1, c + 1);
        var rest := ReleaseLines(s.win, s.keys.down - {c}, c + 1);
        assert r == if s1.link.connected then Spoken(s1.link, rest) else s1.link;
        SpokenThen(s.link, Line(s.win, EdgeKind(c), c, 0, 0, 0), rest, s1.link, r);
      } else {
        ReleaseSpeaks(s, c + 1);
      }
    }
  }

  lemma {:induction false} EdgesSpeak(s: Sink, es: seq<(Code, bool)>, ps: seq<Pkt>)
    requires |ps| == |es| && forall i :: 0 <= i < |es| ==> ps[i] == EdgeLine(s.win, es[i].0, es[i].1)
    ensures KeyEdges(s, es).link == Spoken(s.link, ps)
    decreases |es|
  {
    if es == [] {
      SpokenNothing(s.link);
    } else {
      var s1 := KeyEdge(s, Key, es[0].0, es[0].1);
      EmitSpeaks(SetKey(s, es[0].0, es[0].1), Key, es[0].0, B(es[0].1), 0, 0);
      if s1.link.connected {
        EdgesSpeak(s1, es[1..], ps[1..]);
      } else {
        var qs := seq(|es| - 1, i requires 0 <= i < |es| - 1 => EdgeLine(s1.win, es[i + 1].0, es[i + 1].1));
        EdgesSpeak(s1, es[1..], qs);
        ClosedSilent(s1.link, qs);
      }
      SpokenThen(s.link, ps[0], ps[1..], s1.link, KeyEdges(s, es).link);
      assert [ps[0]] + ps[1..] == ps;
    }
  }

  lemma ChordSpeaks(s: Sink, k: Code, down: set<int>, ctrl: bool, shift: bool, c: bool, h: bool)
    requires c == (ctrl && 29 !in down && 97 !in down) && h == (shift && 42 !in down && 54 !in down)
    ensures KeyEdges(s, ChordOf(k, c, h)).link == Spoken(s.link, ChordLines(s.win, down, k, ctrl, shift))
  {
    EdgesSpeak(s, ChordOf(k, c, h), ChordLines(s.win, down, k, ctrl, shift));
  }

  lemma SetGrabSpeaks(cfg: Config, s: Sink, on: bool, ok: bool)
    ensures SetGrab(cfg, s, on, ok).link == Spoken(s.link, GrabLines(cfg, s, on, ok))
  {
    SpokenNothing(s.link);
    if GrabChanges(cfg, s, on, ok) {
      var lines := ReleaseLines(s.win, s.keys.down, 0);
      var s0 := s.(win := s.win.(backendGrab := on));
      ReleaseSpeaks(s0, 0);
      ReleaseLinesSame(s0.win, s.win, s.keys.down, 0);
      ReleaseFromWin(s0, 0);
      var s1 := ReleaseAll(s0);
      var s2 := s1.(win := s1.win.(grabbed := on));
      var p := Line(s.win.(grabbed := on), Grab, B(on), 0, 0, 0);
      SpokenBoth(s.link, lines, [p]);
      EmitSpeaks(s2, Grab, B(on), 0, 0, 0);
      if !s1.link.connected {
        ClosedSilent(s1.link, [p]);
        ClosedSilent(s1.link, [Line(s2.win, Grab, B(on), 0, 0, 0)]);
      }
    }
  }

  /** Only the three flags of a window show in a line. */
  lemma {:induction false} ReleaseLinesSame(w: Window, w': Window, down: set<int>, c: nat)
    requires c <= KEY_CNT && (w.grabbed, w.focused, w.fullscreen) == (w'.grabbed, w'.focused, w'.fullscreen)
    ensures ReleaseLines(w, down, c) == ReleaseLines(w', down, c)
    decreases KEY_CNT - c
  {
    if c < KEY_CNT {
      ReleaseLinesSame(w, w', down, c + 1);
    }
  }

  /** Releasing keys does not touch the window while the client is there. */
  lemma {:induction false} ReleaseFromWin(s: Sink, c: nat)
    requires c <= KEY_CNT
    ensures ReleaseFrom(s, c).link.connected ==> ReleaseFrom(s, c).win == s.win
    decreases KEY_CNT - c
  {
    if c < KEY_CNT {
      var s1 := if c in s.keys.down then KeyEdge(s, EdgeKind(c), c, false) else s;
      ReleaseFromWin(s1, c + 1);
      if c in s.keys.down {
        EmitSpeaks(SetKey(s, c, false), EdgeKind(c), c, 0, 0, 0);
      }
      if !s1.link.connected {
        ReleaseFromSameOrEnded(s1, c + 1);
      }
    }
  }

  lemma FocusSpeaks(s: Sink, active: bool)
    ensures OnFocus(s, active).link == Spoken(s.link, FocusLines(s, active))
  {
    SpokenNothing(s.link);
    if s.win.focused != active && active {
      EmitSpeaks(s.(win := s.win.(focused := true)), Focus, 1, 0, 0, 0);
    } else if s.win.focused != active {
      FocusLossSpeaks(s);
    }
  }

  lemma FocusLossSpeaks(s: Sink)
    requires s.win.focused
    ensures OnFocus(s, false).link == Spoken(s.link, FocusLines(s, false))
  {
    var w, w' := s.win.(focused := false, grabbed := false), Ungrabbed(s.win.(focused := false));
    var s0 := s.(win := w');
    var lines, f, g := ReleaseLines(w, s.keys.down, 0), Line(w, Focus, 0, 0, 0, 0), Line(w, Grab, 0, 0, 0, 0);
    ReleaseSpeaks(s0, 0);
    ReleaseLinesSame(w', w, s.keys.down, 0);
    ReleaseFromWin(s0, 0);
    var s1 := ReleaseAll(s0);
    var s2 := s1.(win := s1.win.(pointerIn := false));
    TwoSpeak(s2, f, g);
    SpokenBoth(s.link, lines, [f, g]);
    if !s1.link.connected {
      ClosedSilent(s1.link, [f, g]);
    }
  }

  /** FOCUS 0 and GRAB 0, one after the other. */
  lemma TwoSpeak(s: Sink, f: Pkt, g: Pkt)
    requires s.link.connected ==> f == Line(s.win, Focus, 0, 0, 0, 0) && g == Line(s.win, Grab, 0, 0, 0, 0)
    ensures Emit(Emit(s, Focus, 0, 0, 0, 0), Grab, 0, 0, 0, 0).link == Spoken(s.link, [f, g])
  {
    var s1 := Emit(s, Focus, 0, 0, 0, 0);
    EmitSpeaks(s, Focus, 0, 0, 0, 0);
    EmitSpeaks(s1, Grab, 0, 0, 0, 0);
    assert [f] + [g] == [f, g];
    SpokenBoth(s.link, [f], [g]);
    if !s1.link.connected {
      ClosedSilent(s1.link, [g]);
    }
  }

  lemma FinishSpeaks(s: Sink, generation: nat, paste: bool)
    ensures ClipFinish(s, generation, paste).link == Spoken(s.link, FinishLines(s, generation, paste))
  {
    SpokenNothing(s.link);
    if paste && s.win.focused && Current(s, generation) {
      var h := s.clip.held;
      if s.link.connected {
        ChordSpeaks(s.(clip := s.clip.(held := NotHeld)), h.key, s.keys.down, h.ctrl, h.shift, NeedsCtrl(s), NeedsShift(s));
      } else {
        ClosedSilent(s.link, ChordLines(s.win, s.keys.down, h.key, h.ctrl, h.shift));
      }
    }
  }

  /** A new paste key: the chord at once, or nothing. */
  lemma PasteKeySpeaks(cfg: Config, s: Sink, t: Trigger, r: KeyReply)
    requires s.win.focused
    ensures OnPasteKey(cfg, s, t, r).link
            == Spoken(s.link, if s.clip.held.key == 0 && t.code != 0 && PassedOn(cfg, s, r.fetch)
                              then ChordLines(s.win, s.keys.down, t.code, t.ctrl, t.shift) else [])
  {
    SpokenNothing(s.link);
    var s1 := s.(clip := s.clip.(held := Held(t.code, t.ctrl, t.shift, s.link.generation)));
    var g := s.link.generation;
    if s.clip.held.key == 0 {
      FinishSpeaks(s1.(clip := s1.clip.(toldOff := true)), g, true);
      FinishSpeaks(s1, g, true);
      FinishSpeaks(s1, g, false);
    }
    if !s.link.connected {
      ClosedSilent(s.link, ChordLines(s.win, s.keys.down, t.code, t.ctrl, t.shift));
    }
  }

  lemma PlainKeySpeaks(s: Sink, code: Code, down: bool)
    ensures OnPlainKey(s, code, down).link
            == Spoken(s.link, if code !in s.keys.consumed && s.win.focused && down != (code in s.keys.down)
                              then [EdgeLine(s.win, code, down)] else [])
  {
    SpokenNothing(s.link);
    EmitSpeaks(SetKey(s, code, down), Key, code, B(down), 0, 0);
  }

  lemma KeySpeaks(cfg: Config, s0: Sink, code: nat, down: bool, r: KeyReply)
    ensures OnKey(cfg, s0, code, down, r).link == Spoken(s0.link, KeyLines(cfg, s0, code, down, r))
  {
    SpokenNothing(s0.link);
    if code < KEY_CNT {
      var l := Modifiers(s0.keys.latch, code, down);
      var s := s0.(keys := s0.keys.(latch := l));
      assert l == Latched(s0.keys.latch, code, down);
      var n := OnLatchedKey(cfg, s, code, down, r);
      FoundIffCompletes(cfg.triggers, code, l);
      var t := if down && s.win.focused then PasteKey(cfg, s, code) else [];
      if BrokersOwn(l, code, down) {
        assert n == OnHotkey(cfg, Consume(s, code), code, r);
        SetGrabSpeaks(cfg, Consume(s, code), !s.win.grabbed, r.grabOk);
      } else if t != [] {
        assert n == OnPasteKey(cfg, Consume(s, code), t[0].(code := code), r);
        PasteKeySpeaks(cfg, Consume(s, code), t[0].(code := code), r);
      } else {
        assert n == OnPlainKey(s, code, down);
        PlainKeySpeaks(s, code, down);
      }
    }
  }

  lemma ButtonSpeaks(cfg: Config, s: Sink, code: nat, down: bool)
    ensures OnBtn(s, code, down).link == Spoken(s.link, Script(cfg, s, EvBtn(code, down)))
  {
    SpokenNothing(s.link);
    if code < KEY_CNT {
      KeyEdgeSpeaks(s, Btn, code, down);
    }
  }

  lemma MotionSpeaks(cfg: Config, s: Sink, ev: Event)
    requires ev.EvAbs? || ev.EvRel? || ev.EvWheel?
    ensures SinkModel.Step(cfg, s, ev).link == Spoken(s.link, Script(cfg, s, ev))
  {
    SpokenNothing(s.link);
    var r := SinkModel.Step(cfg, s, ev);
    match ev
    case EvAbs(x, y, w, h) =>
      assert r == OnAbs(s, x, y, w, h);
      EmitSpeaks(s, Abs, x, y, w, h);
    case EvRel(dx, dy) =>
      assert r == OnRel(s, dx, dy);
      EmitSpeaks(s, Rel, dx, dy, 0, 0);
    case EvWheel(v, h) =>
      assert r == OnWheel(s, v, h);
      EmitSpeaks(s, Wheel, v, h, 0, 0);
  }

  lemma CrossingSpeaks(cfg: Config, s: Sink, inside: bool)
    ensures OnPointer(s, inside).link == Spoken(s.link, Script(cfg, s, EvPointer(inside)))
  {
    SpokenNothing(s.link);
    var s1 := s.(win := s.win.(pointerIn := inside));
    assert Line(s1.win, Pointer, B(inside), 0, 0, 0) == Line(s.win, Pointer, B(inside), 0, 0, 0);
    EmitSpeaks(s1, Pointer, B(inside), 0, 0, 0);
  }

  lemma SurfaceSpeaks(cfg: Config, s: Sink, w: Uint32, h: Uint32, refresh: Uint32)
    ensures OnSurface(s, w, h, refresh).link == Spoken(s.link, Script(cfg, s, EvSurface(w, h, refresh)))
  {
    SpokenNothing(s.link);
    var s1 := s.(win := s.win.(width := w, height := h));
    assert Line(s1.win, Surface, Signed(w), Signed(h), refresh, 0) == Line(s.win, Surface, Signed(w), Signed(h), refresh, 0);
    EmitSpeaks(s1, Surface, Signed(w), Signed(h), refresh, 0);
  }

  lemma ReportSpeaks(s: Sink, r: Report)
    ensures OnReport(s, r).link == Spoken(s.link, [ReportLine(s.win, r)])
    ensures OnReport(s, r).link.connected ==> OnReport(s, r).win == s.win
  {
    match r
    case Released(lo, hi) => EmitSpeaks(s, Release, 0, 0, lo, hi);
    case Paced => EmitSpeaks(s, Frame, 0, 0, 0, 0);
    case Unusable(fourcc, lo, hi) => EmitSpeaks(s, Format, 0, Signed(fourcc), lo, hi);
  }


  /** A frame's reports, one after the other. */
  lemma {:induction false} ReportsSpeak(s: Sink, rs: seq<Report>)
    ensures OnReports(s, rs).link == Spoken(s.link, ReportLines(s.win, rs))
    decreases |rs|
  {
    if rs == [] {
      SpokenNothing(s.link);
    } else {
      var s1 := OnReport(s, rs[0]);
      ReportSpeaks(s, rs[0]);
      ReportsSpeak(s1, rs[1..]);
      if !s1.link.connected {
        ClosedSilent(s1.link, ReportLines(s1.win, rs[1..]));
      }
      SpokenThen(s.link, ReportLine(s.win, rs[0]), ReportLines(s.win, rs[1..]), s1.link, OnReports(s, rs).link);
    }
  }

  /** An event whose whole effect on the connection is what it says. */
  predicate Spoke(ev: Event) {
    !ev.EvAttach? && !ev.EvHangup? && !ev.EvFlush? && !ev.EvClose? && !ev.EvBye? && !ev.EvViolation? && !ev.EvSendClipboard?
  }

  lemma InputSpeaks(cfg: Config, s: Sink, ev: Event)
    requires ev.EvKey? || ev.EvBtn? || ev.EvFocus? || ev.EvUngrab? || ev.EvClipFinish?
    ensures SinkModel.Step(cfg, s, ev).link == Spoken(s.link, Script(cfg, s, ev))
  {
    var r, lines := SinkModel.Step(cfg, s, ev), Script(cfg, s, ev);
    match ev
    case EvKey(code, down, reply) =>
      assert r == OnKey(cfg, s, code, down, reply) && lines == KeyLines(cfg, s, code, down, reply);
      KeySpeaks(cfg, s, code, down, reply);
    case EvFocus(active) =>
      assert r == OnFocus(s, active) && lines == FocusLines(s, active);
      FocusSpeaks(s, active);
    case EvUngrab =>
      assert lines == GrabLines(cfg, s, false, true);
      UngrabSpeaks(cfg, s);
    case EvClipFinish(generation, paste) =>
      assert r == ClipFinish(s, generation, paste) && lines == FinishLines(s, generation, paste);
      FinishSpeaks(s, generation, paste);
    case EvBtn(code, down) =>
      assert r == OnBtn(s, code, down);
      ButtonSpeaks(cfg, s, code, down);
  }

  lemma DisplaySpeaks(cfg: Config, s: Sink, ev: Event)
    requires ev.EvPointer? || ev.EvSurface? || ev.EvReport? || ev.EvFormat?
    ensures SinkModel.Step(cfg, s, ev).link == Spoken(s.link, Script(cfg, s, ev))
  {
    var r := SinkModel.Step(cfg, s, ev);
    match ev
    case EvPointer(inside) =>
      assert r == OnPointer(s, inside);
      CrossingSpeaks(cfg, s, inside);
    case EvSurface(w, h, refresh) =>
      assert r == OnSurface(s, w, h, refresh);
      SurfaceSpeaks(cfg, s, w, h, refresh);
    case EvReport(report) =>
      assert r == OnReport(s, report);
      ReportSpeaks(s, report);
    case EvFormat(usable, fourcc, lo, hi) =>
      assert r == OnFormat(s, usable, fourcc, lo, hi);
      EmitSpeaks(s, Format, B(usable), Signed(fourcc), lo, hi);
  }

  /**
   * Input, focus, grab, reports and completions: the connection is the one before with exactly the
   * lines of the script said, and is lost if and only if the ring has no room for them.
   */
  lemma StepSpeaks(cfg: Config, s: Sink, ev: Event)
    requires Spoke(ev)
    ensures SinkModel.Step(cfg, s, ev).link == Spoken(s.link, Script(cfg, s, ev))
  {
    if ev.EvKey? || ev.EvBtn? || ev.EvFocus? || ev.EvUngrab? || ev.EvClipFinish? {
      InputSpeaks(cfg, s, ev);
    } else if ev.EvPointer? || ev.EvSurface? || ev.EvReport? || ev.EvFormat? {
      DisplaySpeaks(cfg, s, ev);
    } else if ev.EvFullscreen? || ev.EvCaps? || ev.EvClipOffered? {
      SilentStep(cfg, s, ev);
    } else {
      MotionSpeaks(cfg, s, ev);
    }
  }

  lemma SilentStep(cfg: Config, s: Sink, ev: Event)
    requires ev.EvFullscreen? || ev.EvCaps? || ev.EvClipOffered?
    ensures SinkModel.Step(cfg, s, ev).link == Spoken(s.link, Script(cfg, s, ev))
  {
    SpokenNothing(s.link);
    assert SinkModel.Step(cfg, s, ev).link == s.link;
  }

  lemma UngrabSpeaks(cfg: Config, s: Sink)
    ensures SinkModel.Step(cfg, s, EvUngrab).link == Spoken(s.link, GrabLines(cfg, s, false, true))
  {
    SpokenNothing(s.link);
    SetGrabSpeaks(cfg, s, false, true);
  }
}
