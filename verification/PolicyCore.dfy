// struct nb_sink and its entry points, updated in place: each is the corresponding step of SinkModel.

module PolicyCore {
  import opened Protocol
  import opened TxQueue
  import opened TxRing
  import opened SinkModel
  import ClipIn
  import SinkSafety
  import X11

  lemma {:induction false} EdgesAppend(s: Sink, es: seq<(Code, bool)>, fs: seq<(Code, bool)>)
    ensures KeyEdges(s, es + fs) == KeyEdges(KeyEdges(s, es), fs)
    decreases |es|
  {
    if es == [] {
      assert es + fs == fs;
    } else {
      assert (es + fs)[1..] == es[1..] + fs;
      EdgesAppend(KeyEdge(s, Key, es[0].0, es[0].1), es[1..], fs);
    }
  }

  function Maybe(c: bool, s: Sink, code: Code, down: bool): Sink {
    if c then KeyEdge(s, Key, code, down) else s
  }

  lemma MaybeEdge(c: bool, s: Sink, code: Code, down: bool)
    ensures KeyEdges(s, if c then [(code, down)] else []) == Maybe(c, s, code, down)
  {
    assert [(code, down)][1..] == [];
    var s1 := KeyEdge(s, Key, code, down);
    assert KeyEdges(s1, []) == s1;
  }

  /** The chord, one edge at a time. */
  lemma ChordEdges(s0: Sink, code: Code, ctrl: bool, shift: bool,
                   s1: Sink, s2: Sink, s3: Sink, s4: Sink, s5: Sink, s6: Sink)
    requires s1 == Maybe(ctrl, s0, KEY_LEFTCTRL, true) && s2 == Maybe(shift, s1, KEY_LEFTSHIFT, true)
    requires s3 == KeyEdge(s2, Key, code, true) && s4 == KeyEdge(s3, Key, code, false)
    requires s5 == Maybe(shift, s4, KEY_LEFTSHIFT, false) && s6 == Maybe(ctrl, s5, KEY_LEFTCTRL, false)
    ensures KeyEdges(s0, ChordOf(code, ctrl, shift)) == s6
  {
    var a := if ctrl then [(KEY_LEFTCTRL, true)] else [];
    var b := if shift then [(KEY_LEFTSHIFT, true)] else [];
    var p: seq<(Code, bool)> := [(code, true), (code, false)];
    var c := if shift then [(KEY_LEFTSHIFT, false)] else [];
    var d := if ctrl then [(KEY_LEFTCTRL, false)] else [];
    EdgesAppend(s0, a + b + p + c, d);
    EdgesAppend(s0, a + b + p, c);
    EdgesAppend(s0, a + b, p);
    EdgesAppend(s0, a, b);
    MaybeEdge(ctrl, s0, KEY_LEFTCTRL, true);
    MaybeEdge(shift, s1, KEY_LEFTSHIFT, true);
    PressEdges(s2, code);
    MaybeEdge(shift, s4, KEY_LEFTSHIFT, false);
    MaybeEdge(ctrl, s5, KEY_LEFTCTRL, false);
  }

  lemma PressEdges(s: Sink, code: Code)
    ensures KeyEdges(s, [(code, true), (code, false)]) == KeyEdge(KeyEdge(s, Key, code, true), Key, code, false)
  {
    var es: seq<(Code, bool)> := [(code, true), (code, false)];
    assert es[1..] == [(code, false)];
    MaybeEdge(true, KeyEdge(s, Key, code, true), code, false);
  }

  /** One packet into the ring. */
  function Put(l: Link, p: Pkt): Link
    requires l.connected && !l.tx.Full()
  {
    l.(tx := l.tx.Push(p), seqno := NextSeq(l.seqno), emitted := l.emitted + [p])
  }

  function PutAll(l: Link, ps: seq<Pkt>): Link
    requires l.connected && |l.tx.queue| + |ps| < TXRING
    decreases |ps|
  {
    if ps == [] then l else PutAll(Put(l, ps[0]), ps[1..])
  }

  lemma SeqAdvances(n: Uint32, k: nat)
    ensures AdvanceSeq(NextSeq(n), k) == AdvanceSeq(n, k + 1)
  {}

  lemma {:induction false} PutAllAppends(l: Link, ps: seq<Pkt>)
    requires l.connected && |l.tx.queue| + |ps| < TXRING
    ensures PutAll(l, ps) == Append(l, ps)
    decreases |ps|
  {
    if ps == [] {
      assert l.tx.queue + ps == l.tx.queue && l.emitted + ps == l.emitted;
    } else {
      var p, rest := ps[0], ps[1..];
      assert ps == [p] + rest;
      PutAllAppends(Put(l, p), rest);
      Associate(l.tx.queue, [p], rest);
      Associate(l.emitted, [p], rest);
      SeqAdvances(l.seqno, |rest|);
    }
  }

  /** The chunks of a text: the first, and those of the rest of it. */
  lemma ChunksNext(flags: Uint16, seqno: Uint32, text: seq<Byte>, n: nat)
    requires n == if |text| > CLIP_PKT_BYTES then CLIP_PKT_BYTES else |text|
    ensures ClipPkts(flags, seqno, text)
            == [ClipPkt(flags, seqno, text[..n], n == |text|)]
               + if n == |text| then [] else ClipPkts(flags, NextSeq(seqno), text[n..])
  {
    assert text[..|text|] == text;
  }

  /** The chunks of `rest` are still to be queued, and then the link is `target`. */
  predicate Queueing(l: Link, flags: Uint16, rest: seq<Byte>, target: Link) {
    && l.connected && |l.tx.queue| + ChunkCount(|rest|) < TXRING
    && PutAll(l, ClipPkts(flags, l.seqno, rest)) == target
  }

  lemma QueueStep(l: Link, flags: Uint16, rest: seq<Byte>, n: nat, target: Link)
    requires Queueing(l, flags, rest, target) && n == if |rest| > CLIP_PKT_BYTES then CLIP_PKT_BYTES else |rest|
    ensures !l.tx.Full()
    ensures var l' := Put(l, ClipPkt(flags, l.seqno, rest[..n], n == |rest|));
            if n < |rest| then Queueing(l', flags, rest[n..], target) else l' == target
  {
    var p := ClipPkt(flags, l.seqno, rest[..n], n == |rest|);
    var more := if n == |rest| then [] else ClipPkts(flags, NextSeq(l.seqno), rest[n..]);
    ChunksNext(flags, l.seqno, rest, n);
    assert ([p] + more)[0] == p && ([p] + more)[1..] == more;
    assert PutAll(l, [p] + more) == PutAll(Put(l, p), more);
  }

  /** Emission on a live connection: relieve the queue, then give up or enqueue. */
  lemma EmitSplits(s: Sink, kind: Kind, x: Int32, y: Int32, w0: Uint32, w1: Uint32, tx: Tx)
    requires kind != Clipboard && s.link.connected && tx == s.link.tx.Relieved()
    ensures SinkModel.Emit(s, kind, x, y, w0, w1)
            == if tx.Full() then SinkModel.Detach(s)
               else s.(link := Put(s.link.(tx := tx), Packet(s, kind, x, y, w0, w1)))
  {}

  class Core {
    const cfg: Config
    const ring: Ring
    const backend: X11.Backend

    var connected: bool
    var generation: nat
    var seqno: Uint32
    var win: Window
    var keys: Keys
    var clip: Clip

    // History: every packet since the handshake, and every byte the socket has accepted.
    ghost var emitted: seq<Pkt>
    ghost var wire: seq<Byte>

    ghost predicate Valid()
      reads this, ring, ring.buf, backend
    {
      ring.Valid() && win.backendGrab == backend.grabbed && (!connected ==> LinkView() == Closed(generation).(wire := wire))
    }

    ghost function LinkView(): RawLink
      requires ring.Valid()
      reads this, ring, ring.buf
    {
      Link(connected, generation, seqno, ring.View(), emitted, wire)
    }

    ghost function View(): Sink
      requires Valid()
      reads this, ring, ring.buf, backend
    {
      Sink(LinkView(), win, keys, clip)
    }

    constructor (cfg: Config, backend: X11.Backend)
      requires !backend.grabbed
      ensures Valid() && View() == Initial && this.cfg == cfg && this.backend == backend
      ensures fresh(ring) && fresh(ring.buf)
    {
      this.cfg, this.backend := cfg, backend;
      ring := new Ring();
      connected, generation, seqno, emitted, wire := false, 0, 0, [], [];
      win := Window(false, false, false, false, false, 0, 0);
      keys, clip := NoKeys, NoClip;
    }

    // ---- connections ---------------------------------------------------------------------------

    /** nb_client_state_reset. */
    method Reset()
      requires ring.Valid()
      modifies this`seqno, this`emitted, this`keys, this`clip, ring
      ensures ring.Valid() && LinkView() == Link(connected, generation, 0, Tx([], [], 0), [], wire)
      ensures keys == NoKeys && clip == NoClip
    {
      ring.Restart([]);
      seqno, emitted := 0, [];
      keys, clip := NoKeys, NoClip;
    }

    /** nb_sink_detach. */
    method Detach()
      requires Valid()
      modifies this, ring, backend`grabbed
      ensures Valid() && View() == SinkModel.Detach(old(View()))
    {
      if !connected {
        return;
      }
      DropGrab();
      connected := false;
      generation := generation + 1;
      Reset();
    }

    /** A grab that is on is dropped, on the display's side too; that never fails. */
    method DropGrab()
      requires Valid()
      modifies this`win, backend`grabbed
      ensures Valid() && win == Ungrabbed(old(win))
    {
      if win.grabbed {
        var ok := backend.SetGrab(false, true, true);
        win := win.(backendGrab := false, grabbed := false);
      }
    }

    /** nb_sink_attach; `ok` says the five packets of the handshake went out. */
    method Attach(ok: bool)
      requires Valid() && !connected
      modifies this, ring, backend`grabbed
      ensures Valid() && View() == SinkModel.Attach(cfg, old(View()), ok)
    {
      Renew();
      DropGrab();
      if !ok {
        Renew();
        return;
      }
      Greet();
    }

    /** Nothing of an earlier client is left, its generation included. */
    method Renew()
      requires Valid() && !connected
      modifies this`generation, this`seqno, this`emitted, this`wire, this`keys, this`clip, ring
      ensures Valid() && LinkView() == Closed(old(generation) + 1) && keys == NoKeys && clip == NoClip
    {
      Reset();
      generation, wire := generation + 1, [];
    }

    /** The handshake is out: the client's stream starts with it. */
    method Greet()
      requires Valid()
      modifies this`connected, this`seqno, this`emitted, this`wire, ring
      ensures Valid() && LinkView() == Link(true, generation, 5, Tx(Handshake(cfg, win), [], 0), Handshake(cfg, win), Bytes(Handshake(cfg, win)))
    {
      ring.Restart(Handshake(cfg, win));
      connected, seqno, emitted, wire := true, 5, Handshake(cfg, win), Bytes(Handshake(cfg, win));
    }

    // ---- emission ---------------------------------------------------------------------------------

    /** nb_emit. */
    method Emit(kind: Kind, x: Int32, y: Int32, w0: Uint32, w1: Uint32)
      requires Valid() && kind != Clipboard
      modifies this, ring, ring.buf, backend`grabbed
      ensures Valid() && View() == SinkModel.Emit(old(View()), kind, x, y, w0, w1)
    {
      if !connected {
        return;
      }
      ghost var s := View();
      Relieve();
      EmitSplits(s, kind, x, y, w0, w1, ring.View());
      var used := ring.Used();
      if used == TXRING - 1 {
        Detach();
        return;
      }
      assert LinkView() == s.link.(tx := ring.View());
      Enqueue(Pkt(kind, Flags(win), seqno, Args(x, y, w0, w1)));
    }

    /** A ring more than a quarter full is coalesced before anything is added. */
    method Relieve()
      requires Valid()
      modifies ring, ring.buf
      ensures Valid() && ring.View() == old(ring.View()).Relieved()
    {
      var used := ring.Used();
      if used > TXRING / 4 {
        ring.Coalesce();
      }
    }

    method Enqueue(p: Pkt)
      requires Valid() && connected && !ring.View().Full()
      modifies this`seqno, this`emitted, ring, ring.buf
      ensures Valid()
      ensures LinkView() == Put(old(LinkView()), p)
    {
      ring.Push(p);
      seqno := NextSeq(seqno);
      emitted := emitted + [p];
    }

    /** nb_sink_flush. */
    method Flush(sends: seq<Send>) returns (ok: bool)
      requires Valid()
      modifies this`wire, ring
      ensures Valid() && View() == OnFlush(old(View()), sends)
    {
      ok := true;
      if connected {
        ghost var written;
        ok, written := ring.Flush(sends);
        wire := wire + Image(written);
      }
    }

    // ---- keys, grab and focus ------------------------------------------------------------------------

    /** bit_set on key_down, then the edge on its way to the client. */
    method Edge(kind: Kind, code: Code, down: bool)
      requires Valid() && kind != Clipboard
      modifies this, ring, ring.buf, backend`grabbed
      ensures Valid() && View() == KeyEdge(old(View()), kind, code, down)
    {
      keys := keys.(down := if down then keys.down + {code} else keys.down - {code});
      Emit(kind, code, B(down), 0, 0);
    }

    /** One key of the release. */
    method ReleaseCode(c: nat)
      requires Valid() && c < KEY_CNT
      modifies this, ring, ring.buf, backend`grabbed
      ensures Valid() && ReleaseFrom(View(), c + 1) == ReleaseFrom(old(View()), c)
    {
      if c in keys.down {
        Edge(EdgeKind(c), c, false);
      }
    }

    /** nb_release_all. */
    method ReleaseAll()
      requires Valid()
      modifies this, ring, ring.buf, backend`grabbed
      ensures Valid() && View() == SinkModel.ReleaseAll(old(View()))
    {
      var c := 0;
      while c < KEY_CNT
        invariant 0 <= c <= KEY_CNT && Valid()
        invariant ReleaseFrom(View(), c) == ReleaseFrom(old(View()), 0)
      {
        ReleaseCode(c);
        c := c + 1;
      }
      keys := keys.(latch := NoLatch);
    }

    /** nb_set_grab; the display may refuse the keyboard or the pointer. */
    method SetGrab(on: bool, keyboardOk: bool, pointerOk: bool)
      requires Valid() && win.backendGrab == win.grabbed
      modifies this, ring, ring.buf, backend`grabbed
      ensures Valid() && View() == SinkModel.SetGrab(cfg, old(View()), on, keyboardOk && pointerOk)
    {
      if win.grabbed == on {
        return;
      }
      if on && !cfg.FocusEvents() {
        return;
      }
      var ok := backend.SetGrab(on, keyboardOk, pointerOk);
      if !ok {
        return;
      }
      win := win.(backendGrab := on);
      ReleaseAll();
      win := win.(grabbed := on);
      if on && !connected {
        DropGrab();
        return;
      }
      Emit(Grab, B(on), 0, 0, 0);
    }

    /** nb_sink_btn. */
    method Button(code: nat, down: bool)
      requires Valid()
      modifies this, ring, ring.buf, backend`grabbed
      ensures Valid() && View() == OnBtn(old(View()), code, down)
    {
      if code >= KEY_CNT || !win.focused {
        return;
      }
      if !win.grabbed && !win.pointerIn {
        return;
      }
      if down == (code in keys.down) {
        return;
      }
      Edge(Btn, code, down);
    }

    /** nb_sink_abs. */
    method MoveTo(x: Int32, y: Int32, w: Uint32, h: Uint32)
      requires Valid()
      modifies this, ring, ring.buf, backend`grabbed
      ensures Valid() && View() == OnAbs(old(View()), x, y, w, h)
    {
      if win.grabbed || !win.focused || !win.pointerIn {
        return;
      }
      Emit(Abs, x, y, w, h);
    }

    /** nb_sink_rel. */
    method MoveBy(dx: Int32, dy: Int32)
      requires Valid()
      modifies this, ring, ring.buf, backend`grabbed
      ensures Valid() && View() == OnRel(old(View()), dx, dy)
    {
      if !win.grabbed || !win.focused {
        return;
      }
      if dx == 0 && dy == 0 {
        return;
      }
      Emit(Rel, dx, dy, 0, 0);
    }

    /** nb_sink_wheel. */
    method Scroll(v: Int32, h: Int32)
      requires Valid()
      modifies this, ring, ring.buf, backend`grabbed
      ensures Valid() && View() == OnWheel(old(View()), v, h)
    {
      if !win.focused || (!win.grabbed && !win.pointerIn) {
        return;
      }
      Emit(Wheel, v, h, 0, 0);
    }

    /** nb_sink_focus. */
    method SetFocus(active: bool)
      requires Valid()
      modifies this, ring, ring.buf, backend`grabbed
      ensures Valid() && View() == OnFocus(old(View()), active)
    {
      if win.focused == active {
        return;
      }
      win := win.(focused := active);
      if !active {
        DropGrab();
        ReleaseAll();
        win := win.(pointerIn := false);
      }
      Emit(Focus, B(active), 0, 0, 0);
      if !active {
        Emit(Grab, 0, 0, 0, 0);
      }
    }

    /** nb_sink_pointer. */
    method SetPointer(inside: bool)
      requires Valid()
      modifies this, ring, ring.buf, backend`grabbed
      ensures Valid() && View() == OnPointer(old(View()), inside)
    {
      if win.pointerIn == inside {
        return;
      }
      win := win.(pointerIn := inside);
      Emit(Pointer, B(inside), 0, 0, 0);
    }

    /** nb_sink_surface. */
    method Resize(w: Uint32, h: Uint32, refresh: Uint32)
      requires Valid()
      modifies this, ring, ring.buf, backend`grabbed
      ensures Valid() && View() == OnSurface(old(View()), w, h, refresh)
    {
      if w == 0 || h == 0 {
        return;
      }
      if win.width == w && win.height == h {
        return;
      }
      win := win.(width := w, height := h);
      Emit(Surface, Signed(w), Signed(h), refresh, 0);
    }

    // ---- the host's clipboard, on its way to the guest --------------------------------------------------

    /** nb_sink_clip_finish. */
    method ClipFinish(g: nat, paste: bool)
      requires Valid()
      modifies this, ring, ring.buf, backend`grabbed
      ensures Valid() && View() == SinkModel.ClipFinish(old(View()), g, paste)
    {
      var held := clip.held;
      if held.key == 0 || g != generation || g != held.generation {
        return;
      }
      clip := clip.(held := NotHeld);
      if !paste {
        return;
      }
      if !win.focused || !connected {
        return;
      }
      var ctrl := held.ctrl && KEY_LEFTCTRL !in keys.down && KEY_RIGHTCTRL !in keys.down;
      var shift := held.shift && KEY_LEFTSHIFT !in keys.down && KEY_RIGHTSHIFT !in keys.down;
      Replay(held.key, ctrl, shift);
    }

    /** The balanced chord: synthesised modifiers around one press of the key. */
    method Replay(code: Code, ctrl: bool, shift: bool)
      requires Valid()
      modifies this, ring, ring.buf, backend`grabbed
      ensures Valid() && View() == KeyEdges(old(View()), ChordOf(code, ctrl, shift))
    {
      ghost var s0 := View();
      if ctrl {
        Edge(Key, KEY_LEFTCTRL, true);
      }
      ghost var s1 := View();
      if shift {
        Edge(Key, KEY_LEFTSHIFT, true);
      }
      ghost var s2 := View();
      Edge(Key, code, true);
      ghost var s3 := View();
      Edge(Key, code, false);
      ghost var s4 := View();
      if shift {
        Edge(Key, KEY_LEFTSHIFT, false);
      }
      ghost var s5 := View();
      if ctrl {
        Edge(Key, KEY_LEFTCTRL, false);
      }
      ChordEdges(s0, code, ctrl, shift, s1, s2, s3, s4, s5, View());
    }

    /** nb_sink_send_clipboard: the whole text, or nothing. */
    method SendClipboard(g: nat, text: seq<Byte>) returns (sent: bool)
      requires Valid()
      modifies this, ring, ring.buf, backend`grabbed
      ensures Valid() && (View(), sent) == SinkModel.SendClipboard(old(View()), g, text)
    {
      if !connected || g != generation || g != clip.held.generation || clip.held.key == 0 {
        return false;
      }
      if |text| > CLIP_MAX_BYTES {
        return false;
      }
      var chunks := ChunkCount(|text|);
      var used := ring.Used();
      if used + chunks + REPLAY_RESERVE >= TXRING {
        return false;
      }
      QueueText(text);
      sent := true;
    }

    /** The chunks of a text, straight into the ring. */
    method QueueText(text: seq<Byte>)
      requires Valid() && connected && |ring.View().queue| + ChunkCount(|text|) < TXRING
      modifies this`seqno, this`emitted, ring, ring.buf
      ensures Valid() && LinkView() == Append(old(LinkView()), ClipPkts(Flags(win), old(seqno), text))
    {
      ghost var target := Append(LinkView(), ClipPkts(Flags(win), seqno, text));
      PutAllAppends(LinkView(), ClipPkts(Flags(win), seqno, text));
      var off, more := 0, true;
      assert text[off..] == text;
      while more
        invariant Valid() && 0 <= off <= |text|
        invariant if more then Queueing(LinkView(), Flags(win), text[off..], target) else LinkView() == target
        decreases more, |text| - off
      {
        off := QueueChunk(text, off, target);
        more := off < |text|;
      }
    }

    /** One turn of that loop. */
    method QueueChunk(text: seq<Byte>, off: nat, ghost target: Link) returns (next: nat)
      requires Valid() && off <= |text| && Queueing(LinkView(), Flags(win), text[off..], target)
      modifies this`seqno, this`emitted, ring, ring.buf
      ensures Valid() && next <= |text| && (next < |text| ==> off < next)
      ensures if next < |text| then Queueing(LinkView(), Flags(win), text[next..], target) else LinkView() == target
    {
      ghost var l, rest := LinkView(), text[off..];
      var n := if |text| - off > CLIP_PKT_BYTES then CLIP_PKT_BYTES else |text| - off;
      next := off + n;
      assert text[off..next] == rest[..n] && text[next..] == rest[n..];
      var p := ClipPkt(Flags(win), seqno, text[off..next], next == |text|);
      QueueStep(l, Flags(win), rest, n, target);
      Enqueue(p);
    }

    /** nb_sink_paste_trigger. */
    method PasteTrigger(fetch: Fetch)
      requires Valid()
      modifies this, ring, ring.buf, backend`grabbed
      ensures Valid() && View() == SinkModel.PasteTrigger(cfg, old(View()), fetch)
    {
      var g := clip.held.generation;
      if cfg.mode == ClipIn.Off || cfg.mode == ClipIn.GuestToHost {
        clip := clip.(toldOff := true);
        ClipFinish(g, true);
        return;
      }
      if !connected {
        ClipFinish(g, false);
        return;
      }
      if clip.capsSeen % 2 == 0 {
        ClipFinish(g, true);
        return;
      }
      match fetch {
        case NoFetch => ClipFinish(g, false);
        case Started =>
        case NoText => ClipFinish(g, true);
        case Failed => ClipFinish(g, false);
      }
    }

    /** nb_clip_trigger: the first trigger this key completes, if any. */
    method Trigger(code: nat) returns (t: seq<Trigger>)
      ensures t == if cfg.mode == ClipIn.Off && clip.toldOff then [] else FindTrigger(cfg.triggers, code, keys.latch)
    {
      if cfg.mode == ClipIn.Off && clip.toldOff {
        return [];
      }
      var i := 0;
      assert cfg.triggers[0..] == cfg.triggers;
      while i < |cfg.triggers|
        invariant 0 <= i <= |cfg.triggers|
        invariant FindTrigger(cfg.triggers[i..], code, keys.latch) == FindTrigger(cfg.triggers, code, keys.latch)
      {
        var c := cfg.triggers[i];
        assert cfg.triggers[i..][1..] == cfg.triggers[i + 1..];
        if c.code == code && c.ctrl == keys.latch.ctrl && c.shift == keys.latch.shift {
          return [c];
        }
        i := i + 1;
      }
      t := [];
    }

    /** The broker's own chords. */
    method Hotkey(code: nat, r: KeyReply)
      requires Valid() && win.backendGrab == win.grabbed
      modifies this, ring, ring.buf, backend`grabbed
      ensures Valid() && View() == OnHotkey(cfg, old(View()), code, r)
    {
      if code == KEY_G {
        SetGrab(!win.grabbed, r.grabOk, r.grabOk);
      } else {
        win := win.(fullscreen := !win.fullscreen);
        if !r.fullscreenOk {
          win := win.(fullscreen := !win.fullscreen);
        }
      }
    }

    /** A paste key: held back, unless one is already. */
    method HoldPasteKey(code: Code, t: Trigger, r: KeyReply)
      requires Valid()
      modifies this, ring, ring.buf, backend`grabbed
      ensures Valid() && View() == OnPasteKey(cfg, old(View()), t.(code := code), r)
    {
      if clip.held.key != 0 {
        return;
      }
      clip := clip.(held := Held(code, t.ctrl, t.shift, generation));
      PasteTrigger(r.fetch);
    }

    /** Every other key. */
    method PlainKey(code: Code, down: bool)
      requires Valid()
      modifies this, ring, ring.buf, backend`grabbed
      ensures Valid() && View() == OnPlainKey(old(View()), code, down)
    {
      if code in keys.consumed {
        if !down {
          keys := keys.(consumed := keys.consumed - {code});
        }
        return;
      }
      if !win.focused {
        return;
      }
      if down == (code in keys.down) {
        return;
      }
      Edge(Kind.Key, code, down);
    }

    /** nb_sink_key. */
    method KeyEvent(code: nat, down: bool, r: KeyReply)
      requires Valid() && win.backendGrab == win.grabbed
      modifies this, ring, ring.buf, backend`grabbed
      ensures Valid() && View() == OnKey(cfg, old(View()), code, down, r)
    {
      if code >= KEY_CNT {
        return;
      }
      keys := keys.(latch := Latched(keys.latch, code, down));
      LatchedKey(code, down, r);
    }

    /** The rest of it, with the modifiers up to date. */
    method LatchedKey(code: Code, down: bool, r: KeyReply)
      requires Valid() && win.backendGrab == win.grabbed
      modifies this, ring, ring.buf, backend`grabbed
      ensures Valid() && View() == OnLatchedKey(cfg, old(View()), code, down, r)
    {
      if down && keys.latch.ctrl && keys.latch.alt && (code == KEY_G || code == KEY_F) {
        keys := keys.(consumed := keys.consumed + {code});
        Hotkey(code, r);
        return;
      }
      var t := [];
      if down && win.focused {
        t := Trigger(code);
      }
      if t != [] {
        keys := keys.(consumed := keys.consumed + {code});
        HoldPasteKey(code, t[0], r);
        return;
      }
      PlainKey(code, down);
    }

    // ---- goodbyes ----------------------------------------------------------------------------------------

    /** nb_sink_bye and nb_sink_close_request. */
    method Say(kind: Kind, x: Int32, sends: seq<Send>)
      requires Valid() && kind != Clipboard
      modifies this, ring, ring.buf, backend`grabbed
      ensures Valid() && View() == SayAndFlush(old(View()), kind, x, sends)
    {
      Emit(kind, x, 0, 0, 0);
      var ok := Flush(sends);
    }

    /** nb_violation. */
    method Violation(sends: seq<Send>)
      requires Valid()
      modifies this, ring, ring.buf, backend`grabbed
      ensures Valid() && View() == Violate(old(View()), sends)
    {
      Say(Bye, 2, sends);
      Detach();
    }

    // ---- what a client's commands leave behind ---------------------------------------------------------------

    /** CMD_CAPS. */
    method HearCaps(bits: Uint32)
      requires Valid()
      modifies this`clip
      ensures Valid() && View() == OnCaps(old(View()), bits)
    {
      clip := clip.(capsSeen := bits, announced := clip.announced || bits % 2 == 1);
    }

    /** CMD_CLIPBOARD, as far as it concerns the paste key: in mode off the user is told once. */
    method HearClipboard()
      requires Valid()
      modifies this`clip
      ensures Valid() && View() == OnClipOffered(cfg, old(View()))
    {
      if cfg.mode == ClipIn.Off {
        clip := clip.(toldOff := true);
      }
    }

    /** nb_sink_release, nb_sink_frame and nb_sink_format_verdict. */
    method Tell(r: Report)
      requires Valid()
      modifies this, ring, ring.buf, backend`grabbed
      ensures Valid() && View() == OnReport(old(View()), r)
    {
      match r {
        case Released(lo, hi) => Emit(Release, 0, 0, lo, hi);
        case Paced => Emit(Frame, 0, 0, 0, 0);
        case Unusable(fourcc, lo, hi) => Emit(Format, 0, Signed(fourcc), lo, hi);
      }
    }

    /** ... as a backend calls them over one frame. */
    method TellAll(rs: seq<Report>)
      requires Valid()
      modifies this, ring, ring.buf, backend`grabbed
      ensures Valid() && View() == OnReports(old(View()), rs)
    {
      var i := 0;
      assert rs[0..] == rs;
      while i < |rs|
        invariant 0 <= i <= |rs| && Valid()
        invariant OnReports(View(), rs[i..]) == OnReports(old(View()), rs)
      {
        assert rs[i..][1..] == rs[i + 1..] && rs[i..][0] == rs[i];
        Tell(rs[i]);
        i := i + 1;
      }
    }

    // ---- every event ----------------------------------------------------------------------------------------

    /** nb_sink_force_ungrab. */
    method ForceUngrab()
      requires Valid() && win.backendGrab == win.grabbed
      modifies this, ring, ring.buf, backend`grabbed
      ensures Valid()
      ensures View() == var s := old(View()); if s.win.grabbed then SinkModel.SetGrab(cfg, s, false, true) else s
    {
      if win.grabbed {
        SetGrab(false, true, true);
      }
    }

    /** nb_sink_close_request. */
    method CloseRequest(action: Int32, sends: seq<Send>) returns (told: bool)
      requires Valid()
      modifies this, ring, ring.buf, backend`grabbed
      ensures Valid() && told == old(connected)
      ensures View() == var s := old(View()); if s.link.connected then SayAndFlush(s, Close, action, sends) else s
    {
      if !connected {
        return false;
      }
      Say(Close, action, sends);
      told := true;
    }

    /** Input, and what bears on the grab. */
    method ServeInput(ev: Event)
      requires Valid() && win.backendGrab == win.grabbed && SinkSafety.IsInput(ev)
      modifies this, ring, ring.buf, backend`grabbed
      ensures Valid() && View() == SinkModel.Step(cfg, old(View()), ev)
    {
      ghost var s, r := View(), SinkModel.Step(cfg, View(), ev);
      match ev {
        case EvKey(code, down, reply) =>
          assert r == OnKey(cfg, s, code, down, reply);
          KeyEvent(code, down, reply);
        case EvBtn(code, down) =>
          assert r == OnBtn(s, code, down);
          Button(code, down);
        case EvAbs(x, y, w, h) =>
          assert r == OnAbs(s, x, y, w, h);
          MoveTo(x, y, w, h);
        case EvRel(dx, dy) =>
          assert r == OnRel(s, dx, dy);
          MoveBy(dx, dy);
        case EvWheel(v, h) =>
          assert r == OnWheel(s, v, h);
          Scroll(v, h);
        case EvFocus(active) =>
          assert r == OnFocus(s, active);
          SetFocus(active);
        case EvUngrab =>
          assert r == if s.win.grabbed then SinkModel.SetGrab(cfg, s, false, true) else s;
          ForceUngrab();
      }
    }

    /** nb_sink_set_fullscreen. */
    method SetFullscreen(on: bool)
      requires Valid()
      modifies this`win
      ensures Valid() && View() == var s := old(View()); s.(win := s.win.(fullscreen := on))
    {
      if win.fullscreen == on {
        return;
      }
      win := win.(fullscreen := on);
    }

    /** The window, and what the display reports of it. */
    method ServeWindow(ev: Event)
      requires Valid() && SinkSafety.IsReport(ev)
      modifies this, ring, ring.buf, backend`grabbed
      ensures Valid() && View() == SinkModel.Step(cfg, old(View()), ev)
    {
      ghost var s, r := View(), SinkModel.Step(cfg, View(), ev);
      match ev {
        case EvPointer(inside) =>
          assert r == OnPointer(s, inside);
          SetPointer(inside);
        case EvSurface(w, h, refresh) =>
          assert r == OnSurface(s, w, h, refresh);
          Resize(w, h, refresh);
        case EvReport(report) =>
          assert r == OnReport(s, report);
          Tell(report);
        case EvFullscreen(on) =>
          assert r == s.(win := s.win.(fullscreen := on));
          SetFullscreen(on);
        case EvFormat(usable, fourcc, lo, hi) =>
          assert r == SinkModel.Emit(s, Format, B(usable), Signed(fourcc), lo, hi);
          Emit(Format, B(usable), Signed(fourcc), lo, hi);
      }
    }

    /** What happens to the client's connection. */
    method ServeClient(ev: Event)
      requires Valid() && !SinkSafety.IsInput(ev) && !SinkSafety.IsReport(ev)
      modifies this, ring, ring.buf, backend`grabbed
      ensures Valid() && View() == SinkModel.Step(cfg, old(View()), ev)
    {
      ghost var s, r := View(), SinkModel.Step(cfg, View(), ev);
      match ev {
        case EvAttach(ok) =>
          assert r == if s.link.connected then s else SinkModel.Attach(cfg, s, ok);
          if !connected {
            Attach(ok);
          }
        case EvHangup =>
          assert r == SinkModel.Detach(s);
          Detach();
        case EvFlush(sends) =>
          assert r == OnFlush(s, sends);
          var ok := Flush(sends);
        case EvClose(action, sends) =>
          assert r == if s.link.connected then SayAndFlush(s, Close, action, sends) else s;
          var told := CloseRequest(action, sends);
        case EvBye(reason, sends) =>
          assert r == SayAndFlush(s, Bye, reason, sends);
          Say(Bye, reason, sends);
        case EvClipFinish(g, paste) =>
          assert r == SinkModel.ClipFinish(s, g, paste);
          ClipFinish(g, paste);
        case EvSendClipboard(g, text) =>
          assert r == SinkModel.SendClipboard(s, g, text).0;
          var sent := SendClipboard(g, text);
        case EvViolation(sends) =>
          assert r == Violate(s, sends);
          Violation(sends);
        case EvCaps(bits) => if connected { HearCaps(bits); }
        case EvClipOffered => if connected { HearClipboard(); }
      }
    }

    /** The broker in place takes every step the machine takes ... */
    method Take(ev: Event)
      requires Valid() && win.backendGrab == win.grabbed
      modifies this, ring, ring.buf, backend`grabbed
      ensures Valid() && View() == SinkModel.Step(cfg, old(View()), ev)
    {
      if SinkSafety.IsInput(ev) {
        ServeInput(ev);
      } else if SinkSafety.IsReport(ev) {
        ServeWindow(ev);
      } else {
        ServeClient(ev);
      }
    }

    /** ... and keeps what every step keeps. */
    method Serve(ev: Event)
      requires Valid() && SinkSafety.Inv(cfg, View())
      modifies this, ring, ring.buf, backend`grabbed
      ensures Valid() && View() == SinkModel.Step(cfg, old(View()), ev)
      ensures SinkSafety.Inv(cfg, View())
    {
      ghost var s := View();
      Take(ev);
      SinkSafety.StepInv(cfg, s, ev);
    }
  }
}
