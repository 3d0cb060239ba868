// The broker's policy core (struct nb_sink) as a state machine: input gating, grab, focus,
// the held paste key and the packets that result.  Every function mirrors one entry point.

module SinkModel {
  import opened Protocol
  import opened TxQueue
  import opened TxRing
  import ClipIn

  const KEY_CNT: nat := 768
  const KEY_LEFTCTRL: nat := 29
  const KEY_F: nat := 33
  const KEY_G: nat := 34
  const KEY_LEFTSHIFT: nat := 42
  const KEY_RIGHTSHIFT: nat := 54
  const KEY_LEFTALT: nat := 56
  const KEY_RIGHTCTRL: nat := 97
  const KEY_RIGHTALT: nat := 100
  const BTN_MISC: nat := 0x100
  const KEY_OK: nat := 0x160

  const PROTO_VERSION: Uint32 := 2
  const CAP_FOCUS_EVENTS: nat := 0x20
  const REPLAY_RESERVE: nat := 6

  type Code = c: int | 0 <= c < 0x8000_0000

  /** A key that means "paste", with the modifiers it takes. */
  datatype Trigger = Trigger(code: Code, ctrl: bool, shift: bool)

  /** Fixed for the life of the broker: the clipboard policy and what the session can do. */
  datatype Config = Config(mode: ClipIn.ClipMode, triggers: seq<Trigger>, caps: Uint32) {
    /** Focus loss is observable, so a grab can be dropped automatically. */
    predicate FocusEvents() {
      (caps / CAP_FOCUS_EVENTS) % 2 == 1
    }
  }

  datatype Latch = Latch(ctrl: bool, alt: bool, shift: bool)

  /** The paste key held back while the host selection is fetched; key 0 when there is none. */
  datatype Held = Held(key: Code, ctrl: bool, shift: bool, generation: nat)

  const NoLatch := Latch(false, false, false)
  const NotHeld := Held(0, false, false, 0)

  /**
   * The connection and its outbound side.  History: `emitted` is every packet since the handshake,
   * `wire` every byte the client's socket has accepted; that one outlives the connection.
   */
  datatype RawLink = Link(connected: bool, generation: nat, seqno: Uint32, tx: Tx, emitted: seq<Pkt>, wire: seq<Byte>)

  type Link = l: RawLink | l.connected ==> l.tx.Valid() witness Closed(0)

  /** The host's window, and the backend's own grab flag. */
  datatype Window = Window(focused: bool, pointerIn: bool, grabbed: bool, fullscreen: bool,
                           backendGrab: bool, width: Uint32, height: Uint32)

  /** Modifiers latched for hotkeys, the keys the client has down, and keys the broker kept for itself. */
  datatype Keys = Keys(latch: Latch, down: set<int>, consumed: set<int>)

  /** Paste state; `announced` is history: this client has at some time reported a clipboard agent. */
  datatype Clip = Clip(held: Held, capsSeen: Uint32, toldOff: bool, announced: bool)

  datatype Sink = Sink(link: Link, win: Window, keys: Keys, clip: Clip)

  function Closed(generation: nat): RawLink {
    Link(false, generation, 0, Tx([], [], 0), [], [])
  }

  /** The connection is over; what its client got to read stays on record. */
  function Ended(l: Link): RawLink {
    Closed(l.generation + 1).(wire := l.wire)
  }

  const NoKeys := Keys(NoLatch, {}, {})
  const NoClip := Clip(NotHeld, 0, false, false)

  const Initial := Sink(Closed(0), Window(false, false, false, false, false, 0, 0), NoKeys, NoClip)

  // ---- packets ------------------------------------------------------------------

  function B(b: bool): Int32 {
    if b then 1 else 0
  }

  function Flags(w: Window): Uint16 {
    (if w.grabbed then 1 else 0) + (if w.focused then 2 else 0) + (if w.fullscreen then 4 else 0)
  }

  function NextSeq(n: Uint32): Uint32 {
    if n == 0xFFFF_FFFF then 0 else n + 1
  }

  function Packet(s: Sink, kind: Kind, x: Int32, y: Int32, w0: Uint32, w1: Uint32): Pkt
    requires kind != Clipboard
  {
    Pkt(kind, Flags(s.win), s.link.seqno, Args(x, y, w0, w1))
  }

  // ---- connections ---------------------------------------------------------------

  function Ungrabbed(w: Window): Window {
    if w.grabbed then w.(backendGrab := false, grabbed := false) else w
  }

  /** nb_sink_detach, with the nb_client_state_reset it ends in. */
  function Detach(s: Sink): Sink {
    if !s.link.connected then s
    else Sink(Ended(s.link), Ungrabbed(s.win), NoKeys, NoClip)
  }

  /** The five packets of a completed handshake. */
  function Handshake(cfg: Config, w: Window): seq<Pkt> {
    [ Pkt(Hello, Flags(w), 0, Args(0, 0, PROTO_VERSION, cfg.caps)),
      Pkt(Surface, Flags(w), 1, Args(Signed(w.width), Signed(w.height), 0, 0)),
      Pkt(Focus, Flags(w), 2, Args(B(w.focused), 0, 0, 0)),
      Pkt(Grab, Flags(w), 3, Args(0, 0, 0, 0)),
      Pkt(Frame, Flags(w), 4, Args(0, 0, 0, 0)) ]
  }

  /** nb_sink_attach, short of the backend's resync; `ok` says the handshake went out. */
  function Attach(cfg: Config, s: Sink, ok: bool): Sink {
    var w := Ungrabbed(s.win);
    var hs := Handshake(cfg, w);
    Sink(if ok then Link(true, s.link.generation + 1, 5, Tx(hs, [], 0), hs, Bytes(hs)) else Closed(s.link.generation + 2),
         w, NoKeys, NoClip)
  }

  // ---- emission -------------------------------------------------------------------

  /** Enqueue after coalescing a long queue; a client whose queue is still full is given up. */
  function Transmit(l: Link, p: Pkt): Link {
    if !l.connected then l
    else
      var tx := l.tx.Relieved();
      if tx.Full() then Ended(l)
      else l.(tx := tx.Push(p), seqno := NextSeq(l.seqno), emitted := l.emitted + [p])
  }

  /** nb_emit. */
  function Emit(s: Sink, kind: Kind, x: Int32, y: Int32, w0: Uint32, w1: Uint32): Sink
    requires kind != Clipboard
  {
    var l := Transmit(s.link, Packet(s, kind, x, y, w0, w1));
    if s.link.connected && !l.connected then Detach(s) else s.(link := l)
  }

  /** The event kind a release of this code goes out as. */
  function EdgeKind(c: int): Kind {
    if BTN_MISC <= c < KEY_OK then Btn else Key
  }

  // ---- keys, grab and focus ---------------------------------------------------------

  function SetKey(s: Sink, code: Code, down: bool): Sink {
    s.(keys := s.keys.(down := if down then s.keys.down + {code} else s.keys.down - {code}))
  }

  /** One edge: into the broker's view, then on its way into the client's. */
  function KeyEdge(s: Sink, kind: Kind, code: Code, down: bool): Sink
    requires kind != Clipboard
  {
    Emit(SetKey(s, code, down), kind, code, B(down), 0, 0)
  }

  /** Release the keys the client has down, from code `c` up. */
  function ReleaseFrom(s: Sink, c: nat): Sink
    requires c <= KEY_CNT
    decreases KEY_CNT - c
  {
    if c == KEY_CNT then s
    else ReleaseFrom(if c in s.keys.down then KeyEdge(s, EdgeKind(c), c, false) else s, c + 1)
  }

  function Unlatched(s: Sink): Sink {
    s.(keys := s.keys.(latch := NoLatch))
  }

  /** nb_release_all. */
  function ReleaseAll(s: Sink): Sink {
    Unlatched(ReleaseFrom(s, 0))
  }

  /** nb_set_grab; `ok` is the backend's answer to taking a grab -- dropping one never fails. */
  function SetGrab(cfg: Config, s: Sink, on: bool, ok: bool): Sink {
    if s.win.grabbed == on then s
    else if on && !cfg.FocusEvents() then s
    else if on && !ok then s
    else
      var s1 := ReleaseAll(s.(win := s.win.(backendGrab := on)));
      var s2 := s1.(win := s1.win.(grabbed := on));
      if on && !s2.link.connected then s2.(win := s2.win.(backendGrab := false, grabbed := false))
      else Emit(s2, Grab, B(on), 0, 0, 0)
  }

  function Latched(l: Latch, code: nat, down: bool): Latch {
    Latch(if code == KEY_LEFTCTRL || code == KEY_RIGHTCTRL then down else l.ctrl,
          if code == KEY_LEFTALT || code == KEY_RIGHTALT then down else l.alt,
          if code == KEY_LEFTSHIFT || code == KEY_RIGHTSHIFT then down else l.shift)
  }

  /** The first trigger the key completes, with exactly the modifiers latched. */
  function FindTrigger(ts: seq<Trigger>, code: nat, l: Latch): seq<Trigger> {
    if ts == [] then []
    else if ts[0].code == code && ts[0].ctrl == l.ctrl && ts[0].shift == l.shift then [ts[0]]
    else FindTrigger(ts[1..], code, l)
  }

  /** nb_clip_trigger: in mode off a paste key is recognised once, to explain itself. */
  function PasteKey(cfg: Config, s: Sink, code: nat): seq<Trigger> {
    if cfg.mode == ClipIn.Off && s.clip.toldOff then [] else FindTrigger(cfg.triggers, code, s.keys.latch)
  }

  /** How the backend takes the request to read the host selection. */
  datatype Fetch = NoFetch | Started | NoText | Failed

  /** What the display side answers while one key is handled. */
  datatype KeyReply = KeyReply(grabOk: bool, fullscreenOk: bool, fetch: Fetch)

  function Consume(s: Sink, code: Code): Sink {
    s.(keys := s.keys.(consumed := s.keys.consumed + {code}))
  }

  predicate IsHotkey(l: Latch, code: nat) {
    l.ctrl && l.alt && (code == KEY_G || code == KEY_F)
  }

  /** The broker's own chords; they work without focus. */
  function OnHotkey(cfg: Config, s: Sink, code: nat, r: KeyReply): Sink {
    if code == KEY_G then SetGrab(cfg, s, !s.win.grabbed, r.grabOk)
    else if r.fullscreenOk then s.(win := s.win.(fullscreen := !s.win.fullscreen))
    else s
  }

  /** A paste key is held back, once, until its text is in the queue or cannot come. */
  function OnPasteKey(cfg: Config, s: Sink, t: Trigger, r: KeyReply): Sink {
    if s.clip.held.key != 0 then s
    else PasteTrigger(cfg, s.(clip := s.clip.(held := Held(t.code, t.ctrl, t.shift, s.link.generation))), r.fetch)
  }

  /** An ordinary key: consumed, gated by focus, and never repeated. */
  function OnPlainKey(s: Sink, code: Code, down: bool): Sink {
    if code in s.keys.consumed then
      if down then s else s.(keys := s.keys.(consumed := s.keys.consumed - {code}))
    else if !s.win.focused || down == (code in s.keys.down) then s
    else KeyEdge(s, Key, code, down)
  }

  /** A key whose modifiers are latched: the broker's own, a paste key, or the client's. */
  function OnLatchedKey(cfg: Config, s: Sink, code: Code, down: bool, r: KeyReply): Sink {
    if down && IsHotkey(s.keys.latch, code) then OnHotkey(cfg, Consume(s, code), code, r)
    else
      var t := if down && s.win.focused then PasteKey(cfg, s, code) else [];
      if t != [] then OnPasteKey(cfg, Consume(s, code), t[0].(code := code), r)
      else OnPlainKey(s, code, down)
  }

  /** nb_sink_key. */
  function OnKey(cfg: Config, s: Sink, code: nat, down: bool, r: KeyReply): Sink {
    if code >= KEY_CNT then s
    else OnLatchedKey(cfg, s.(keys := s.keys.(latch := Latched(s.keys.latch, code, down))), code, down, r)
  }

  /** nb_sink_btn. */
  function OnBtn(s: Sink, code: nat, down: bool): Sink {
    if code >= KEY_CNT || !s.win.focused || (!s.win.grabbed && !s.win.pointerIn) || down == (code in s.keys.down) then s
    else KeyEdge(s, Btn, code, down)
  }

  /** nb_sink_abs: positions are for an ungrabbed client only. */
  function OnAbs(s: Sink, x: Int32, y: Int32, w: Uint32, h: Uint32): Sink {
    if s.win.grabbed || !s.win.focused || !s.win.pointerIn then s else Emit(s, Abs, x, y, w, h)
  }

  /** nb_sink_rel. */
  function OnRel(s: Sink, dx: Int32, dy: Int32): Sink {
    if !s.win.grabbed || !s.win.focused || (dx == 0 && dy == 0) then s else Emit(s, Rel, dx, dy, 0, 0)
  }

  /** nb_sink_wheel. */
  function OnWheel(s: Sink, v: Int32, h: Int32): Sink {
    if !s.win.focused || (!s.win.grabbed && !s.win.pointerIn) then s else Emit(s, Wheel, v, h, 0, 0)
  }

  /** nb_sink_focus: on loss, drop the grab, release everything, and only then say so. */
  function OnFocus(s: Sink, active: bool): Sink {
    if s.win.focused == active then s
    else if active then Emit(s.(win := s.win.(focused := true)), Focus, 1, 0, 0, 0)
    else
      var s1 := ReleaseAll(s.(win := Ungrabbed(s.win.(focused := false))));
      Emit(Emit(s1.(win := s1.win.(pointerIn := false)), Focus, 0, 0, 0, 0), Grab, 0, 0, 0, 0)
  }

  /** nb_sink_pointer. */
  function OnPointer(s: Sink, inside: bool): Sink {
    if s.win.pointerIn == inside then s
    else Emit(s.(win := s.win.(pointerIn := inside)), Pointer, B(inside), 0, 0, 0)
  }

  /** nb_sink_surface. */
  function OnSurface(s: Sink, w: Uint32, h: Uint32, refresh: Uint32): Sink {
    if w == 0 || h == 0 || (s.win.width == w && s.win.height == h) then s
    else Emit(s.(win := s.win.(width := w, height := h)), Surface, Signed(w), Signed(h), refresh, 0)
  }

  // ---- the host's clipboard, on its way to the guest --------------------------------------

  /** The modifiers the replayed chord has to synthesise. */
  predicate NeedsCtrl(s: Sink) {
    s.clip.held.ctrl && KEY_LEFTCTRL !in s.keys.down && KEY_RIGHTCTRL !in s.keys.down
  }

  predicate NeedsShift(s: Sink) {
    s.clip.held.shift && KEY_LEFTSHIFT !in s.keys.down && KEY_RIGHTSHIFT !in s.keys.down
  }

  /** A balanced chord: the modifiers it has to synthesise around one press of the key. */
  function ChordOf(code: Code, ctrl: bool, shift: bool): seq<(Code, bool)> {
    (if ctrl then [(KEY_LEFTCTRL, true)] else [])
    + (if shift then [(KEY_LEFTSHIFT, true)] else [])
    + [(code, true), (code, false)]
    + (if shift then [(KEY_LEFTSHIFT, false)] else [])
    + (if ctrl then [(KEY_LEFTCTRL, false)] else [])
  }

  /** The chord that replays the held key. */
  function Chord(s: Sink): seq<(Code, bool)> {
    ChordOf(s.clip.held.key, NeedsCtrl(s), NeedsShift(s))
  }

  function KeyEdges(s: Sink, es: seq<(Code, bool)>): Sink
    decreases |es|
  {
    if es == [] then s else KeyEdges(KeyEdge(s, Key, es[0].0, es[0].1), es[1..])
  }

  /** A completion is for this connection and for the paste key it holds. */
  predicate Current(s: Sink, generation: nat) {
    s.clip.held.key != 0 && generation == s.link.generation && generation == s.clip.held.generation
  }

  /** nb_sink_clip_finish. */
  function ClipFinish(s: Sink, generation: nat, paste: bool): Sink {
    if !Current(s, generation) then s
    else
      var s1 := s.(clip := s.clip.(held := NotHeld));
      if !paste || !s.win.focused || !s.link.connected then s1 else KeyEdges(s1, Chord(s))
  }

  /** nb_sink_paste_trigger. */
  function PasteTrigger(cfg: Config, s: Sink, fetch: Fetch): Sink {
    var g := s.clip.held.generation;
    if cfg.mode != ClipIn.Consent then ClipFinish(s.(clip := s.clip.(toldOff := true)), g, true)
    else if !s.link.connected then ClipFinish(s, g, false)
    else if s.clip.capsSeen % 2 == 0 then ClipFinish(s, g, true)
    else match fetch
      case NoFetch => ClipFinish(s, g, false)
      case Started => s
      case NoText => ClipFinish(s, g, true)
      case Failed => ClipFinish(s, g, false)
  }

  function ClipInfo(n: nat, last: bool): Byte
    requires n <= CLIP_PKT_BYTES
  {
    n + if last then CLIP_LAST else 0
  }

  function ClipPkt(flags: Uint16, seqno: Uint32, payload: seq<Byte>, last: bool): Pkt
    requires |payload| <= CLIP_PKT_BYTES
  {
    Pkt(Clipboard, flags, seqno,
        Chunk(ClipInfo(|payload|, last), payload + seq(CLIP_PKT_BYTES - |payload|, _ => 0)))
  }

  /** The chunks a text is queued as; an empty text is one empty chunk. */
  function ClipPkts(flags: Uint16, seqno: Uint32, text: seq<Byte>): (ps: seq<Pkt>)
    ensures |ps| == ChunkCount(|text|)
    decreases |text|
  {
    if |text| <= CLIP_PKT_BYTES then [ClipPkt(flags, seqno, text, true)]
    else [ClipPkt(flags, seqno, text[..CLIP_PKT_BYTES], false)]
         + ClipPkts(flags, NextSeq(seqno), text[CLIP_PKT_BYTES..])
  }

  function ChunkCount(len: nat): nat {
    if len == 0 then 1 else (len + CLIP_PKT_BYTES - 1) / CLIP_PKT_BYTES
  }

  /** nb_sink_send_clipboard's refusals: stale, too long, or no room for the text and the chord after it. */
  predicate CanSend(s: Sink, generation: nat, len: nat) {
    && s.link.connected && Current(s, generation)
    && len <= CLIP_MAX_BYTES
    && |s.link.tx.queue| + ChunkCount(len) + REPLAY_RESERVE < TXRING
  }

  function AdvanceSeq(n: Uint32, k: nat): Uint32 {
    (n + k) % 0x1_0000_0000
  }

  /** Packets put straight into the ring, nothing merged or dropped. */
  function Append(l: Link, ps: seq<Pkt>): Link
    requires l.connected && |l.tx.queue| + |ps| < TXRING
  {
    l.(tx := l.tx.(queue := l.tx.queue + ps), seqno := AdvanceSeq(l.seqno, |ps|), emitted := l.emitted + ps)
  }

  /** nb_sink_send_clipboard. */
  function SendClipboard(s: Sink, generation: nat, text: seq<Byte>): (Sink, bool) {
    if CanSend(s, generation, |text|)
    then (s.(link := Append(s.link, ClipPkts(Flags(s.win), s.link.seqno, text))), true)
    else (s, false)
  }

  // ---- what a client's commands do to this state ---------------------------------------------

  /** The socket accepts what it will; only this moves the wire. */
  function Write(l: Link, sends: seq<Send>): Link
    requires l.connected
  {
    var f := l.tx.Flush(sends);
    l.(tx := f.0, wire := l.wire + Image(f.1))
  }

  /** nb_sink_flush. */
  function OnFlush(s: Sink, sends: seq<Send>): Sink {
    if s.link.connected then s.(link := Write(s.link, sends)) else s
  }

  /** nb_sink_bye, and nb_sink_close_request: say one last thing and push it out. */
  function SayAndFlush(s: Sink, kind: Kind, x: Int32, sends: seq<Send>): Sink
    requires kind != Clipboard
  {
    OnFlush(Emit(s, kind, x, 0, 0, 0), sends)
  }

  /** nb_violation. */
  function Violate(s: Sink, sends: seq<Send>): Sink {
    Detach(SayAndFlush(s, Bye, 2, sends))
  }

  /** CMD_CAPS. */
  function OnCaps(s: Sink, bits: Uint32): Sink {
    s.(clip := s.clip.(capsSeen := bits, announced := s.clip.announced || bits % 2 == 1))
  }

  function OnFormat(s: Sink, usable: bool, fourcc: Uint32, lo: Uint32, hi: Uint32): Sink {
    Emit(s, Format, B(usable), Signed(fourcc), lo, hi)
  }

  /** CMD_CLIPBOARD, as far as the paste key goes: in mode off the user has now been told. */
  function OnClipOffered(cfg: Config, s: Sink): Sink {
    if cfg.mode == ClipIn.Off then s.(clip := s.clip.(toldOff := true)) else s
  }

  /** What a backend tells the client while it puts a frame on screen. */
  datatype Report = Released(lo: Uint32, hi: Uint32) | Paced | Unusable(fourcc: Uint32, lo: Uint32, hi: Uint32)

  function OnReport(s: Sink, r: Report): Sink {
    match r
    case Released(lo, hi) => Emit(s, Release, 0, 0, lo, hi)
    case Paced => Emit(s, Frame, 0, 0, 0, 0)
    case Unusable(fourcc, lo, hi) => Emit(s, Format, 0, Signed(fourcc), lo, hi)
  }

  function OnReports(s: Sink, rs: seq<Report>): Sink
    decreases |rs|
  {
    if rs == [] then s else OnReports(OnReport(s, rs[0]), rs[1..])
  }

  // ---- runs -----------------------------------------------------------------------------------

  datatype Event =
    | EvAttach(ok: bool)
    | EvHangup
    | EvFlush(sends: seq<Send>)
    | EvKey(code: nat, down: bool, reply: KeyReply)
    | EvBtn(code: nat, down: bool)
    | EvAbs(x: Int32, y: Int32, w: Uint32, h: Uint32)
    | EvRel(dx: Int32, dy: Int32)
    | EvWheel(v: Int32, hz: Int32)
    | EvFocus(active: bool)
    | EvPointer(inside: bool)
    | EvSurface(w: Uint32, h: Uint32, refresh: Uint32)
    | EvReport(report: Report)
    | EvFullscreen(on: bool)
    | EvUngrab
    | EvClose(action: Int32, sends: seq<Send>)
    | EvBye(reason: Int32, sends: seq<Send>)
    | EvClipFinish(generation: nat, paste: bool)
    | EvSendClipboard(generation: nat, text: seq<Byte>)
    // client commands
    | EvViolation(sends: seq<Send>)
    | EvCaps(bits: Uint32)
    | EvFormat(usable: bool, fourcc: Uint32, lo: Uint32, hi: Uint32)
    | EvClipOffered

  function Step(cfg: Config, s: Sink, ev: Event): Sink {
    match ev
    case EvAttach(ok) => if s.link.connected then s else Attach(cfg, s, ok)
    case EvHangup => Detach(s)
    case EvFlush(sends) => OnFlush(s, sends)
    case EvKey(code, down, reply) => OnKey(cfg, s, code, down, reply)
    case EvBtn(code, down) => OnBtn(s, code, down)
    case EvAbs(x, y, w, h) => OnAbs(s, x, y, w, h)
    case EvRel(dx, dy) => OnRel(s, dx, dy)
    case EvWheel(v, h) => OnWheel(s, v, h)
    case EvFocus(active) => OnFocus(s, active)
    case EvPointer(inside) => OnPointer(s, inside)
    case EvSurface(w, h, refresh) => OnSurface(s, w, h, refresh)
    case EvReport(report) => OnReport(s, report)
    case EvFullscreen(on) => s.(win := s.win.(fullscreen := on))
    case EvUngrab => if s.win.grabbed then SetGrab(cfg, s, false, true) else s
    case EvClose(action, sends) => if s.link.connected then SayAndFlush(s, Close, action, sends) else s
    case EvBye(reason, sends) => SayAndFlush(s, Bye, reason, sends)
    case EvClipFinish(generation, paste) => ClipFinish(s, generation, paste)
    case EvSendClipboard(generation, text) => SendClipboard(s, generation, text).0
    case EvViolation(sends) => Violate(s, sends)
    case EvCaps(bits) => if s.link.connected then OnCaps(s, bits) else s
    case EvFormat(usable, fourcc, lo, hi) => OnFormat(s, usable, fourcc, lo, hi)
    case EvClipOffered => if s.link.connected then OnClipOffered(cfg, s) else s
  }

  function Run(cfg: Config, s: Sink, evs: seq<Event>): Sink
    decreases |evs|
  {
    if evs == [] then s else Run(cfg, Step(cfg, s, evs[0]), evs[1..])
  }
}
