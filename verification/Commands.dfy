// The client's half of the protocol: 40-byte command records, and what each does (nb_handle_cmd).

module Commands {
  import opened Protocol
  import opened Formats
  import opened TxRing
  import ClipIn
  import Descriptor
  import RateLimit
  import SinkModel
  import SinkPaste

  const CMD_SIZE: nat := 40

  const CMD_ATTACH: nat := 1
  const CMD_COMMIT: nat := 2
  const CMD_WINDOW: nat := 3
  const CMD_CLIPBOARD: nat := 4
  const CMD_CAPS: nat := 5
  const CMD_QUERY_FORMAT: nat := 6

  type Record = r: seq<Byte> | |r| == CMD_SIZE witness seq(CMD_SIZE, _ => 0)

  // ---- the two layouts of a record ----------------------------------------------------------

  function Half(r: Record, at: nat): Uint16
    requires at + 2 <= CMD_SIZE
  {
    FromLe16(r[at..at + 2])
  }

  function Word(r: Record, at: nat): Uint32
    requires at + 4 <= CMD_SIZE
  {
    FromLe32(r[at..at + 4])
  }

  function Type(r: Record): Uint16 {
    Half(r, 0)
  }

  /** Only the lowest flag has a meaning: the buffer is shared memory. */
  function FlagBits(r: Record): Uint16 {
    Half(r, 2)
  }

  function ModifierOf(r: Record): Uint64 {
    Word(r, 24) as int + 0x1_0000_0000 * Word(r, 28) as int
  }

  function RequestOf(r: Record): Descriptor.Request {
    Descriptor.Request(FlagBits(r) == 1, Word(r, 4), Word(r, 8), Word(r, 12), Word(r, 16), Word(r, 20),
                       ModifierOf(r), Word(r, 32))
  }

  /** reserved1 of the ordinary layout; a clipboard record has payload there. */
  predicate Reserved(r: Record) {
    Word(r, 36) != 0
  }

  /** Some descriptor field from offset `from` on is set. */
  predicate Stray(r: Record, from: nat)
    requires from <= 32
  {
    exists i :: from <= i < 32 && r[i] != 0
  }

  function ClipInfoOf(r: Record): Byte {
    r[12]
  }

  function PieceOf(r: Record, limited: bool): ClipIn.Piece
    requires ClipNBytes(ClipInfoOf(r)) <= CLIP_CMD_BYTES
  {
    ClipIn.RawPiece.Piece(Word(r, 4), ClipInfoOf(r), r[13..], limited)
  }

  // ---- the state commands act on -----------------------------------------------------------------

  /** What the session behind the broker can do. */
  datatype Display = Display(dmabuf: bool, clipboardIn: bool, session: Descriptor.Session)

  /** The inbound half of struct nb_sink. */
  datatype Inbound = Inbound(rx: seq<Byte>, rxfd: Option<int>, rate: RateLimit.Window,
                             clipRate: RateLimit.Window, clip: ClipIn.Reassembly, windowSet: bool)

  const NoInput := Inbound([], None, RateLimit.Fresh, RateLimit.Fresh, ClipIn.Idle, false)

  /**
   * History of the connection: the bytes received, the commands taken from them and when, the
   * clipboard pieces among them and when, the texts handed to the host, the buffers offered to the
   * backend and the sizes the window was asked to take.
   */
  datatype Log = Log(bytes: seq<Byte>, records: seq<Record>, times: seq<nat>, pieces: seq<ClipIn.Piece>,
                     clipTimes: seq<nat>, texts: seq<seq<Byte>>, buffers: seq<Descriptor.Desc>, resizes: seq<(Uint32, Uint32)>)

  const NoLog := Log([], [], [], [], [], [], [], [])

  /** The broker; `received` and `closed` are the history of the file descriptors clients sent. */
  datatype Broker = Broker(sink: SinkModel.Sink, inb: Inbound, log: Log, received: seq<int>, closed: seq<int>)

  const Start := Broker(SinkModel.Initial, NoInput, NoLog, [], [])

  /** What the world contributes to one command: the clock, its fd, the socket and the backend. */
  datatype Reply = Reply(now: nat, fd: Descriptor.Fd, sends: seq<Send>, reports: seq<SinkModel.Report>)

  function Fds(o: Option<int>): seq<int> {
    match o case Some(fd) => [fd] case None => []
  }

  /** The sink moved on; if that ended the connection its inbound state is reset, closing a banked fd. */
  function WithSink(b: Broker, s: SinkModel.Sink): Broker {
    if s.link.generation == b.sink.link.generation then b.(sink := s)
    else Broker(s, NoInput, NoLog, b.received, b.closed + Fds(b.inb.rxfd))
  }

  function CloseFd(b: Broker, fd: int): Broker {
    b.(closed := b.closed + [fd])
  }

  /** The fd that came with a command, if one did, is closed. */
  function CloseIfAny(b: Broker, fd: Option<int>): Broker {
    if fd.Some? then CloseFd(b, fd.value) else b
  }

  function Violate(b: Broker, e: Reply): Broker {
    WithSink(b, SinkModel.Violate(b.sink, e.sends))
  }

  // ---- one case per command -------------------------------------------------------------------------

  function OnAttach(d: Display, b: Broker, r: Record, fd: Option<int>, e: Reply): Broker {
    if Reserved(r) then Violate(CloseIfAny(b, fd), e)
    else if fd.None? then Violate(b, e)
    else if !d.dmabuf then CloseFd(b, fd.value)
    else match Descriptor.Validate(d.session, RequestOf(r), e.fd)
      case None => CloseFd(b, fd.value)
      case Some(desc) => CloseFd(b.(log := b.log.(buffers := b.log.buffers + [desc])), fd.value)
  }

  function OnQuery(d: Display, b: Broker, r: Record, fd: Option<int>, e: Reply): Broker {
    if Reserved(r) then Violate(CloseIfAny(b, fd), e)
    else
      var b1 := CloseIfAny(b, fd);
      var usable := Resolve(d.session.formatOk, Word(r, 20), ModifierOf(r)).Some?;
      WithSink(b1, SinkModel.OnFormat(b1.sink, usable, Word(r, 20), Word(r, 24), Word(r, 28)))
  }

  function OnCommit(b: Broker, r: Record, fd: Option<int>, e: Reply): Broker {
    if Reserved(r) then Violate(CloseIfAny(b, fd), e)
    else if fd.Some? then Violate(CloseFd(b, fd.value), e)
    else if Stray(r, 4) then Violate(b, e)
    else WithSink(b, SinkModel.OnReports(b.sink, e.reports))
  }

  /** What a completed transaction hands to the host, if the session takes it. */
  function Handed(d: Display, e: ClipIn.Effect): seq<seq<Byte>> {
    if e.Deliver? && d.clipboardIn then [e.text] else []
  }

  /** A piece was taken: `fed` is the reassembly after it, and what it completed. */
  function Reassembled(cfg: SinkModel.Config, d: Display, b: Broker, piece: ClipIn.Piece, now: nat,
                       fed: (ClipIn.Reassembly, ClipIn.Effect)): Broker {
    b.(sink := SinkModel.OnClipOffered(cfg, b.sink),
       inb := b.inb.(clip := fed.0, clipRate := RateLimit.Hit(b.inb.clipRate, now)),
       log := b.log.(pieces := b.log.pieces + [piece], clipTimes := b.log.clipTimes + [now],
                     texts := b.log.texts + Handed(d, fed.1)))
  }

  /** One piece that fits the open transaction. */
  function TakePiece(cfg: SinkModel.Config, d: Display, b: Broker, r: Record, e: Reply): Broker
    requires ClipNBytes(ClipInfoOf(r)) <= CLIP_CMD_BYTES
  {
    var w := RateLimit.Hit(b.inb.clipRate, e.now);
    var piece := PieceOf(r, w.count > RateLimit.CLIP_MAX_PER_SEC);
    Reassembled(cfg, d, b, piece, e.now, ClipIn.Feed(cfg.mode, b.inb.clip, piece))
  }

  function OnClipboard(cfg: SinkModel.Config, d: Display, b: Broker, r: Record, fd: Option<int>, e: Reply): Broker {
    if fd.Some? then Violate(CloseFd(b, fd.value), e)
    else if Word(r, 8) != 0 then Violate(b, e)
    else if ClipNBytes(ClipInfoOf(r)) > CLIP_CMD_BYTES then Violate(b, e)
    else
      var begun := ClipIn.Begin(b.inb.clip, PieceOf(r, false));
      if !begun.active || Word(r, 4) != begun.next then Violate(b, e) else TakePiece(cfg, d, b, r, e)
  }

  function OnCaps(b: Broker, r: Record, fd: Option<int>, e: Reply): Broker {
    if Reserved(r) then Violate(CloseIfAny(b, fd), e)
    else if fd.Some? then Violate(CloseFd(b, fd.value), e)
    else if Stray(r, 8) then Violate(b, e)
    else b.(sink := SinkModel.OnCaps(b.sink, Word(r, 4)))
  }

  /** The size in a WINDOW command is one a window may have. */
  predicate Sizes(r: Record) {
    0 < Word(r, 4) <= Descriptor.MAX_DIM && 0 < Word(r, 8) <= Descriptor.MAX_DIM
  }

  function OnWindow(b: Broker, r: Record, fd: Option<int>, e: Reply): Broker {
    if Reserved(r) then Violate(CloseIfAny(b, fd), e)
    else if fd.Some? then Violate(CloseFd(b, fd.value), e)
    else if Stray(r, 12) then Violate(b, e)
    else if !Sizes(r) || b.inb.windowSet then b
    else b.(inb := b.inb.(windowSet := true), log := b.log.(resizes := b.log.resizes + [(Word(r, 4), Word(r, 8))]))
  }

  /** nb_handle_cmd. */
  function HandleCmd(cfg: SinkModel.Config, d: Display, b: Broker, r: Record, fd: Option<int>, e: Reply): Broker {
    if FlagBits(r) > 1 then Violate(CloseIfAny(b, fd), e)
    else if Type(r) == CMD_ATTACH then OnAttach(d, b, r, fd, e)
    else if Type(r) == CMD_QUERY_FORMAT then OnQuery(d, b, r, fd, e)
    else if Type(r) == CMD_COMMIT then OnCommit(b, r, fd, e)
    else if Type(r) == CMD_CLIPBOARD then OnClipboard(cfg, d, b, r, fd, e)
    else if Type(r) == CMD_CAPS then OnCaps(b, r, fd, e)
    else if Type(r) == CMD_WINDOW then OnWindow(b, r, fd, e)
    else Violate(CloseIfAny(b, fd), e)
  }

  // ---- what every path has in common ------------------------------------------------------------

  /** `b'` is `b` between commands: the same connection, or one that has just ended. */
  predicate Follows(b: Broker, b': Broker) {
    if b'.sink.link.generation == b.sink.link.generation
    then b'.sink.link.connected == b.sink.link.connected
         && b'.inb.rx == b.inb.rx && b'.inb.rxfd == b.inb.rxfd && b'.inb.rate == b.inb.rate
         && b'.log.bytes == b.log.bytes && b'.log.records == b.log.records && b'.log.times == b.log.times
    else !b'.sink.link.connected && b'.inb == NoInput && b'.log == NoLog
  }

  lemma ViolateEnds(s: SinkModel.Sink, sends: seq<Send>)
    requires s.link.connected
    ensures var s' := SinkModel.Violate(s, sends);
            !s'.link.connected && s'.link.generation == s.link.generation + 1
  {}

  lemma {:induction false} ReportsLast(s: SinkModel.Sink, rs: seq<SinkModel.Report>)
    ensures SinkPaste.SameOrEnded(s, SinkModel.OnReports(s, rs))
    decreases |rs|
  {
    if rs != [] {
      match rs[0] {
        case Released(lo, hi) => SinkPaste.EmitSameOrEnded(s, Release, 0, 0, lo, hi);
        case Paced => SinkPaste.EmitSameOrEnded(s, Frame, 0, 0, 0, 0);
        case Unusable(fourcc, lo, hi) => SinkPaste.EmitSameOrEnded(s, Format, 0, Signed(fourcc), lo, hi);
      }
      ReportsLast(SinkModel.OnReport(s, rs[0]), rs[1..]);
    }
  }

  /** The fd is closed, exactly once, and no other is touched; the connection goes on or is over. */
  predicate Owned(b: Broker, fd: Option<int>, b': Broker) {
    && Follows(b, b')
    && b'.received == b.received && b'.closed == b.closed + Fds(fd)
  }

  lemma RefusalOwned(b: Broker, fd: Option<int>, e: Reply)
    requires b.sink.link.connected && b.inb.rxfd == None
    ensures Owned(b, fd, Violate(CloseIfAny(b, fd), e))
    ensures !Violate(CloseIfAny(b, fd), e).sink.link.connected
  {
    ViolateEnds(b.sink, e.sends);
    assert b.closed + Fds(fd) + [] == b.closed + Fds(fd);
    assert fd.None? ==> b.closed + Fds(fd) == b.closed;
  }

  lemma AttachOwned(d: Display, b: Broker, r: Record, fd: Option<int>, e: Reply)
    requires b.sink.link.connected && b.inb.rxfd == None
    ensures Owned(b, fd, OnAttach(d, b, r, fd, e))
    ensures OnAttach(d, b, r, fd, e).sink.link.connected <==> !Reserved(r) && fd.Some?
  {
    RefusalOwned(b, fd, e);
  }

  lemma QueryOwned(d: Display, b: Broker, r: Record, fd: Option<int>, e: Reply)
    requires b.sink.link.connected && b.inb.rxfd == None
    ensures Owned(b, fd, OnQuery(d, b, r, fd, e))
  {
    RefusalOwned(b, fd, e);
    assert b.closed + Fds(fd) + [] == b.closed + Fds(fd);
    assert fd.None? ==> b.closed + Fds(fd) == b.closed;
  }

  lemma CommitOwned(b: Broker, r: Record, fd: Option<int>, e: Reply)
    requires b.sink.link.connected && b.inb.rxfd == None
    ensures Owned(b, fd, OnCommit(b, r, fd, e))
  {
    RefusalOwned(b, fd, e);
    ReportsLast(b.sink, e.reports);
    assert b.closed + [] == b.closed;
  }

  lemma ReassembledOwned(cfg: SinkModel.Config, d: Display, b: Broker, piece: ClipIn.Piece, now: nat,
                         fed: (ClipIn.Reassembly, ClipIn.Effect))
    requires b.sink.link.connected
    ensures Owned(b, None, Reassembled(cfg, d, b, piece, now, fed))
    ensures Reassembled(cfg, d, b, piece, now, fed).sink.link == b.sink.link
  {
    assert b.closed + [] == b.closed;
  }

  lemma ClipboardOwned(cfg: SinkModel.Config, d: Display, b: Broker, r: Record, fd: Option<int>, e: Reply)
    requires b.sink.link.connected && b.inb.rxfd == None
    ensures Owned(b, fd, OnClipboard(cfg, d, b, r, fd, e))
  {
    RefusalOwned(b, fd, e);
    if fd.None? && ClipNBytes(ClipInfoOf(r)) <= CLIP_CMD_BYTES {
      var w := RateLimit.Hit(b.inb.clipRate, e.now);
      var piece := PieceOf(r, w.count > RateLimit.CLIP_MAX_PER_SEC);
      ReassembledOwned(cfg, d, b, piece, e.now, ClipIn.Feed(cfg.mode, b.inb.clip, piece));
    }
  }

  lemma CapsOwned(b: Broker, r: Record, fd: Option<int>, e: Reply)
    requires b.sink.link.connected && b.inb.rxfd == None
    ensures Owned(b, fd, OnCaps(b, r, fd, e))
    ensures OnCaps(b, r, fd, e).sink.link.connected <==> !Reserved(r) && fd.None? && !Stray(r, 8)
  {
    RefusalOwned(b, fd, e);
    assert b.closed + [] == b.closed;
  }

  lemma WindowOwned(b: Broker, r: Record, fd: Option<int>, e: Reply)
    requires b.sink.link.connected && b.inb.rxfd == None
    ensures Owned(b, fd, OnWindow(b, r, fd, e))
    ensures OnWindow(b, r, fd, e).sink.link.connected <==> !Reserved(r) && fd.None? && !Stray(r, 12)
  {
    RefusalOwned(b, fd, e);
    assert b.closed + [] == b.closed;
  }

  /**
   * Whatever a record says and whatever came with it: the connection goes on with its framing
   * untouched or it is over, and the fd that came with the record is closed exactly once.
   */
  lemma HandleTakesOwnership(cfg: SinkModel.Config, d: Display, b: Broker, r: Record, fd: Option<int>, e: Reply)
    requires b.sink.link.connected && b.inb.rxfd == None
    ensures Owned(b, fd, HandleCmd(cfg, d, b, r, fd, e))
  {
    if FlagBits(r) > 1 {
      RefusalOwned(b, fd, e);
    } else if Type(r) == CMD_ATTACH {
      AttachOwned(d, b, r, fd, e);
    } else if Type(r) == CMD_QUERY_FORMAT {
      QueryOwned(d, b, r, fd, e);
    } else if Type(r) == CMD_COMMIT {
      CommitOwned(b, r, fd, e);
    } else if Type(r) == CMD_CLIPBOARD {
      ClipboardOwned(cfg, d, b, r, fd, e);
    } else if Type(r) == CMD_CAPS {
      CapsOwned(b, r, fd, e);
    } else if Type(r) == CMD_WINDOW {
      WindowOwned(b, r, fd, e);
    } else {
      RefusalOwned(b, fd, e);
    }
  }
}
