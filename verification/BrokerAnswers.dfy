// What each well-formed command gets done: what the client is told, what a backend is offered, what
// the broker remembers.

module BrokerAnswers {
  import opened Protocol
  import opened Formats
  import opened Commands
  import opened Receive
  import opened BrokerSafety
  import opened BrokerRefusal
  import ClipIn
  import Descriptor
  import RateLimit
  import SinkInput
  import SinkModel
  import SinkScript

  // ---- a complete record is acted on -----------------------------------------------------------------

  /**
   * A read that completes a record, with no fd too many and within the rate: the record, all 40 bytes of
   * it, and the one fd that came with it are handed on, and nothing of either stays behind.
   */
  lemma RecordIsHandled(cfg: SinkModel.Config, d: Display, b: Broker, rd: Read, e: Reply)
    requires Inv(cfg, d, b) && b.sink.link.connected && rd.Data? && !Surplus(b, rd) && !Floods(b, e.now)
    requires |b.inb.rx + rd.bytes| == CMD_SIZE
    ensures var r, fd := b.inb.rx + rd.bytes, FirstOf(Fds(b.inb.rxfd) + rd.fds);
            exists b1: Broker ::
              && Ready(b, b1, r, rd.bytes, e.now) && b1.received == b.received + rd.fds && b1.closed == b.closed
              && Intake(cfg, d, b, rd, e) == HandleCmd(cfg, d, b1, r, fd, e)
  {
    var rx, b0 := b.inb.rx + rd.bytes, Bank(b, rd.fds);
    var b1 := TakenOut(b, b0, rx, rd.bytes, e.now);
    BankKeeps(b, rd.fds);
    BanksOne(b, rd.fds);
    BankTakes(b, rd.fds);
    assert RateLimit.Hit(b.inb.rate, e.now).count <= RateLimit.RX_MAX_PER_SEC by {
      HitsSnoc(b.log.times, e.now);
    }
    FilledIsHandled(cfg, d, b, b0, rd.bytes, e);
    assert Intake(cfg, d, b, rd, e) == Fill(cfg, d, b0, rd.bytes, e);
    assert Ready(b, b1, rx, rd.bytes, e.now);
  }

  function TakenOut(b: Broker, b0: Broker, r: Record, bytes: seq<Byte>, now: nat): Broker {
    b0.(inb := b0.inb.(rx := [], rxfd := None, rate := RateLimit.Hit(b.inb.rate, now)),
        log := b.log.(bytes := b.log.bytes + bytes, records := b.log.records + [r], times := b.log.times + [now]))
  }

  lemma FilledIsHandled(cfg: SinkModel.Config, d: Display, b: Broker, b0: Broker, bytes: seq<Byte>, e: Reply)
    requires b0.log == b.log && b0.inb == b.inb.(rxfd := b0.inb.rxfd) && |b.inb.rx + bytes| == CMD_SIZE
    requires RateLimit.Hit(b.inb.rate, e.now).count <= RateLimit.RX_MAX_PER_SEC
    ensures var r := b.inb.rx + bytes;
            Fill(cfg, d, b0, bytes, e) == HandleCmd(cfg, d, TakenOut(b, b0, r, bytes, e.now), r, b0.inb.rxfd, e)
  {
    var r := b.inb.rx + bytes;
    var b2 := b0.(inb := b0.inb.(rx := r), log := b0.log.(bytes := b0.log.bytes + bytes));
    assert Fill(cfg, d, b0, bytes, e) == Complete(cfg, d, b2, r, e);
    assert TakenOut(b, b0, r, bytes, e.now)
           == b2.(inb := b2.inb.(rx := [], rxfd := None, rate := RateLimit.Hit(b2.inb.rate, e.now)),
                  log := b2.log.(records := b2.log.records + [r], times := b2.log.times + [e.now]));
  }

  /** `b1` is `b` with the record taken out of the buffer and put on record. */
  predicate Ready(b: Broker, b1: Broker, r: Record, bytes: seq<Byte>, now: nat) {
    && b1.sink == b.sink
    && b1.inb == b.inb.(rx := [], rxfd := None, rate := RateLimit.Hit(b.inb.rate, now))
    && b1.log == b.log.(bytes := b.log.bytes + bytes, records := b.log.records + [r], times := b.log.times + [now])
  }

  lemma BankTakes(b: Broker, fds: seq<int>)
    requires |Fds(b.inb.rxfd) + fds| <= 1
    ensures Bank(b, fds).received == b.received + fds && Bank(b, fds).closed == b.closed
  {
    if fds == [] {
      assert b.received + fds == b.received;
    } else {
      assert fds == [fds[0]] && fds[1..] == [] && b.inb.rxfd.None?;
    }
  }

  // ---- QUERY_FORMAT ------------------------------------------------------------------------------

  /** The display shows the pair, or the same bytes without their alpha. */
  predicate Displayable(formatOk: Pair -> bool, fourcc: Uint32, modifier: Uint64) {
    || formatOk(Pair(fourcc, modifier))
    || (fourcc == AR24 && formatOk(Pair(XR24, modifier)))
    || (fourcc == AB24 && formatOk(Pair(XB24, modifier)))
  }

  lemma ResolvesIffDisplayable(formatOk: Pair -> bool, fourcc: Uint32, modifier: Uint64)
    ensures Resolve(formatOk, fourcc, modifier).Some? <==> Displayable(formatOk, fourcc, modifier)
  {}

  lemma FormatTold(s: SinkModel.Sink, usable: bool, fourcc: Uint32, lo: Uint32, hi: Uint32)
    requires s.link.connected
    ensures SinkInput.Adds(s, Format, Args(if usable then 1 else 0, Signed(fourcc), lo, hi),
                           SinkModel.OnFormat(s, usable, fourcc, lo, hi).link)
  {
    SinkScript.EmitSpeaks(s, Format, SinkModel.B(usable), Signed(fourcc), lo, hi);
    SinkInput.OneLine(s, Format, SinkModel.B(usable), Signed(fourcc), lo, hi);
  }

  /** A query is answered with one FORMAT packet that names the pair, and says yes exactly if it is displayable. */
  lemma QueryIsAnswered(cfg: SinkModel.Config, d: Display, b: Broker, r: Record, fd: Option<int>, e: Reply)
    requires b.sink.link.connected && WellFormed(r, fd) && Type(r) == CMD_QUERY_FORMAT
    ensures SinkInput.Adds(b.sink, Format,
              Args(if Displayable(d.session.formatOk, Word(r, 20), ModifierOf(r)) then 1 else 0,
                   Signed(Word(r, 20)), Word(r, 24), Word(r, 28)),
              HandleCmd(cfg, d, b, r, fd, e).sink.link)
  {
    var usable := Resolve(d.session.formatOk, Word(r, 20), ModifierOf(r)).Some?;
    ResolvesIffDisplayable(d.session.formatOk, Word(r, 20), ModifierOf(r));
    FormatTold(b.sink, usable, Word(r, 20), Word(r, 24), Word(r, 28));
    assert HandleCmd(cfg, d, b, r, fd, e) == OnQuery(d, b, r, fd, e);
    assert OnQuery(d, b, r, fd, e).sink == SinkModel.OnFormat(b.sink, usable, Word(r, 20), Word(r, 24), Word(r, 28));
  }

  /** A dma-buf of this pair, with some geometry on some fd, passes the descriptor checks. */
  ghost predicate Attachable(s: Descriptor.Session, fourcc: Uint32, modifier: Uint64) {
    exists r: Descriptor.Request, fd: Descriptor.Fd ::
      !r.shm && r.fourcc == fourcc && r.modifier == modifier && Descriptor.Validate(s, r, fd).Some?
  }

  /** The answer and ATTACH agree: yes exactly if some buffer of that pair would be accepted. */
  lemma YesMeansAttachable(s: Descriptor.Session, fourcc: Uint32, modifier: Uint64)
    requires forall p: Pair :: s.formatOk(p) ==> BytesPerPixel(p.fourcc) != 0
    ensures Displayable(s.formatOk, fourcc, modifier) <==> Attachable(s, fourcc, modifier)
  {
    if Displayable(s.formatOk, fourcc, modifier) {
      var r := Descriptor.Request(false, 1, 1, 4, 0, fourcc, modifier, 0);
      var fd := Descriptor.Fd(true, false, false, 4, Some(0));
      var use := if s.formatOk(Pair(fourcc, modifier)) then fourcc else if fourcc == AR24 then XR24 else XB24;
      assert s.formatOk(Pair(use, modifier));
      var desc := Descriptor.Desc(0, 4, 1, 1, 4, 0, use, modifier, 4, false, 0);
      assert desc.Extent() == 4;
      Descriptor.AcceptedIff(s, r, fd, desc);
      assert Descriptor.Validate(s, r, fd).Some?;
    }
    if Attachable(s, fourcc, modifier) {
      var r: Descriptor.Request, fd: Descriptor.Fd :|
        !r.shm && r.fourcc == fourcc && r.modifier == modifier && Descriptor.Validate(s, r, fd).Some?;
      Descriptor.AcceptedIff(s, r, fd, Descriptor.Validate(s, r, fd).value);
    }
  }

  // ---- ATTACH, CAPS, COMMIT and CLIPBOARD ------------------------------------------------------------

  /** The backend is offered the buffer of an ATTACH exactly when the display takes dma-bufs and the checks pass. */
  lemma AttachIsOffered(cfg: SinkModel.Config, d: Display, b: Broker, r: Record, fd: Option<int>, e: Reply, desc: Descriptor.Desc)
    requires b.sink.link.connected && WellFormed(r, fd) && Type(r) == CMD_ATTACH
    ensures var b' := HandleCmd(cfg, d, b, r, fd, e);
            && b'.sink == b.sink && b'.inb == b.inb && b'.log == b.log.(buffers := b'.log.buffers)
            && (d.dmabuf && Descriptor.Accepts(d.session, RequestOf(r), e.fd, desc)
                ==> b'.log.buffers == b.log.buffers + [desc])
            && (b'.log.buffers != b.log.buffers
                ==> d.dmabuf && |b'.log.buffers| == |b.log.buffers| + 1 && b'.log.buffers[..|b.log.buffers|] == b.log.buffers
                    && Descriptor.Accepts(d.session, RequestOf(r), e.fd, b'.log.buffers[|b.log.buffers|]))
  {
    var b', v := HandleCmd(cfg, d, b, r, fd, e), Descriptor.Validate(d.session, RequestOf(r), e.fd);
    assert b' == OnAttach(d, b, r, fd, e);
    Descriptor.AcceptedIff(d.session, RequestOf(r), e.fd, desc);
    if v.Some? {
      Descriptor.AcceptedIff(d.session, RequestOf(r), e.fd, v.value);
    }
  }

  /** The capabilities a client reports are the ones remembered. */
  lemma CapsAreRemembered(cfg: SinkModel.Config, d: Display, b: Broker, r: Record, e: Reply)
    requires b.sink.link.connected && WellFormed(r, None) && Type(r) == CMD_CAPS
    ensures var b' := HandleCmd(cfg, d, b, r, None, e);
            && b'.sink.clip.capsSeen == Word(r, 4) && b'.sink.link == b.sink.link && b'.inb == b.inb && b'.log == b.log
  {
    assert HandleCmd(cfg, d, b, r, None, e) == OnCaps(b, r, None, e);
  }

  /** A COMMIT tells the client what the backend reports, in order, and nothing else. */
  lemma CommitIsReported(cfg: SinkModel.Config, d: Display, b: Broker, r: Record, e: Reply)
    requires b.sink.link.connected && WellFormed(r, None) && Type(r) == CMD_COMMIT
    ensures HandleCmd(cfg, d, b, r, None, e).sink.link
            == SinkScript.Spoken(b.sink.link, SinkScript.ReportLines(b.sink.win, e.reports))
  {
    SinkScript.ReportsSpeak(b.sink, e.reports);
    assert HandleCmd(cfg, d, b, r, None, e) == OnCommit(b, r, None, e);
  }

  /** A clipboard piece that fits is taken as it came, stamped with the time it came at. */
  lemma PieceIsTaken(cfg: SinkModel.Config, d: Display, b: Broker, r: Record, e: Reply)
    requires b.sink.link.connected && Clipped(cfg.mode, d, b.inb, b.log) && WellFormed(r, None)
    requires Type(r) == CMD_CLIPBOARD && ClipIn.Fits(b.log.pieces, PieceOf(r, false))
    ensures var l := HandleCmd(cfg, d, b, r, None, e).log;
            && |l.pieces| == |b.log.pieces| + 1 && l.pieces[..|b.log.pieces|] == b.log.pieces
            && l.clipTimes == b.log.clipTimes + [e.now]
            && var c := l.pieces[|b.log.pieces|];
               && c.index == Word(r, 4) && c.info == r[12] && c.data == r[13..]
               && (c.limited <==> RateLimit.Hits(l.clipTimes).count > 4000)
  {
    ClipIn.FitsIffExpected(cfg.mode, b.inb.clip, b.log.pieces, PieceOf(r, false));
    HitsSnoc(b.log.clipTimes, e.now);
    assert HandleCmd(cfg, d, b, r, None, e) == TakePiece(cfg, d, b, r, e);
  }

  /** Over every history: a piece counts as one too many exactly when its second already held the limit. */
  lemma PiecesAreLimited(cfg: SinkModel.Config, d: Display, os: seq<Occasion>, i: nat)
    requires i < |History(cfg, d, os).log.pieces|
    ensures var l := History(cfg, d, os).log;
            && |l.clipTimes| == |l.pieces|
            && (l.pieces[i].limited <==> RateLimit.Hits(l.clipTimes[..i + 1]).count > 4000)
  {
    HistoryInv(cfg, d, os);
  }
}
