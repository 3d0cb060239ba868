// What ends a connection: which records, and which reads.

module BrokerRefusal {
  import opened Protocol
  import opened Formats
  import opened Commands
  import opened Receive
  import opened BrokerSafety
  import ClipIn
  import RateLimit
  import SinkLoss
  import SinkModel
  import SinkSafety
  import SinkScript

  // ---- room for what a command makes the broker say ---------------------------------------------

  /** The ring has room for these lines, numbered from where the connection is. */
  predicate RoomFor(l: SinkModel.Link, lines: seq<Pkt>)
    requires l.connected
  {
    SinkScript.Takes(l.tx, SinkScript.Stamp(l.seqno, lines))
  }

  /** A frame's reports leave the client connected exactly when the ring takes them all, and it is told them all. */
  lemma ReportsTakenIff(s: SinkModel.Sink, rs: seq<SinkModel.Report>)
    requires s.link.connected
    ensures var l, lines := SinkModel.OnReports(s, rs).link, SinkScript.ReportLines(s.win, rs);
            && (l.connected <==> RoomFor(s.link, lines))
            && (l.connected ==> l.emitted == s.link.emitted + SinkScript.Stamp(s.link.seqno, lines))
  {
    SinkScript.ReportsSpeak(s, rs);
  }

  lemma {:induction false} ReportsSpend(cfg: SinkModel.Config, s: SinkModel.Sink, rs: seq<SinkModel.Report>)
    requires SinkSafety.Inv(cfg, s)
    ensures SinkLoss.Spends(s, SinkModel.OnReports(s, rs), |rs|)
    decreases |rs|
  {
    if rs != [] {
      var s' := SinkModel.OnReport(s, rs[0]);
      SinkSafety.OnReportInv(cfg, s, rs[0]);
      SinkLoss.ReportSpends(s, rs[0]);
      ReportsSpend(cfg, s', rs[1..]);
      var r := SinkModel.OnReports(s', rs[1..]);
      assert SinkModel.OnReports(s, rs) == r;
      SinkLoss.SpendsBoth(s, s', r, 1, |rs| - 1);
    }
  }

  // ---- which records end a connection -----------------------------------------------------------

  /** Known flags and type, no stray field, and an fd exactly where one belongs. */
  predicate WellFormed(r: Record, fd: Option<int>) {
    && FlagBits(r) <= 1 && 1 <= Type(r) <= 6
    && (Type(r) != CMD_CLIPBOARD ==> !Reserved(r))
    && (Type(r) == CMD_ATTACH ==> fd.Some?)
    && (Type(r) != CMD_ATTACH && Type(r) != CMD_QUERY_FORMAT ==> fd.None?)
    && (Type(r) == CMD_COMMIT ==> !Stray(r, 4))
    && (Type(r) == CMD_CAPS ==> !Stray(r, 8))
    && (Type(r) == CMD_WINDOW ==> !Stray(r, 12))
    && (Type(r) == CMD_CLIPBOARD ==> Word(r, 8) == 0 && ClipNBytes(ClipInfoOf(r)) <= CLIP_CMD_BYTES)
  }

  /** A record the connection survives: well formed, in its transaction, and its answers find room. */
  predicate Bearable(s: SinkModel.Sink, pieces: seq<ClipIn.Piece>, r: Record, fd: Option<int>, reports: seq<SinkModel.Report>)
    requires s.link.connected
  {
    && WellFormed(r, fd)
    && (Type(r) == CMD_CLIPBOARD ==> ClipIn.Fits(pieces, PieceOf(r, false)))
    && (Type(r) == CMD_QUERY_FORMAT ==> !s.link.tx.Relieved().Full())
    && (Type(r) == CMD_COMMIT ==> RoomFor(s.link, SinkScript.ReportLines(s.win, reports)))
  }

  lemma MalformedIsRefused(cfg: SinkModel.Config, d: Display, b: Broker, r: Record, fd: Option<int>, e: Reply)
    requires !WellFormed(r, fd)
    ensures HandleCmd(cfg, d, b, r, fd, e) == Violate(CloseIfAny(b, fd), e)
  {}

  lemma ClipboardRefusedIff(cfg: SinkModel.Config, d: Display, b: Broker, r: Record, fd: Option<int>, e: Reply)
    requires b.sink.link.connected && Clipped(cfg.mode, d, b.inb, b.log)
    requires WellFormed(r, fd) && Type(r) == CMD_CLIPBOARD
    ensures HandleCmd(cfg, d, b, r, fd, e).sink.link.connected <==> ClipIn.Fits(b.log.pieces, PieceOf(r, false))
  {
    assert OnClipboard(cfg, d, b, r, fd, e)
           == if ClipIn.Fits(b.log.pieces, PieceOf(r, false)) then TakePiece(cfg, d, b, r, e) else Violate(b, e) by {
      ClipIn.FitsIffExpected(cfg.mode, b.inb.clip, b.log.pieces, PieceOf(r, false));
    }
    if ClipIn.Fits(b.log.pieces, PieceOf(r, false)) {
      var w := RateLimit.Hit(b.inb.clipRate, e.now);
      var piece := PieceOf(r, w.count > RateLimit.CLIP_MAX_PER_SEC);
      ReassembledOwned(cfg, d, b, piece, e.now, ClipIn.Feed(cfg.mode, b.inb.clip, piece));
    } else {
      ViolationEnds(b, e);
    }
  }

  lemma QueryRefusedIff(d: Display, b: Broker, r: Record, fd: Option<int>, e: Reply)
    requires b.sink.link.connected && WellFormed(r, fd) && Type(r) == CMD_QUERY_FORMAT
    ensures OnQuery(d, b, r, fd, e).sink.link.connected <==> !b.sink.link.tx.Relieved().Full()
  {}

  lemma CommitRefusedIff(b: Broker, r: Record, fd: Option<int>, e: Reply)
    requires b.sink.link.connected && WellFormed(r, fd) && Type(r) == CMD_COMMIT
    ensures OnCommit(b, r, fd, e).sink.link.connected
            <==> RoomFor(b.sink.link, SinkScript.ReportLines(b.sink.win, e.reports))
  {
    ReportsTakenIff(b.sink, e.reports);
  }

  /**
   * A record ends the connection exactly when it is malformed, a clipboard piece that fits no
   * transaction, or one whose answers the ring has no room for: no buffer, size, format or text a
   * guest offers is ever a reason.
   */
  lemma RefusedIff(cfg: SinkModel.Config, d: Display, b: Broker, r: Record, fd: Option<int>, e: Reply)
    requires b.sink.link.connected && b.inb.rxfd == None && Clipped(cfg.mode, d, b.inb, b.log)
    ensures HandleCmd(cfg, d, b, r, fd, e).sink.link.connected <==> Bearable(b.sink, b.log.pieces, r, fd, e.reports)
  {
    if !WellFormed(r, fd) {
      MalformedIsRefused(cfg, d, b, r, fd, e);
      RefusalOwned(b, fd, e);
    } else if Type(r) == CMD_CLIPBOARD {
      ClipboardRefusedIff(cfg, d, b, r, fd, e);
    } else if Type(r) == CMD_ATTACH {
      AttachOwned(d, b, r, fd, e);
    } else if Type(r) == CMD_QUERY_FORMAT {
      QueryRefusedIff(d, b, r, fd, e);
    } else if Type(r) == CMD_COMMIT {
      CommitRefusedIff(b, r, fd, e);
    } else if Type(r) == CMD_CAPS {
      CapsOwned(b, r, fd, e);
    } else {
      WindowOwned(b, r, fd, e);
    }
  }

  /** In numbers: a COMMIT never costs a client its connection while it lags by fewer than 255 packets that stay. */
  lemma CommitAffordable(cfg: SinkModel.Config, d: Display, b: Broker, r: Record, e: Reply)
    requires SinkSafety.Inv(cfg, b.sink) && b.sink.link.connected && WellFormed(r, None) && Type(r) == CMD_COMMIT
    requires SinkLoss.Backlog(b.sink) + |e.reports| < 255
    ensures HandleCmd(cfg, d, b, r, None, e).sink.link.connected
  {
    var s := SinkModel.OnReports(b.sink, e.reports);
    assert s.link.connected by {
      ReportsSpend(cfg, b.sink, e.reports);
    }
    assert HandleCmd(cfg, d, b, r, None, e) == OnCommit(b, r, None, e) == WithSink(b, s);
  }

  // ---- which reads end a connection -------------------------------------------------------------

  /** More than one fd for the command that is arriving, or ancillary data that did not fit. */
  predicate Surplus(b: Broker, rd: Read)
    requires rd.Data?
  {
    rd.trunc || |Fds(b.inb.rxfd) + rd.fds| > 1
  }

  /** One more command now is more than a second may hold. */
  predicate Floods(b: Broker, now: nat) {
    !RateLimit.Tolerated(RateLimit.RX_MAX_PER_SEC, b.log.times + [now])
  }

  /** The command is complete with these bytes, and the connection does not survive it. */
  predicate EndsWith(b: Broker, rd: Read, e: Reply)
    requires b.sink.link.connected && rd.Data?
  {
    var rx := b.inb.rx + rd.bytes;
    |rx| == CMD_SIZE
    && (Floods(b, e.now) || !Bearable(b.sink, b.log.pieces, rx, FirstOf(Fds(b.inb.rxfd) + rd.fds), e.reports))
  }

  lemma CompleteEndsIff(cfg: SinkModel.Config, d: Display, b: Broker, r: Record, e: Reply)
    requires b.sink.link.connected && Paced(b) && Clipped(cfg.mode, d, b.inb, b.log)
    ensures Complete(cfg, d, b, r, e).sink.link.connected
            <==> !Floods(b, e.now) && Bearable(b.sink, b.log.pieces, r, b.inb.rxfd, e.reports)
  {
    var w, fd := RateLimit.Hit(b.inb.rate, e.now), b.inb.rxfd;
    var b1 := b.(inb := b.inb.(rx := [], rxfd := None, rate := w),
                 log := b.log.(records := b.log.records + [r], times := b.log.times + [e.now]));
    HitsSnoc(b.log.times, e.now);
    if w.count > RateLimit.RX_MAX_PER_SEC {
      RefusalOwned(b1, fd, e);
    } else {
      RefusedIff(cfg, d, b1, r, fd, e);
    }
  }

  /** Without surplus, the fd that is banked is the one fd of the command. */
  lemma BanksOne(b: Broker, fds: seq<int>)
    requires |Fds(b.inb.rxfd) + fds| <= 1
    ensures Bank(b, fds).inb.rxfd == FirstOf(Fds(b.inb.rxfd) + fds)
  {
    if fds != [] {
      assert Fds(b.inb.rxfd) + fds == fds && fds[1..] == [];
    }
  }

  lemma FillEndsIff(cfg: SinkModel.Config, d: Display, b: Broker, rd: Read, e: Reply)
    requires rd.Data? && b.sink.link.connected && Paced(b) && Clipped(cfg.mode, d, b.inb, b.log)
    requires !Surplus(b, rd)
    ensures !Fill(cfg, d, Bank(b, rd.fds), rd.bytes, e).sink.link.connected <==> EndsWith(b, rd, e)
  {
    var rx, b1 := b.inb.rx + rd.bytes, Bank(b, rd.fds);
    BankKeeps(b, rd.fds);
    BanksOne(b, rd.fds);
    var b2 := b1.(inb := b1.inb.(rx := rx), log := b1.log.(bytes := b1.log.bytes + rd.bytes));
    if |rx| == CMD_SIZE {
      CompleteEndsIff(cfg, d, b2, rx, e);
    }
  }

  /**
   * One read ends a connection exactly when the client has hung up, sent more fds than the command
   * has use for, or completed a command too many or one the connection cannot bear.
   */
  lemma ReadEndsIff(cfg: SinkModel.Config, d: Display, b: Broker, rd: Read, e: Reply)
    requires Inv(cfg, d, b) && b.sink.link.connected
    ensures !Intake(cfg, d, b, rd, e).sink.link.connected
            <==> rd.Eof? || rd.Error? || (rd.Data? && (Surplus(b, rd) || EndsWith(b, rd, e)))
  {
    if rd.Data? {
      assert TooManyFds(b, rd.fds, rd.trunc) <==> Surplus(b, rd);
      if Surplus(b, rd) {
        BankKeeps(b, rd.fds);
        ViolationEnds(Bank(b, rd.fds), e);
      } else {
        FillEndsIff(cfg, d, b, rd, e);
      }
    }
  }
}
