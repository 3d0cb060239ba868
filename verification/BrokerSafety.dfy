// What the broker as a whole keeps, over every interleaving of local events and client reads:
// the fd ledger, the framing, the command rate, the clipboard and the buffers a backend is offered.

module BrokerSafety {
  import opened Protocol
  import opened Formats
  import opened Commands
  import opened Receive
  import ClipIn
  import Descriptor
  import RateLimit
  import SinkModel
  import SinkPaste
  import SinkSafety

  // ---- the invariant ----------------------------------------------------------------------------

  /** Every fd a client ever sent has been closed, once, but for the one that waits for its command. */
  predicate Ledger(b: Broker) {
    multiset(b.received) == multiset(b.closed) + multiset(Fds(b.inb.rxfd))
  }

  function Concat(rs: seq<Record>): seq<Byte> {
    if rs == [] then [] else Concat(rs[..|rs| - 1]) + rs[|rs| - 1]
  }

  /** The commands taken so far, and the one still arriving, are exactly the bytes received. */
  predicate Framed(b: Broker) {
    && b.log.bytes == Concat(b.log.records) + b.inb.rx
    && |b.inb.rx| < CMD_SIZE && (b.inb.rxfd.Some? ==> b.inb.rx != [])
  }

  /** Every command taken was within the rate. */
  predicate Paced(b: Broker) {
    && b.inb.rate == RateLimit.Hits(b.log.times) && RateLimit.Tolerated(RateLimit.RX_MAX_PER_SEC, b.log.times)
    && |b.log.times| == |b.log.records|
  }

  /** A piece counts as one too many exactly when its own second already held the limit. */
  predicate Limited(pieces: seq<ClipIn.Piece>, times: seq<nat>) {
    && |times| == |pieces|
    && forall i :: 0 <= i < |pieces| ==>
         (pieces[i].limited <==> RateLimit.Hits(times[..i + 1]).count > RateLimit.CLIP_MAX_PER_SEC)
  }

  /** The host has been handed the acceptable transactions' texts, and nothing else. */
  predicate Clipped(mode: ClipIn.ClipMode, d: Display, inb: Inbound, l: Log) {
    && ClipIn.Proper(l.pieces) && ClipIn.Summarises(mode, inb.clip, ClipIn.Open(l.pieces))
    && l.texts == (if d.clipboardIn then ClipIn.Texts(mode, l.pieces) else [])
    && inb.clipRate == RateLimit.Hits(l.clipTimes) && Limited(l.pieces, l.clipTimes)
  }

  /** No backend is offered a buffer that was not bounded, or of a pair its display has not advertised. */
  predicate Vouched(d: Display, l: Log) {
    forall desc <- l.buffers ::
      desc.Bounded() && (desc.shm || d.session.formatOk(Pair(desc.fourcc, desc.modifier)))
  }

  /** The sizes the WINDOW commands of a connection ask for. */
  function Windows(rs: seq<Record>): seq<(Uint32, Uint32)> {
    if rs == [] then []
    else
      var r := rs[|rs| - 1];
      Windows(rs[..|rs| - 1]) + if Type(r) == CMD_WINDOW && Sizes(r) then [(Word(r, 4), Word(r, 8))] else []
  }

  function FirstSize(ws: seq<(Uint32, Uint32)>): seq<(Uint32, Uint32)> {
    if ws == [] then [] else [ws[0]]
  }

  /** Of the commands `rs`, the first that sized the window did, and no other. */
  predicate Sized(windowSet: bool, l: Log, rs: seq<Record>) {
    l.resizes == FirstSize(Windows(rs)) && (windowSet <==> l.resizes != [])
  }

  predicate Idle(b: Broker) {
    !b.sink.link.connected ==> b.inb == NoInput && b.log == NoLog
  }

  predicate Inv(cfg: SinkModel.Config, d: Display, b: Broker) {
    && SinkSafety.Inv(cfg, b.sink) && Ledger(b) && Framed(b) && Paced(b) && Idle(b)
    && Clipped(cfg.mode, d, b.inb, b.log) && Vouched(d, b.log) && Sized(b.inb.windowSet, b.log, b.log.records)
  }

  // ---- the sink moves only by the steps of the policy core ---------------------------------------------

  /** The inbound half of the invariant. */
  predicate InboundInv(mode: ClipIn.ClipMode, d: Display, b: Broker) {
    && Ledger(b) && Framed(b) && Paced(b) && Clipped(mode, d, b.inb, b.log) && Vouched(d, b.log)
    && Sized(b.inb.windowSet, b.log, b.log.records)
  }

  lemma NothingInbound(mode: ClipIn.ClipMode, d: Display, b: Broker)
    requires b.inb == NoInput && b.log == NoLog && multiset(b.received) == multiset(b.closed)
    ensures InboundInv(mode, d, b)
  {
    var none: seq<int> := [];
    assert multiset(none) == multiset{};
  }

  /** The sink took steps of its own: what the broker keeps, it keeps. */
  lemma WithSinkInv(cfg: SinkModel.Config, d: Display, b: Broker, evs: seq<SinkModel.Event>)
    requires Inv(cfg, d, b)
    ensures Inv(cfg, d, WithSink(b, SinkModel.Run(cfg, b.sink, evs)))
  {
    var s := SinkModel.Run(cfg, b.sink, evs);
    assert SinkSafety.Inv(cfg, s) by {
      SinkSafety.RunInv(cfg, b.sink, evs);
    }
    assert s.link.generation == b.sink.link.generation ==> s.link.connected == b.sink.link.connected by {
      SinkPaste.GenerationsNeverReturn(cfg, b.sink, evs);
    }
    if s.link.generation != b.sink.link.generation {
      assert multiset(b.closed + Fds(b.inb.rxfd)) == multiset(b.closed) + multiset(Fds(b.inb.rxfd));
      NothingInbound(cfg.mode, d, WithSink(b, s));
    }
  }

  lemma RunOne(cfg: SinkModel.Config, s: SinkModel.Sink, ev: SinkModel.Event)
    ensures SinkModel.Run(cfg, s, [ev]) == SinkModel.Step(cfg, s, ev)
  {
    assert [ev][1..] == [];
    var s1 := SinkModel.Step(cfg, s, ev);
    assert SinkModel.Run(cfg, s1, []) == s1;
  }

  // ---- one command --------------------------------------------------------------------------------------

  /** The steps a client's bytes can make the policy core take. */
  predicate FromClient(evs: seq<SinkModel.Event>) {
    forall ev <- evs :: ev.EvViolation? || ev.EvHangup? || ev.EvCaps? || ev.EvFormat? || ev.EvClipOffered? || ev.EvReport?
  }

  lemma RefusalMoves(cfg: SinkModel.Config, b: Broker, fd: Option<int>, e: Reply)
    ensures Violate(CloseIfAny(b, fd), e).sink == SinkModel.Run(cfg, b.sink, [SinkModel.EvViolation(e.sends)])
  {
    RunOne(cfg, b.sink, SinkModel.EvViolation(e.sends));
  }

  lemma FormatStep(cfg: SinkModel.Config, s: SinkModel.Sink, usable: bool, fourcc: Uint32, lo: Uint32, hi: Uint32)
    ensures SinkModel.Run(cfg, s, [SinkModel.EvFormat(usable, fourcc, lo, hi)])
            == SinkModel.OnFormat(s, usable, fourcc, lo, hi)
  {
    RunOne(cfg, s, SinkModel.EvFormat(usable, fourcc, lo, hi));
  }

  lemma CapsStep(cfg: SinkModel.Config, s: SinkModel.Sink, bits: Uint32)
    requires s.link.connected
    ensures SinkModel.Run(cfg, s, [SinkModel.EvCaps(bits)]) == SinkModel.OnCaps(s, bits)
  {
    RunOne(cfg, s, SinkModel.EvCaps(bits));
  }

  lemma QueryMoves(cfg: SinkModel.Config, d: Display, b: Broker, r: Record, fd: Option<int>, e: Reply)
    returns (evs: seq<SinkModel.Event>)
    ensures OnQuery(d, b, r, fd, e).sink == SinkModel.Run(cfg, b.sink, evs) && FromClient(evs)
  {
    var usable := Resolve(d.session.formatOk, Word(r, 20), ModifierOf(r)).Some?;
    var ev := SinkModel.EvFormat(usable, Word(r, 20), Word(r, 24), Word(r, 28));
    if Reserved(r) {
      RefusalMoves(cfg, b, fd, e);
      evs := [SinkModel.EvViolation(e.sends)];
    } else {
      FormatStep(cfg, b.sink, usable, Word(r, 20), Word(r, 24), Word(r, 28));
      evs := [ev];
    }
  }

  lemma ClipStep(cfg: SinkModel.Config, s: SinkModel.Sink)
    requires s.link.connected
    ensures SinkModel.Run(cfg, s, [SinkModel.EvClipOffered]) == SinkModel.OnClipOffered(cfg, s)
  {
    RunOne(cfg, s, SinkModel.EvClipOffered);
  }

  lemma ClipboardMoves(cfg: SinkModel.Config, d: Display, b: Broker, r: Record, fd: Option<int>, e: Reply)
    returns (evs: seq<SinkModel.Event>)
    requires b.sink.link.connected
    ensures OnClipboard(cfg, d, b, r, fd, e).sink == SinkModel.Run(cfg, b.sink, evs) && FromClient(evs)
  {
    RefusalMoves(cfg, b, fd, e);
    ClipStep(cfg, b.sink);
    evs := if OnClipboard(cfg, d, b, r, fd, e) == Violate(CloseIfAny(b, fd), e)
      then [SinkModel.EvViolation(e.sends)] else [SinkModel.EvClipOffered];
  }

  lemma CapsMoves(cfg: SinkModel.Config, b: Broker, r: Record, fd: Option<int>, e: Reply)
    returns (evs: seq<SinkModel.Event>)
    requires b.sink.link.connected
    ensures OnCaps(b, r, fd, e).sink == SinkModel.Run(cfg, b.sink, evs) && FromClient(evs)
  {
    if Reserved(r) || fd.Some? || Stray(r, 8) {
      RefusalMoves(cfg, b, fd, e);
      evs := [SinkModel.EvViolation(e.sends)];
    } else {
      CapsStep(cfg, b.sink, Word(r, 4));
      evs := [SinkModel.EvCaps(Word(r, 4))];
    }
  }

  lemma AttachMoves(cfg: SinkModel.Config, d: Display, b: Broker, r: Record, fd: Option<int>, e: Reply)
    returns (evs: seq<SinkModel.Event>)
    ensures OnAttach(d, b, r, fd, e).sink == SinkModel.Run(cfg, b.sink, evs) && FromClient(evs)
  {
    RefusalMoves(cfg, b, fd, e);
    evs := if Reserved(r) || fd.None? then [SinkModel.EvViolation(e.sends)] else [];
  }

  lemma WindowMoves(cfg: SinkModel.Config, b: Broker, r: Record, fd: Option<int>, e: Reply)
    returns (evs: seq<SinkModel.Event>)
    ensures OnWindow(b, r, fd, e).sink == SinkModel.Run(cfg, b.sink, evs) && FromClient(evs)
  {
    RefusalMoves(cfg, b, fd, e);
    evs := if Reserved(r) || fd.Some? || Stray(r, 12) then [SinkModel.EvViolation(e.sends)] else [];
  }

  lemma {:induction false} ReportMoves(cfg: SinkModel.Config, s: SinkModel.Sink, rs: seq<SinkModel.Report>)
    returns (evs: seq<SinkModel.Event>)
    ensures SinkModel.OnReports(s, rs) == SinkModel.Run(cfg, s, evs) && FromClient(evs)
    decreases |rs|
  {
    if rs == [] {
      evs := [];
    } else {
      var more := ReportMoves(cfg, SinkModel.OnReport(s, rs[0]), rs[1..]);
      evs := [SinkModel.EvReport(rs[0])] + more;
      assert evs[1..] == more;
    }
  }

  lemma CommitMoves(cfg: SinkModel.Config, b: Broker, r: Record, fd: Option<int>, e: Reply)
    returns (evs: seq<SinkModel.Event>)
    ensures OnCommit(b, r, fd, e).sink == SinkModel.Run(cfg, b.sink, evs) && FromClient(evs)
  {
    var reported := ReportMoves(cfg, b.sink, e.reports);
    RefusalMoves(cfg, b, fd, e);
    evs := if Reserved(r) || fd.Some? || Stray(r, 4) then [SinkModel.EvViolation(e.sends)] else reported;
  }

  /** Whatever the command, it moves the policy core only by that core's own steps, and only by a client's. */
  lemma HandleMoves(cfg: SinkModel.Config, d: Display, b: Broker, r: Record, fd: Option<int>, e: Reply)
    returns (evs: seq<SinkModel.Event>)
    requires b.sink.link.connected
    ensures HandleCmd(cfg, d, b, r, fd, e).sink == SinkModel.Run(cfg, b.sink, evs) && FromClient(evs)
  {
    if FlagBits(r) > 1 || !(1 <= Type(r) <= 6) {
      RefusalMoves(cfg, b, fd, e);
      evs := [SinkModel.EvViolation(e.sends)];
    } else if Type(r) == CMD_ATTACH {
      evs := AttachMoves(cfg, d, b, r, fd, e);
    } else if Type(r) == CMD_QUERY_FORMAT {
      evs := QueryMoves(cfg, d, b, r, fd, e);
    } else if Type(r) == CMD_COMMIT {
      evs := CommitMoves(cfg, b, r, fd, e);
    } else if Type(r) == CMD_CLIPBOARD {
      evs := ClipboardMoves(cfg, d, b, r, fd, e);
    } else if Type(r) == CMD_CAPS {
      evs := CapsMoves(cfg, b, r, fd, e);
    } else {
      evs := WindowMoves(cfg, b, r, fd, e);
    }
  }

  /** A piece that fits extends the connection's clipboard history by its own outcome. */
  lemma PieceClipped(mode: ClipIn.ClipMode, d: Display, inb: Inbound, l: Log, c: ClipIn.Piece, now: nat)
    requires Clipped(mode, d, inb, l)
    requires ClipIn.Begin(inb.clip, c).active && c.index == ClipIn.Begin(inb.clip, c).next
    requires c.limited <==> RateLimit.Hit(inb.clipRate, now).count > RateLimit.CLIP_MAX_PER_SEC
    ensures var (clip', effect) := ClipIn.Feed(mode, inb.clip, c);
            var texts := if effect.Deliver? && d.clipboardIn then [effect.text] else [];
            Clipped(mode, d, inb.(clip := clip', clipRate := RateLimit.Hit(inb.clipRate, now)),
                    l.(pieces := l.pieces + [c], clipTimes := l.clipTimes + [now], texts := l.texts + texts))
  {
    ClipIn.FeedRefines(mode, inb.clip, l.pieces, c);
    ClipIn.FitsIffExpected(mode, inb.clip, l.pieces, c);
    ClipIn.ProperSnoc(l.pieces, c);
    ClipIn.TextsSnoc(mode, l.pieces, c);
    LimitedSnoc(l.pieces, l.clipTimes, c, now);
  }

  lemma LimitedSnoc(pieces: seq<ClipIn.Piece>, times: seq<nat>, c: ClipIn.Piece, now: nat)
    requires Limited(pieces, times)
    requires c.limited <==> RateLimit.Hit(RateLimit.Hits(times), now).count > RateLimit.CLIP_MAX_PER_SEC
    ensures RateLimit.Hits(times + [now]) == RateLimit.Hit(RateLimit.Hits(times), now)
    ensures Limited(pieces + [c], times + [now])
  {
    HitsSnoc(times, now);
    var ps, ts := pieces + [c], times + [now];
    forall i | 0 <= i < |ps|
      ensures ps[i].limited <==> RateLimit.Hits(ts[..i + 1]).count > RateLimit.CLIP_MAX_PER_SEC
    {
      assert i < |pieces| ==> ts[..i + 1] == times[..i + 1];
      assert i == |pieces| ==> ts[..i + 1] == ts;
    }
  }

  /** Nothing of the connection's history changed, or the connection is over. */
  predicate Untouched(b: Broker, b': Broker) {
    (b'.inb == b.inb && b'.log == b.log) || (b'.inb == NoInput && b'.log == NoLog)
  }

  lemma RefusalUntouched(b: Broker, fd: Option<int>, e: Reply)
    ensures Untouched(b, Violate(CloseIfAny(b, fd), e))
  {}

  lemma UntouchedInv(mode: ClipIn.ClipMode, d: Display, b: Broker, b': Broker)
    requires Untouched(b, b') && Clipped(mode, d, b.inb, b.log) && Vouched(d, b.log)
    ensures Clipped(mode, d, b'.inb, b'.log) && Vouched(d, b'.log)
  {}

  lemma ClipboardHistory(cfg: SinkModel.Config, d: Display, b: Broker, r: Record, fd: Option<int>, e: Reply)
    requires Clipped(cfg.mode, d, b.inb, b.log) && Vouched(d, b.log)
    ensures var b' := OnClipboard(cfg, d, b, r, fd, e);
            Clipped(cfg.mode, d, b'.inb, b'.log) && Vouched(d, b'.log)
  {
    var b' := OnClipboard(cfg, d, b, r, fd, e);
    if b' == Violate(CloseIfAny(b, fd), e) {
      RefusalUntouched(b, fd, e);
      UntouchedInv(cfg.mode, d, b, b');
    } else {
      var piece := PieceOf(r, RateLimit.Hit(b.inb.clipRate, e.now).count > RateLimit.CLIP_MAX_PER_SEC);
      PieceClipped(cfg.mode, d, b.inb, b.log, piece, e.now);
    }
  }

  lemma AttachHistory(mode: ClipIn.ClipMode, d: Display, b: Broker, r: Record, fd: Option<int>, e: Reply)
    requires Clipped(mode, d, b.inb, b.log) && Vouched(d, b.log)
    ensures var b' := OnAttach(d, b, r, fd, e); Clipped(mode, d, b'.inb, b'.log) && Vouched(d, b'.log)
  {
    var b' := OnAttach(d, b, r, fd, e);
    if b' == Violate(CloseIfAny(b, fd), e) {
      RefusalUntouched(b, fd, e);
      UntouchedInv(mode, d, b, b');
    }
  }

  lemma WithSinkUntouched(b: Broker, fd: Option<int>, s: SinkModel.Sink)
    ensures Untouched(b, WithSink(CloseIfAny(b, fd), s))
  {}

  lemma QueryHistory(d: Display, b: Broker, r: Record, fd: Option<int>, e: Reply)
    ensures Untouched(b, OnQuery(d, b, r, fd, e))
  {
    RefusalUntouched(b, fd, e);
    var usable := Resolve(d.session.formatOk, Word(r, 20), ModifierOf(r)).Some?;
    WithSinkUntouched(b, fd, SinkModel.OnFormat(b.sink, usable, Word(r, 20), Word(r, 24), Word(r, 28)));
  }

  lemma CommitHistory(b: Broker, r: Record, fd: Option<int>, e: Reply)
    ensures Untouched(b, OnCommit(b, r, fd, e))
  {
    RefusalUntouched(b, fd, e);
    WithSinkUntouched(b, fd, SinkModel.OnReports(b.sink, e.reports));
  }

  lemma CapsHistory(b: Broker, r: Record, fd: Option<int>, e: Reply)
    ensures Untouched(b, OnCaps(b, r, fd, e))
  {
    RefusalUntouched(b, fd, e);
  }

  lemma WindowHistory(b: Broker, r: Record, fd: Option<int>, e: Reply)
    ensures var b' := OnWindow(b, r, fd, e);
            Untouched(b, b') || (b'.log == b.log.(resizes := b'.log.resizes) && b'.inb == b.inb.(windowSet := true))
  {
    RefusalUntouched(b, fd, e);
  }

  lemma HandleHistory(cfg: SinkModel.Config, d: Display, b: Broker, r: Record, fd: Option<int>, e: Reply)
    requires Clipped(cfg.mode, d, b.inb, b.log) && Vouched(d, b.log)
    ensures var b' := HandleCmd(cfg, d, b, r, fd, e);
            Clipped(cfg.mode, d, b'.inb, b'.log) && Vouched(d, b'.log)
  {
    var b' := HandleCmd(cfg, d, b, r, fd, e);
    if FlagBits(r) > 1 || !(1 <= Type(r) <= 6) {
      RefusalUntouched(b, fd, e);
      UntouchedInv(cfg.mode, d, b, b');
    } else if Type(r) == CMD_ATTACH {
      AttachHistory(cfg.mode, d, b, r, fd, e);
    } else if Type(r) == CMD_CLIPBOARD {
      ClipboardHistory(cfg, d, b, r, fd, e);
    } else if Type(r) == CMD_WINDOW {
      WindowHistory(b, r, fd, e);
    } else {
      if Type(r) == CMD_QUERY_FORMAT {
        QueryHistory(d, b, r, fd, e);
      } else if Type(r) == CMD_COMMIT {
        CommitHistory(b, r, fd, e);
      } else {
        CapsHistory(b, r, fd, e);
      }
      UntouchedInv(cfg.mode, d, b, b');
    }
  }

  // ---- the window is sized once ------------------------------------------------------------------------------

  lemma WindowsSnoc(rs: seq<Record>, r: Record)
    ensures Windows(rs + [r]) == Windows(rs) + if Type(r) == CMD_WINDOW && Sizes(r) then [(Word(r, 4), Word(r, 8))] else []
  {
    assert (rs + [r])[..|rs|] == rs;
  }

  /** Another command leaves the window's size alone; the connection may be over. */
  predicate SizeUntouched(b: Broker, b': Broker) {
    || (b'.inb.windowSet == b.inb.windowSet && b'.log.resizes == b.log.resizes)
    || (b'.inb == NoInput && b'.log == NoLog)
  }

  lemma ClipboardSize(cfg: SinkModel.Config, d: Display, b: Broker, r: Record, fd: Option<int>, e: Reply)
    ensures SizeUntouched(b, OnClipboard(cfg, d, b, r, fd, e))
  {
    if OnClipboard(cfg, d, b, r, fd, e) == Violate(CloseIfAny(b, fd), e) {
      RefusalUntouched(b, fd, e);
    }
  }

  lemma AttachSize(d: Display, b: Broker, r: Record, fd: Option<int>, e: Reply)
    ensures SizeUntouched(b, OnAttach(d, b, r, fd, e))
  {
    RefusalUntouched(b, fd, e);
  }

  lemma OtherSize(cfg: SinkModel.Config, d: Display, b: Broker, r: Record, fd: Option<int>, e: Reply)
    requires FlagBits(r) > 1 || Type(r) != CMD_WINDOW
    ensures SizeUntouched(b, HandleCmd(cfg, d, b, r, fd, e))
  {
    if FlagBits(r) > 1 || !(1 <= Type(r) <= 6) {
      RefusalUntouched(b, fd, e);
    } else if Type(r) == CMD_ATTACH {
      AttachSize(d, b, r, fd, e);
    } else if Type(r) == CMD_CLIPBOARD {
      ClipboardSize(cfg, d, b, r, fd, e);
    } else if Type(r) == CMD_QUERY_FORMAT {
      QueryHistory(d, b, r, fd, e);
    } else if Type(r) == CMD_COMMIT {
      CommitHistory(b, r, fd, e);
    } else {
      CapsHistory(b, r, fd, e);
    }
  }

  lemma RefusalEnds(b: Broker, fd: Option<int>, e: Reply)
    requires b.sink.link.connected && b.inb.rxfd == None
    ensures var b' := Violate(CloseIfAny(b, fd), e); b'.inb == NoInput && b'.log == NoLog
  {
    RefusalOwned(b, fd, e);
  }

  /** A WINDOW command that goes through sizes the window, unless one has already. */
  predicate SizeTaken(b: Broker, r: Record, b': Broker) {
    if Sizes(r) && !b.inb.windowSet
    then b'.inb.windowSet && b'.log.resizes == b.log.resizes + [(Word(r, 4), Word(r, 8))]
    else b'.inb.windowSet == b.inb.windowSet && b'.log.resizes == b.log.resizes
  }

  lemma WindowSize(b: Broker, r: Record, fd: Option<int>, e: Reply)
    requires b.sink.link.connected && b.inb.rxfd == None
    ensures var b' := OnWindow(b, r, fd, e);
            (b'.inb == NoInput && b'.log == NoLog) || SizeTaken(b, r, b')
  {
    RefusalEnds(b, fd, e);
  }

  lemma WindowSized(b: Broker, rs: seq<Record>, r: Record, b': Broker)
    requires Sized(b.inb.windowSet, b.log, rs) && Type(r) == CMD_WINDOW && SizeTaken(b, r, b')
    ensures Sized(b'.inb.windowSet, b'.log, rs + [r])
  {
    WindowsSnoc(rs, r);
  }

  lemma OtherSized(b: Broker, rs: seq<Record>, r: Record, b': Broker)
    requires Sized(b.inb.windowSet, b.log, rs) && Type(r) != CMD_WINDOW
    requires b'.inb.windowSet == b.inb.windowSet && b'.log.resizes == b.log.resizes
    ensures Sized(b'.inb.windowSet, b'.log, rs + [r])
  {
    WindowsSnoc(rs, r);
    assert Windows(rs + [r]) == Windows(rs);
  }

  /** The connection is over, or the first sizing command among `rs` is the one that counted. */
  predicate OverOrSized(b: Broker, rs: seq<Record>) {
    (b.inb == NoInput && b.log == NoLog) || Sized(b.inb.windowSet, b.log, rs)
  }

  lemma WindowHandled(b: Broker, rs: seq<Record>, r: Record, fd: Option<int>, e: Reply)
    requires Sized(b.inb.windowSet, b.log, rs) && b.sink.link.connected && b.inb.rxfd == None && Type(r) == CMD_WINDOW
    ensures OverOrSized(OnWindow(b, r, fd, e), rs + [r])
  {
    var b' := OnWindow(b, r, fd, e);
    WindowSize(b, r, fd, e);
    if SizeTaken(b, r, b') {
      WindowSized(b, rs, r, b');
    }
  }

  lemma OtherHandled(b: Broker, rs: seq<Record>, r: Record, b': Broker)
    requires Sized(b.inb.windowSet, b.log, rs) && Type(r) != CMD_WINDOW && SizeUntouched(b, b')
    ensures OverOrSized(b', rs + [r])
  {
    if !(b'.inb == NoInput && b'.log == NoLog) {
      OtherSized(b, rs, r, b');
    }
  }

  lemma WindowDispatch(cfg: SinkModel.Config, d: Display, b: Broker, r: Record, fd: Option<int>, e: Reply)
    requires FlagBits(r) > 1 || Type(r) == CMD_WINDOW
    ensures HandleCmd(cfg, d, b, r, fd, e)
            == if FlagBits(r) > 1 then Violate(CloseIfAny(b, fd), e) else OnWindow(b, r, fd, e)
  {}

  lemma HandleSize(cfg: SinkModel.Config, d: Display, b: Broker, rs: seq<Record>, r: Record, fd: Option<int>, e: Reply)
    requires Sized(b.inb.windowSet, b.log, rs) && b.sink.link.connected && b.inb.rxfd == None
    ensures OverOrSized(HandleCmd(cfg, d, b, r, fd, e), rs + [r])
  {
    if FlagBits(r) > 1 || Type(r) == CMD_WINDOW {
      WindowDispatch(cfg, d, b, r, fd, e);
      RefusalEnds(b, fd, e);
      if FlagBits(r) <= 1 {
        WindowHandled(b, rs, r, fd, e);
      }
    } else {
      OtherSize(cfg, d, b, r, fd, e);
      OtherHandled(b, rs, r, HandleCmd(cfg, d, b, r, fd, e));
    }
  }

  /** The ledger while `fd` is in hand. */
  predicate InHand(b: Broker, fd: Option<int>) {
    b.inb.rxfd == None && multiset(b.received) == multiset(b.closed) + multiset(Fds(fd))
  }

  lemma HandleInv(cfg: SinkModel.Config, d: Display, b: Broker, rs: seq<Record>, r: Record, fd: Option<int>, e: Reply)
    requires SinkSafety.Inv(cfg, b.sink) && b.sink.link.connected && InHand(b, fd)
    requires Sized(b.inb.windowSet, b.log, rs) && b.log.records == rs + [r]
    requires Framed(b) && Paced(b) && Clipped(cfg.mode, d, b.inb, b.log) && Vouched(d, b.log)
    ensures Inv(cfg, d, HandleCmd(cfg, d, b, r, fd, e))
  {
    var b' := HandleCmd(cfg, d, b, r, fd, e);
    assert SinkSafety.Inv(cfg, b'.sink) by {
      var evs := HandleMoves(cfg, d, b, r, fd, e);
      SinkSafety.RunInv(cfg, b.sink, evs);
    }
    HandleHistory(cfg, d, b, r, fd, e);
    HandleTakesOwnership(cfg, d, b, r, fd, e);
    OwnedInv(b, fd, b');
    HandleSize(cfg, d, b, rs, r, fd, e);
  }

  lemma OwnedInv(b: Broker, fd: Option<int>, b': Broker)
    requires Owned(b, fd, b') && InHand(b, fd) && b.sink.link.connected && Framed(b) && Paced(b)
    ensures Ledger(b') && Framed(b') && Paced(b') && Idle(b')
  {
    var none: seq<int> := [];
    assert multiset(none) == multiset{};
    assert multiset(b.closed + Fds(fd)) == multiset(b.closed) + multiset(Fds(fd));
  }

  // ---- reads -----------------------------------------------------------------------------------------------

  lemma ConcatSnoc(rs: seq<Record>, r: Record)
    ensures Concat(rs + [r]) == Concat(rs) + r
  {}

  lemma HitsSnoc(ts: seq<nat>, now: nat)
    ensures RateLimit.Hits(ts + [now]) == RateLimit.Hit(RateLimit.Hits(ts), now)
    ensures RateLimit.Tolerated(RateLimit.RX_MAX_PER_SEC, ts + [now])
            <==> RateLimit.Tolerated(RateLimit.RX_MAX_PER_SEC, ts)
                 && RateLimit.Hit(RateLimit.Hits(ts), now).count <= RateLimit.RX_MAX_PER_SEC
  {}

  /** The whole record is in the buffer. */
  predicate Filled(b: Broker, r: Record) {
    b.log.bytes == Concat(b.log.records) + r
  }

  lemma CompleteInv(cfg: SinkModel.Config, d: Display, b: Broker, r: Record, e: Reply)
    requires SinkSafety.Inv(cfg, b.sink) && b.sink.link.connected && Ledger(b) && Filled(b, r) && Paced(b)
    requires Clipped(cfg.mode, d, b.inb, b.log) && Vouched(d, b.log) && Sized(b.inb.windowSet, b.log, b.log.records)
    ensures Inv(cfg, d, Complete(cfg, d, b, r, e))
  {
    var w, fd := RateLimit.Hit(b.inb.rate, e.now), b.inb.rxfd;
    var b1 := b.(inb := b.inb.(rx := [], rxfd := None, rate := w),
                 log := b.log.(records := b.log.records + [r], times := b.log.times + [e.now]));
    ConcatSnoc(b.log.records, r);
    HitsSnoc(b.log.times, e.now);
    assert Concat(b1.log.records) + [] == Concat(b1.log.records);
    if w.count > RateLimit.RX_MAX_PER_SEC {
      RefusalInv(cfg, d, b1, fd, e);
    } else {
      HandleInv(cfg, d, b1, b.log.records, r, fd, e);
    }
  }

  lemma RefusalInv(cfg: SinkModel.Config, d: Display, b: Broker, fd: Option<int>, e: Reply)
    requires SinkSafety.Inv(cfg, b.sink) && b.sink.link.connected && InHand(b, fd)
    ensures Inv(cfg, d, Violate(CloseIfAny(b, fd), e))
  {
    var b' := Violate(CloseIfAny(b, fd), e);
    assert SinkSafety.Inv(cfg, b'.sink) by {
      RefusalMoves(cfg, b, fd, e);
      SinkSafety.RunInv(cfg, b.sink, [SinkModel.EvViolation(e.sends)]);
    }
    RefusalOwned(b, fd, e);
    assert multiset(b.closed + Fds(fd)) == multiset(b.closed) + multiset(Fds(fd));
    ViolateEnds(b.sink, e.sends);
    NothingInbound(cfg.mode, d, b');
  }

  lemma FillInv(cfg: SinkModel.Config, d: Display, b: Broker, bytes: seq<Byte>, e: Reply)
    requires SinkSafety.Inv(cfg, b.sink) && b.sink.link.connected && Ledger(b) && Paced(b)
    requires Clipped(cfg.mode, d, b.inb, b.log) && Vouched(d, b.log) && Sized(b.inb.windowSet, b.log, b.log.records)
    requires b.log.bytes == Concat(b.log.records) + b.inb.rx && 0 < |bytes| <= CMD_SIZE - |b.inb.rx|
    ensures Inv(cfg, d, Fill(cfg, d, b, bytes, e))
  {
    var rx := b.inb.rx + bytes;
    var b1 := b.(inb := b.inb.(rx := rx), log := b.log.(bytes := b.log.bytes + bytes));
    Associate(Concat(b.log.records), b.inb.rx, bytes);
    if |rx| == CMD_SIZE {
      CompleteInv(cfg, d, b1, rx, e);
    }
  }

  /** Every fd of a read goes on the ledger: banked, or closed on the spot. */
  lemma {:induction false} BankLedger(b: Broker, fds: seq<int>)
    requires Ledger(b)
    ensures Ledger(Bank(b, fds))
    decreases |fds|
  {
    if fds != [] {
      var b1 := b.(received := b.received + [fds[0]]);
      var b2 := if b.inb.rxfd.None? then b1.(inb := b.inb.(rxfd := Some(fds[0]))) else CloseFd(b1, fds[0]);
      assert multiset(b.received + [fds[0]]) == multiset(b.received) + multiset{fds[0]};
      assert multiset(b.closed + [fds[0]]) == multiset(b.closed) + multiset{fds[0]};
      BankLedger(b2, fds[1..]);
    }
  }

  lemma IntakeInv(cfg: SinkModel.Config, d: Display, b: Broker, rd: Read, e: Reply)
    requires Inv(cfg, d, b) && Possible(b, rd)
    ensures Inv(cfg, d, Intake(cfg, d, b, rd, e))
  {
    if b.sink.link.connected && rd.Data? {
      var b1 := Bank(b, rd.fds);
      BankLedger(b, rd.fds);
      BankKeeps(b, rd.fds);
      if TooManyFds(b, rd.fds, rd.trunc) {
        DroppedInv(cfg, d, b1, e);
      } else {
        FillInv(cfg, d, b1, rd.bytes, e);
      }
    } else if b.sink.link.connected && !rd.Empty? {
      RunOne(cfg, b.sink, SinkModel.EvHangup);
      WithSinkInv(cfg, d, b, [SinkModel.EvHangup]);
    }
  }

  /** Hanging up over surplus fds: the reset closes the one that is still banked. */
  lemma DroppedInv(cfg: SinkModel.Config, d: Display, b: Broker, e: Reply)
    requires SinkSafety.Inv(cfg, b.sink) && b.sink.link.connected && Ledger(b)
    ensures Inv(cfg, d, Violate(b, e))
  {
    var b' := Violate(b, e);
    assert SinkSafety.Inv(cfg, b'.sink) by {
      RefusalMoves(cfg, b, None, e);
      SinkSafety.RunInv(cfg, b.sink, [SinkModel.EvViolation(e.sends)]);
    }
    assert b'.sink.link.generation != b.sink.link.generation && !b'.sink.link.connected by {
      ViolateEnds(b.sink, e.sends);
    }
    assert multiset(b.closed + Fds(b.inb.rxfd)) == multiset(b.closed) + multiset(Fds(b.inb.rxfd));
    NothingInbound(cfg.mode, d, b');
  }

  /** A wakeup keeps everything, however many commands it got through. */
  lemma {:induction false} TurnsInv(cfg: SinkModel.Config, d: Display, b: Broker, ts: seq<Turn>)
    requires Inv(cfg, d, b)
    ensures Legal(cfg, d, b, ts) ==> Inv(cfg, d, Turns(cfg, d, b, ts))
  {
    if ts != [] && Legal(cfg, d, b, ts) {
      TurnsInv(cfg, d, b, ts[..|ts| - 1]);
      IntakeInv(cfg, d, Turns(cfg, d, b, ts[..|ts| - 1]), ts[|ts| - 1].rd, ts[|ts| - 1].reply);
    }
  }

  // ---- whole runs --------------------------------------------------------------------------------------------

  /** One thing that happens to the broker: on its own side, or on the client's. */
  datatype Occasion = Local(ev: SinkModel.Event) | Received(rd: Read, reply: Reply)

  function Occur(cfg: SinkModel.Config, d: Display, b: Broker, o: Occasion): Broker {
    match o
    case Local(ev) => WithSink(b, SinkModel.Step(cfg, b.sink, ev))
    case Received(rd, reply) => if Possible(b, rd) then Intake(cfg, d, b, rd, reply) else b
  }

  function History(cfg: SinkModel.Config, d: Display, os: seq<Occasion>): Broker {
    if os == [] then Start else Occur(cfg, d, History(cfg, d, os[..|os| - 1]), os[|os| - 1])
  }

  lemma OccurInv(cfg: SinkModel.Config, d: Display, b: Broker, o: Occasion)
    requires Inv(cfg, d, b)
    ensures Inv(cfg, d, Occur(cfg, d, b, o))
  {
    match o
    case Local(ev) =>
      RunOne(cfg, b.sink, ev);
      WithSinkInv(cfg, d, b, [ev]);
    case Received(rd, reply) =>
      if Possible(b, rd) {
        IntakeInv(cfg, d, b, rd, reply);
      }
  }

  /** A broker just started keeps it all. */
  lemma StartInv(cfg: SinkModel.Config, d: Display)
    ensures Inv(cfg, d, Start)
  {
    SinkSafety.AfterInv(cfg, []);
    NothingInbound(cfg.mode, d, Start);
  }

  /** Everything above holds after every history. */
  lemma {:induction false} HistoryInv(cfg: SinkModel.Config, d: Display, os: seq<Occasion>)
    ensures Inv(cfg, d, History(cfg, d, os))
  {
    if os == [] {
      StartInv(cfg, d);
    } else {
      HistoryInv(cfg, d, os[..|os| - 1]);
      OccurInv(cfg, d, History(cfg, d, os[..|os| - 1]), os[|os| - 1]);
    }
  }

  /**
   * After any history, every fd clients sent has been closed exactly once, but for at most one: the
   * fd of a command that has begun to arrive on the connection that is still up.
   */
  lemma FdsAccountedFor(cfg: SinkModel.Config, d: Display, os: seq<Occasion>)
    ensures var b := History(cfg, d, os);
            && (b.inb.rxfd.None? ==> multiset(b.received) == multiset(b.closed))
            && (b.inb.rxfd.Some? ==> && multiset(b.received) == multiset(b.closed) + multiset{b.inb.rxfd.value}
                                     && b.sink.link.connected && 0 < |b.inb.rx| < CMD_SIZE)
  {
    HistoryInv(cfg, d, os);
    var none: seq<int> := [];
    assert multiset(none) == multiset{};
  }

  /** No second of a connection that is still up holds more than two windows' worth of commands. */
  lemma CommandRateBounded(cfg: SinkModel.Config, d: Display, os: seq<Occasion>, t: nat)
    requires RateLimit.Monotone(History(cfg, d, os).log.times)
    ensures RateLimit.Within(History(cfg, d, os).log.times, t, t + 1000) <= 40000
  {
    HistoryInv(cfg, d, os);
    RateLimit.CommandsPerSecond(History(cfg, d, os).log.times, t);
  }

  /** Whatever clients send, a text on the host's clipboard is one complete transaction of this connection. */
  lemma HostClipboardHonest(cfg: SinkModel.Config, d: Display, os: seq<Occasion>)
    ensures var l := History(cfg, d, os).log; forall text <- l.texts :: ClipIn.Honest(text, cfg.mode, l.pieces)
    ensures cfg.mode == ClipIn.Off ==> History(cfg, d, os).log.texts == []
  {
    var l := History(cfg, d, os).log;
    HistoryInv(cfg, d, os);
    ClipIn.RunRefines(cfg.mode, l.pieces);
    ClipIn.DeliveredIsHonest(cfg.mode, l.pieces);
    if cfg.mode == ClipIn.Off {
      ClipIn.OffDeliversNothing(l.pieces);
    }
  }

  /**
   * Whatever clients send, a backend is never offered a buffer with a byte outside the file behind it,
   * nor a dma-buf of a pair its display has not advertised.
   */
  lemma OfferedBuffersInside(cfg: SinkModel.Config, d: Display, os: seq<Occasion>, desc: Descriptor.Desc,
                             x: nat, y: nat, k: nat)
    requires desc in History(cfg, d, os).log.buffers && Descriptor.IsPixelByte(desc, x, y, k)
    ensures Descriptor.Address(desc, x, y, k) < desc.size && Descriptor.Address(desc, x, y, k) <= INT32_MAX
    ensures desc.shm || d.session.formatOk(Pair(desc.fourcc, desc.modifier))
  {
    HistoryInv(cfg, d, os);
    Descriptor.PixelInside(desc, x, y, k);
  }

  /** However often the guest changes its mode, it sizes the window once: with the first size it asks for. */
  lemma GuestSizesWindowOnce(cfg: SinkModel.Config, d: Display, os: seq<Occasion>)
    ensures var l := History(cfg, d, os).log;
            var ws := Windows(l.records);
            if ws == [] then l.resizes == [] else l.resizes == [ws[0]]
  {
    HistoryInv(cfg, d, os);
  }
}
