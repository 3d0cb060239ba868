// The user's consent, seen from the whole broker: no bytes a client sends hold a paste key, take a grab
// or fetch a text.

module BrokerConsent {
  import opened Protocol
  import opened Formats
  import opened Commands
  import opened Receive
  import opened BrokerSafety
  import RateLimit
  import SinkConsent
  import SinkModel
  import SinkText

  /** A read moves the policy core only by the steps of a client. */
  lemma CompleteMoves(cfg: SinkModel.Config, d: Display, b: Broker, r: Record, e: Reply)
    returns (evs: seq<SinkModel.Event>)
    requires b.sink.link.connected
    ensures Complete(cfg, d, b, r, e).sink == SinkModel.Run(cfg, b.sink, evs) && FromClient(evs)
  {
    var w := RateLimit.Hit(b.inb.rate, e.now);
    var b1 := b.(inb := b.inb.(rx := [], rxfd := None, rate := w),
                 log := b.log.(records := b.log.records + [r], times := b.log.times + [e.now]));
    if w.count > RateLimit.RX_MAX_PER_SEC {
      RefusalMoves(cfg, b1, b.inb.rxfd, e);
      evs := [SinkModel.EvViolation(e.sends)];
    } else {
      evs := HandleMoves(cfg, d, b1, r, b.inb.rxfd, e);
    }
  }

  lemma FillMoves(cfg: SinkModel.Config, d: Display, b: Broker, bytes: seq<Byte>, e: Reply)
    returns (evs: seq<SinkModel.Event>)
    requires b.sink.link.connected
    ensures Fill(cfg, d, b, bytes, e).sink == SinkModel.Run(cfg, b.sink, evs) && FromClient(evs)
  {
    var rx := b.inb.rx + bytes;
    var b1 := b.(inb := b.inb.(rx := rx), log := b.log.(bytes := b.log.bytes + bytes));
    if |rx| == CMD_SIZE {
      evs := CompleteMoves(cfg, d, b1, rx, e);
    } else {
      evs := [];
    }
  }

  lemma IntakeMoves(cfg: SinkModel.Config, d: Display, b: Broker, rd: Read, e: Reply)
    returns (evs: seq<SinkModel.Event>)
    ensures Intake(cfg, d, b, rd, e).sink == SinkModel.Run(cfg, b.sink, evs) && FromClient(evs)
  {
    evs := [];
    if b.sink.link.connected && rd.Data? {
      var b1 := Bank(b, rd.fds);
      BankKeeps(b, rd.fds);
      if TooManyFds(b, rd.fds, rd.trunc) {
        RefusalMoves(cfg, b1, None, e);
        evs := [SinkModel.EvViolation(e.sends)];
      } else {
        evs := FillMoves(cfg, d, b1, rd.bytes, e);
      }
    } else if b.sink.link.connected && !rd.Empty? {
      RunOne(cfg, b.sink, SinkModel.EvHangup);
      evs := [SinkModel.EvHangup];
    }
  }

  /** Nothing was asked for and nothing sent: no new key is held, no new grab taken, no text queued. */
  predicate NothingAsked(s: SinkModel.Sink, r: SinkModel.Sink) {
    SinkConsent.SameHeld(s, r) && (r.win.grabbed ==> s.win.grabbed) && SinkText.SameText(s, r)
  }

  lemma {:induction false} ClientAsksNothing(cfg: SinkModel.Config, s: SinkModel.Sink, evs: seq<SinkModel.Event>)
    requires FromClient(evs)
    ensures NothingAsked(s, SinkModel.Run(cfg, s, evs))
    decreases |evs|
  {
    if evs != [] {
      assert evs[0] in evs;
      SinkConsent.HeldIffAsked(cfg, s, evs[0]);
      SinkConsent.GrabOnlyAsked(cfg, s, evs[0]);
      SinkText.OtherText(cfg, s, evs[0]);
      ClientAsksNothing(cfg, SinkModel.Step(cfg, s, evs[0]), evs[1..]);
    }
  }

  /** Whatever a read brings, it holds no paste key, takes no grab and queues no text. */
  lemma ReadAsksNothing(cfg: SinkModel.Config, d: Display, b: Broker, rd: Read, e: Reply)
    ensures NothingAsked(b.sink, Intake(cfg, d, b, rd, e).sink)
  {
    var evs := IntakeMoves(cfg, d, b, rd, e);
    ClientAsksNothing(cfg, b.sink, evs);
  }

  predicate PressesPaste(cfg: SinkModel.Config, b: Broker, o: Occasion) {
    o.Local? && SinkConsent.AsksToPaste(cfg, b.sink, o.ev)
  }

  predicate PressesGrab(cfg: SinkModel.Config, b: Broker, o: Occasion) {
    o.Local? && SinkConsent.AsksToGrab(cfg, b.sink, o.ev)
  }

  /** One occasion: a key is held or a grab taken by the user's own press, or not at all. */
  lemma OccasionAsks(cfg: SinkModel.Config, d: Display, b: Broker, o: Occasion)
    ensures var s := Occur(cfg, d, b, o).sink;
            && (if PressesPaste(cfg, b, o) then s.clip.held == SinkConsent.Asked(b.sink, o.ev)
                else SinkConsent.SameHeld(b.sink, s))
            && (s.win.grabbed ==> b.sink.win.grabbed || PressesGrab(cfg, b, o))
  {
    match o
    case Local(ev) =>
      SinkConsent.HeldIffAsked(cfg, b.sink, ev);
      SinkConsent.GrabOnlyAsked(cfg, b.sink, ev);
    case Received(rd, reply) =>
      if Possible(b, rd) {
        ReadAsksNothing(cfg, d, b, rd, reply);
      }
  }

  // ---- the paste key ----------------------------------------------------------------------------

  predicate HeldAfter(cfg: SinkModel.Config, d: Display, os: seq<Occasion>, j: int, h: SinkModel.Held)
    requires 0 <= j <= |os|
  {
    var s := History(cfg, d, os[..j]).sink;
    s.clip.held == h && s.link.connected && s.link.generation == h.generation
  }

  /** Occasion `i` was the user pressing the key that is held, and it has been held for that connection ever since. */
  predicate PressedSince(cfg: SinkModel.Config, d: Display, os: seq<Occasion>, i: int) {
    && 0 <= i < |os| && PressesPaste(cfg, History(cfg, d, os[..i]), os[i])
    && var h := History(cfg, d, os).sink.clip.held;
       && h == SinkConsent.Asked(History(cfg, d, os[..i]).sink, os[i].ev)
       && HeldFrom(cfg, d, os, i + 1, h)
  }

  lemma HeldLast(cfg: SinkModel.Config, d: Display, os: seq<Occasion>)
    requires History(cfg, d, os).sink.clip.held.key != 0
    ensures HeldAfter(cfg, d, os, |os|, History(cfg, d, os).sink.clip.held)
  {
    assert os[..|os|] == os;
    HistoryInv(cfg, d, os);
  }

  predicate HeldFrom(cfg: SinkModel.Config, d: Display, os: seq<Occasion>, i: int, h: SinkModel.Held)
    requires 0 <= i
  {
    forall j :: i <= j <= |os| ==> HeldAfter(cfg, d, os, j, h)
  }

  lemma HeldEarlier(cfg: SinkModel.Config, d: Display, os: seq<Occasion>, n: nat, j: nat, h: SinkModel.Held)
    requires j <= n <= |os| && HeldAfter(cfg, d, os[..n], j, h)
    ensures HeldAfter(cfg, d, os, j, h)
  {
    assert os[..n][..j] == os[..j];
  }

  lemma HeldOn(cfg: SinkModel.Config, d: Display, os: seq<Occasion>, i: nat, h: SinkModel.Held)
    requires os != [] && HeldFrom(cfg, d, os[..|os| - 1], i, h) && HeldAfter(cfg, d, os, |os|, h)
    ensures HeldFrom(cfg, d, os, i, h)
  {
    forall j | i <= j <= |os| ensures HeldAfter(cfg, d, os, j, h) {
      if j < |os| {
        HeldEarlier(cfg, d, os, |os| - 1, j, h);
      }
    }
  }

  lemma PressedOn(cfg: SinkModel.Config, d: Display, os: seq<Occasion>, i: int)
    requires os != [] && PressedSince(cfg, d, os[..|os| - 1], i)
    requires HeldAfter(cfg, d, os, |os|, History(cfg, d, os[..|os| - 1]).sink.clip.held)
    ensures PressedSince(cfg, d, os, i)
  {
    HeldOn(cfg, d, os, i + 1, History(cfg, d, os[..|os| - 1]).sink.clip.held);
    assert os[..|os| - 1][..i] == os[..i] && os[..|os|] == os;
  }

  /** After any history of the broker, whatever clients sent: a held paste key is one the user pressed. */
  lemma {:induction false} HeldKeyIsTheUsers(cfg: SinkModel.Config, d: Display, os: seq<Occasion>)
    requires History(cfg, d, os).sink.clip.held.key != 0
    ensures exists i :: PressedSince(cfg, d, os, i)
  {
    if os != [] {
      var n := |os| - 1;
      var b := History(cfg, d, os[..n]);
      OccasionAsks(cfg, d, b, os[n]);
      HeldLast(cfg, d, os);
      if PressesPaste(cfg, b, os[n]) {
        assert PressedSince(cfg, d, os, n);
      } else {
        HeldKeyIsTheUsers(cfg, d, os[..n]);
        var i :| PressedSince(cfg, d, os[..n], i);
        PressedOn(cfg, d, os, i);
      }
    }
  }

  // ---- the grab ---------------------------------------------------------------------------------

  predicate GrabbedAfter(cfg: SinkModel.Config, d: Display, os: seq<Occasion>, j: int, generation: nat)
    requires 0 <= j <= |os|
  {
    var s := History(cfg, d, os[..j]).sink;
    s.win.grabbed && s.link.connected && s.link.generation == generation
  }

  /** Occasion `i` was the user taking the grab, and that connection has had it ever since. */
  predicate TakenSince(cfg: SinkModel.Config, d: Display, os: seq<Occasion>, i: int) {
    && 0 <= i < |os| && PressesGrab(cfg, History(cfg, d, os[..i]), os[i])
    && var g := History(cfg, d, os).sink.link.generation;
       && History(cfg, d, os[..i]).sink.link.generation == g
       && GrabbedFrom(cfg, d, os, i + 1, g)
  }

  /** An occasion that leaves the window grabbed has not changed connections. */
  lemma GrabKeepsConnection(cfg: SinkModel.Config, d: Display, b: Broker, o: Occasion)
    requires Inv(cfg, d, b) && Occur(cfg, d, b, o).sink.win.grabbed
    ensures var s := Occur(cfg, d, b, o).sink; s.link.connected && s.link.generation == b.sink.link.generation
  {
    OccurInv(cfg, d, b, o);
    match o
    case Local(ev) => SinkConsent.GrabKeepsConnection(cfg, b.sink, ev);
    case Received(rd, reply) =>
      if Possible(b, rd) {
        ReadAsksNothing(cfg, d, b, rd, reply);
      }
  }

  lemma GrabbedLast(cfg: SinkModel.Config, d: Display, os: seq<Occasion>)
    requires os != [] && History(cfg, d, os).sink.win.grabbed
    ensures GrabbedAfter(cfg, d, os, |os|, History(cfg, d, os[..|os| - 1]).sink.link.generation)
  {
    assert os[..|os|] == os;
    HistoryInv(cfg, d, os[..|os| - 1]);
    GrabKeepsConnection(cfg, d, History(cfg, d, os[..|os| - 1]), os[|os| - 1]);
  }

  lemma TakenJustNow(cfg: SinkModel.Config, d: Display, os: seq<Occasion>)
    requires os != [] && PressesGrab(cfg, History(cfg, d, os[..|os| - 1]), os[|os| - 1])
    requires GrabbedAfter(cfg, d, os, |os|, History(cfg, d, os[..|os| - 1]).sink.link.generation)
    ensures TakenSince(cfg, d, os, |os| - 1)
  {
    assert os[..|os|] == os;
  }

  predicate GrabbedFrom(cfg: SinkModel.Config, d: Display, os: seq<Occasion>, i: int, generation: nat)
    requires 0 <= i
  {
    forall j :: i <= j <= |os| ==> GrabbedAfter(cfg, d, os, j, generation)
  }

  lemma GrabbedEarlier(cfg: SinkModel.Config, d: Display, os: seq<Occasion>, n: nat, j: nat, generation: nat)
    requires j <= n <= |os| && GrabbedAfter(cfg, d, os[..n], j, generation)
    ensures GrabbedAfter(cfg, d, os, j, generation)
  {
    assert os[..n][..j] == os[..j];
  }

  lemma GrabbedOn(cfg: SinkModel.Config, d: Display, os: seq<Occasion>, i: nat, generation: nat)
    requires os != [] && GrabbedFrom(cfg, d, os[..|os| - 1], i, generation)
    requires GrabbedAfter(cfg, d, os, |os|, generation)
    ensures GrabbedFrom(cfg, d, os, i, generation)
  {
    forall j | i <= j <= |os| ensures GrabbedAfter(cfg, d, os, j, generation) {
      if j < |os| {
        GrabbedEarlier(cfg, d, os, |os| - 1, j, generation);
      }
    }
  }

  lemma TakenOn(cfg: SinkModel.Config, d: Display, os: seq<Occasion>, i: int)
    requires os != [] && TakenSince(cfg, d, os[..|os| - 1], i)
    requires GrabbedAfter(cfg, d, os, |os|, History(cfg, d, os[..|os| - 1]).sink.link.generation)
    ensures TakenSince(cfg, d, os, i)
  {
    GrabbedOn(cfg, d, os, i + 1, History(cfg, d, os[..|os| - 1]).sink.link.generation);
    assert os[..|os| - 1][..i] == os[..i] && os[..|os|] == os;
  }

  /** After any history of the broker, whatever clients sent: a grab is one the user took and has kept. */
  lemma {:induction false} GrabIsTheUsers(cfg: SinkModel.Config, d: Display, os: seq<Occasion>)
    requires History(cfg, d, os).sink.win.grabbed
    ensures exists i :: TakenSince(cfg, d, os, i)
  {
    if os != [] {
      var n := |os| - 1;
      var b := History(cfg, d, os[..n]);
      OccasionAsks(cfg, d, b, os[n]);
      GrabbedLast(cfg, d, os);
      if b.sink.win.grabbed {
        GrabIsTheUsers(cfg, d, os[..n]);
        var i :| TakenSince(cfg, d, os[..n], i);
        TakenOn(cfg, d, os, i);
      } else {
        TakenJustNow(cfg, d, os);
      }
    }
  }

  // ---- the text ---------------------------------------------------------------------------------

  /** What an occasion adds to the text of the connection it leaves. */
  function ChunksOf(b: Broker, o: Occasion): seq<Pkt> {
    if o.Local? then SinkText.Chunks(b.sink, o.ev) else []
  }

  lemma OccasionText(cfg: SinkModel.Config, d: Display, b: Broker, o: Occasion)
    ensures var l := Occur(cfg, d, b, o).sink.link;
            l.connected ==>
              if l.generation == b.sink.link.generation
              then b.sink.link.connected && SinkText.Clips(l.emitted) == SinkText.Clips(b.sink.link.emitted) + ChunksOf(b, o)
              else SinkText.Clips(l.emitted) == []
  {
    match o
    case Local(ev) => SinkText.StepText(cfg, b.sink, ev);
    case Received(rd, reply) =>
      if Possible(b, rd) {
        ReadAsksNothing(cfg, d, b, rd, reply);
      }
  }

  /**
   * Occasion `i` was the display handing over a text that `p` is a chunk of: to the connection that is
   * up now, while a key was held that its user had pressed.
   */
  ghost predicate SentAt(cfg: SinkModel.Config, d: Display, os: seq<Occasion>, i: int, p: Pkt) {
    && 0 <= i < |os| && os[i].Local? && SinkText.Sends(History(cfg, d, os[..i]).sink, os[i].ev)
    && p in ChunksOf(History(cfg, d, os[..i]), os[i])
    && History(cfg, d, os[..i]).sink.link.generation == History(cfg, d, os).sink.link.generation
    && exists j :: PressedSince(cfg, d, os[..i], j)
  }

  lemma SendsHeld(s: SinkModel.Sink, ev: SinkModel.Event)
    ensures SinkText.Chunks(s, ev) != [] ==> SinkText.Sends(s, ev) && s.clip.held.key != 0
  {}

  lemma SentJustNow(cfg: SinkModel.Config, d: Display, os: seq<Occasion>, p: Pkt)
    requires os != [] && p in ChunksOf(History(cfg, d, os[..|os| - 1]), os[|os| - 1])
    requires History(cfg, d, os[..|os| - 1]).sink.link.generation == History(cfg, d, os).sink.link.generation
    ensures SentAt(cfg, d, os, |os| - 1, p)
  {
    var n := |os| - 1;
    SendsHeld(History(cfg, d, os[..n]).sink, os[n].ev);
    HeldKeyIsTheUsers(cfg, d, os[..n]);
  }

  lemma SentBefore(cfg: SinkModel.Config, d: Display, os: seq<Occasion>, i: int, p: Pkt)
    requires os != [] && SentAt(cfg, d, os[..|os| - 1], i, p)
    requires History(cfg, d, os[..|os| - 1]).sink.link.generation == History(cfg, d, os).sink.link.generation
    ensures SentAt(cfg, d, os, i, p)
  {
    assert os[..|os| - 1][..i] == os[..i];
  }

  lemma {:induction false} ChunkIsTheUsers(cfg: SinkModel.Config, d: Display, os: seq<Occasion>, p: Pkt)
    requires var l := History(cfg, d, os).sink.link; l.connected && p in SinkText.Clips(l.emitted)
    ensures exists i :: SentAt(cfg, d, os, i, p)
  {
    if os != [] {
      var n := |os| - 1;
      var b := History(cfg, d, os[..n]);
      OccasionText(cfg, d, b, os[n]);
      if p in ChunksOf(b, os[n]) {
        SentJustNow(cfg, d, os, p);
      } else {
        ChunkIsTheUsers(cfg, d, os[..n], p);
        var i :| SentAt(cfg, d, os[..n], i, p);
        SentBefore(cfg, d, os, i, p);
      }
    }
  }

  /**
   * After any history of the broker, whatever clients sent: every clipboard packet a client has or will
   * receive belongs to a text handed over for its connection while its own user's paste key was held.
   */
  lemma TextIsTheUsers(cfg: SinkModel.Config, d: Display, os: seq<Occasion>, p: Pkt)
    requires var l := History(cfg, d, os).sink.link;
             l.connected && p.kind == Clipboard && p in l.tx.delivered + l.tx.queue
    ensures exists i :: SentAt(cfg, d, os, i, p)
  {
    var l := History(cfg, d, os).sink.link;
    HistoryInv(cfg, d, os);
    SinkText.StreamText(l);
    SinkText.ClipsIn(l.tx.delivered + l.tx.queue, p);
    ChunkIsTheUsers(cfg, d, os, p);
  }
}
