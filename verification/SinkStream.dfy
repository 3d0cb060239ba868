// What becomes of a connection with every event, and of its stream over every history: the script,
// packet for packet.

module SinkStream {
  import opened Protocol
  import opened TxRing
  import opened SinkModel
  import opened SinkSafety
  import opened SinkPaste
  import opened SinkScript

  // ---- the whole connection -----------------------------------------------------------------------

  function Flushed(l: Link, sends: seq<Send>): Link {
    if l.connected then Write(l, sends) else l
  }

  function HungUp(l: Link): Link {
    if l.connected then Ended(l) else l
  }

  /** The lines a new client is greeted with. */
  function Greeting(cfg: Config, win: Window): seq<Pkt> {
    var w := win.(grabbed := false);
    [ Line(w, Hello, 0, 0, 2, cfg.caps), Line(w, Surface, Signed(w.width), Signed(w.height), 0, 0),
      Line(w, Focus, if w.focused then 1 else 0, 0, 0, 0), Line(w, Grab, 0, 0, 0, 0), Line(w, Frame, 0, 0, 0, 0) ]
  }

  /** What becomes of the connection: who is greeted, what is said, written and accepted, and when it ends. */
  function Outcome(cfg: Config, s: Sink, ev: Event): Link {
    var l, lines := s.link, Script(cfg, s, ev);
    match ev
    case EvAttach(ok) =>
      if l.connected then l
      else if ok then
        var g := Stamp(0, Greeting(cfg, s.win));
        Link(true, l.generation + 1, 5, Tx(g, [], 0), g, Bytes(g))
      else Closed(l.generation + 2)
    case EvHangup => HungUp(l)
    case EvFlush(sends) => Flushed(l, sends)
    case EvClose(_, sends) => Flushed(Spoken(l, lines), sends)
    case EvBye(_, sends) => Flushed(Spoken(l, lines), sends)
    case EvViolation(sends) => HungUp(Flushed(Spoken(l, lines), sends))
    case EvSendClipboard(_, _) => if lines == [] then l else Queued(l, Stamp(l.seqno, lines))
    case _ => Spoken(l, lines)
  }

  /** Packets put behind the queue as they are. */
  function Queued(l: Link, qs: seq<Pkt>): Link {
    var tx := l.tx.(queue := l.tx.queue + qs);
    if l.connected && tx.Valid() then WithTx(l, tx, qs) else l
  }

  lemma SaySpeaks(s: Sink, kind: Kind, x: Int32, sends: seq<Send>)
    requires kind != Clipboard
    ensures SayAndFlush(s, kind, x, sends).link == Flushed(Spoken(s.link, [Line(s.win, kind, x, 0, 0, 0)]), sends)
  {
    EmitSpeaks(s, kind, x, 0, 0, 0);
  }

  lemma DetachHangsUp(s: Sink)
    ensures Detach(s).link == HungUp(s.link)
  {}

  lemma FarewellOutcome(cfg: Config, s: Sink, ev: Event)
    requires ev.EvHangup? || ev.EvFlush? || ev.EvClose? || ev.EvBye? || ev.EvViolation?
    ensures SinkModel.Step(cfg, s, ev).link == Outcome(cfg, s, ev)
  {
    match ev
    case EvHangup => DetachHangsUp(s);
    case EvFlush(sends) =>
    case EvClose(action, sends) =>
      SaySpeaks(s, Close, action, sends);
      if !s.link.connected {
        ClosedSilent(s.link, Script(cfg, s, ev));
      }
    case EvBye(reason, sends) => SaySpeaks(s, Bye, reason, sends);
    case EvViolation(sends) =>
      SaySpeaks(s, Bye, 2, sends);
      DetachHangsUp(SayAndFlush(s, Bye, 2, sends));
  }

  lemma {:induction false} TextStamped(flags: Uint16, n: Uint32, text: seq<Byte>)
    ensures ClipPkts(flags, n, text) == Stamp(n, ClipPkts(flags, 0, text))
    decreases |text|
  {
    var ps := ClipPkts(flags, 0, text);
    if |text| > CLIP_PKT_BYTES {
      var rest := text[CLIP_PKT_BYTES..];
      TextStamped(flags, NextSeq(n), rest);
      TextStamped(flags, NextSeq(0), rest);
      StampAgain(NextSeq(n), NextSeq(0), ClipPkts(flags, 0, rest));
      assert ps[0] == ClipPkt(flags, 0, text[..CLIP_PKT_BYTES], false) && ps[1..] == ClipPkts(flags, NextSeq(0), rest);
    } else {
      assert ps[1..] == [];
    }
  }

  lemma {:induction false} StampAgain(n: Uint32, m: Uint32, ps: seq<Pkt>)
    ensures Stamp(n, Stamp(m, ps)) == Stamp(n, ps)
    decreases |ps|
  {
    if ps != [] {
      StampAgain(NextSeq(n), NextSeq(m), ps[1..]);
      assert Stamp(m, ps)[0] == ps[0].(seqno := m) && Stamp(m, ps)[1..] == Stamp(NextSeq(m), ps[1..]);
    }
  }

  /** A text is taken exactly when it is for the held key, within the cap, and fits the ring. */
  lemma TakenIffFits(s: Sink, generation: nat, text: seq<Byte>)
    ensures SendClipboard(s, generation, text).1 <==> TextFits(s, generation, text)
  {}

  lemma SendOutcome(s: Sink, generation: nat, text: seq<Byte>)
    ensures SendClipboard(s, generation, text).0.link
            == if TextFits(s, generation, text) then Queued(s.link, Stamp(s.link.seqno, TextLines(s.win, text))) else s.link
  {
    TakenIffFits(s, generation, text);
    TextStamped(Flags(s.win), s.link.seqno, text);
  }

  lemma GreetingIsHandshake(cfg: Config, win: Window)
    ensures Handshake(cfg, Ungrabbed(win)) == Stamp(0, Greeting(cfg, win))
  {
    var g := Greeting(cfg, win);
    StampAt(0, g, 0);
    StampAt(0, g, 1);
    StampAt(0, g, 2);
    StampAt(0, g, 3);
    StampAt(0, g, 4);
  }

  /** Whatever happens, the connection becomes exactly what the script makes of it. */
  lemma StepOutcome(cfg: Config, s: Sink, ev: Event)
    ensures SinkModel.Step(cfg, s, ev).link == Outcome(cfg, s, ev)
  {
    match ev
    case EvAttach(ok) => GreetingIsHandshake(cfg, s.win);
    case EvSendClipboard(generation, text) => SendOutcome(s, generation, text);
    case EvHangup => FarewellOutcome(cfg, s, ev);
    case EvFlush(_) => FarewellOutcome(cfg, s, ev);
    case EvClose(_, _) => FarewellOutcome(cfg, s, ev);
    case EvBye(_, _) => FarewellOutcome(cfg, s, ev);
    case EvViolation(_) => FarewellOutcome(cfg, s, ev);
    case _ => StepSpeaks(cfg, s, ev);
  }

  // ---- whole histories ----------------------------------------------------------------------------

  /** `l'` is `l` with these lines said, whatever else was done with the ring. */
  predicate Says(l: Link, lines: seq<Pkt>, l': Link) {
    l'.connected ==> && l.connected && l'.generation == l.generation
                     && l'.emitted == l.emitted + Stamp(l.seqno, lines) && l'.seqno == AdvanceSeq(l.seqno, |lines|)
  }

  lemma SpokenSays(l: Link, lines: seq<Pkt>)
    ensures Says(l, lines, Spoken(l, lines))
  {}

  lemma NothingSays(l: Link)
    ensures Says(l, [], l)
  {
    assert l.emitted + [] == l.emitted;
  }

  lemma FlushedSays(l: Link, lines: seq<Pkt>, l': Link, sends: seq<Send>)
    requires Says(l, lines, l')
    ensures Says(l, lines, Flushed(l', sends))
  {}

  lemma OutcomeSays(cfg: Config, s: Sink, ev: Event)
    ensures var l := Outcome(cfg, s, ev);
            if ev.EvAttach? && !s.link.connected
            then l.connected ==> && l.generation != s.link.generation
                                 && l.emitted == Stamp(0, Greeting(cfg, s.win)) && l.seqno == 5
            else Says(s.link, Script(cfg, s, ev), l)
  {
    var l, lines := s.link, Script(cfg, s, ev);
    NothingSays(l);
    SpokenSays(l, lines);
    match ev
    case EvFlush(sends) => FlushedSays(l, [], l, sends);
    case EvClose(_, sends) => FlushedSays(l, lines, Spoken(l, lines), sends);
    case EvBye(_, sends) => FlushedSays(l, lines, Spoken(l, lines), sends);
    case _ =>
  }

  /** One step as the stream has it: the lines of the script, or a new stream with the greeting. */
  lemma StepSays(cfg: Config, s: Sink, ev: Event)
    ensures var l := SinkModel.Step(cfg, s, ev).link;
            var lines := Script(cfg, s, ev);
            l.connected ==>
              if l.generation == s.link.generation
              then && s.link.connected && l.emitted == s.link.emitted + Stamp(s.link.seqno, lines)
                   && l.seqno == AdvanceSeq(s.link.seqno, |lines|)
              else l.emitted == Stamp(0, Greeting(cfg, s.win)) && l.seqno == 5
  {
    StepOutcome(cfg, s, ev);
    OutcomeSays(cfg, s, ev);
  }

  /** Every line of the script since the client was greeted. */
  function Performed(cfg: Config, evs: seq<Event>): seq<Pkt> {
    if evs == [] then []
    else
      var n := |evs| - 1;
      var s := After(cfg, evs[..n]);
      if After(cfg, evs).link.generation != s.link.generation then Greeting(cfg, s.win)
      else Performed(cfg, evs[..n]) + Script(cfg, s, evs[n])
  }

  /**
   * After every history with a client: the packets emitted are the greeting and, event by event, the
   * lines of the script, each once and in order, numbered from zero.
   */
  lemma {:induction false} StreamIsTheScript(cfg: Config, evs: seq<Event>)
    requires After(cfg, evs).link.connected
    ensures var l, lines := After(cfg, evs).link, Performed(cfg, evs);
            && l.emitted == Stamp(0, lines) && l.seqno == AdvanceSeq(0, |lines|)
            && forall i :: 0 <= i < |lines| ==> l.emitted[i] == lines[i].(seqno := AdvanceSeq(0, i))
    decreases |evs|
  {
    if evs != [] {
      var n := |evs| - 1;
      assert evs == evs[..n] + [evs[n]];
      RunSnoc(cfg, Initial, evs[..n], evs[n]);
      StepSays(cfg, After(cfg, evs[..n]), evs[n]);
      if After(cfg, evs).link.generation == After(cfg, evs[..n]).link.generation {
        StreamIsTheScript(cfg, evs[..n]);
        StampOn(Performed(cfg, evs[..n]), Script(cfg, After(cfg, evs[..n]), evs[n]), After(cfg, evs[..n]).link, After(cfg, evs).link);
      }
    }
    StampAll(Performed(cfg, evs));
  }

  lemma StampOn(before: seq<Pkt>, lines: seq<Pkt>, l: Link, l': Link)
    requires l.emitted == Stamp(0, before) && l.seqno == AdvanceSeq(0, |before|)
    requires l'.emitted == l.emitted + Stamp(l.seqno, lines) && l'.seqno == AdvanceSeq(l.seqno, |lines|)
    ensures l'.emitted == Stamp(0, before + lines) && l'.seqno == AdvanceSeq(0, |before + lines|)
  {
    StampAppend(0, before, lines);
    AdvanceBoth(0, |before|, |lines|);
  }

  lemma StampAll(ps: seq<Pkt>)
    ensures forall i :: 0 <= i < |ps| ==> Stamp(0, ps)[i] == ps[i].(seqno := AdvanceSeq(0, i))
  {
    forall i | 0 <= i < |ps| ensures Stamp(0, ps)[i] == ps[i].(seqno := AdvanceSeq(0, i)) {
      StampAt(0, ps, i);
    }
  }
}
