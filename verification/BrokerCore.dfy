// The inbound half of struct nb_sink, updated in place: the record buffer, the banked fd and the
// drain loop with its budgets, over the X11 backend that makes some commands dear.

module BrokerCore {
  import opened Protocol
  import opened Formats
  import opened TxRing
  import opened Commands
  import opened Receive
  import BrokerSafety
  import ClipIn
  import Descriptor
  import PolicyCore
  import RateLimit
  import SinkModel
  import SinkSafety
  import X11

  const RX_BUDGET: nat := 64

  /** What the world contributes to one command. */
  datatype Env = Env(now: nat, fd: Descriptor.Fd, sends: seq<Send>, attach: X11.AttachReply,
                     contents: Descriptor.Desc -> seq<Byte>, allocOk: bool, scaled: bool, maxreq: Uint32) {
    /** A mapping is as long as what was mapped. */
    ghost predicate Sound() {
      forall desc: Descriptor.Desc :: |contents(desc)| == desc.Extent()
    }
  }

  ghost predicate AllSound(envs: nat -> Env) {
    forall i :: envs(i).Sound()
  }

  /** The world, as the specification sees it: the backend's reports are part of it. */
  function Answer(e: Env, reports: seq<SinkModel.Report>): Reply {
    Reply(e.now, e.fd, e.sends, reports)
  }

  /** How full the record buffer is, the banked fd, the two rate windows, and whether the guest has sized the window. */
  datatype Gate = Gate(rxlen: nat, rxfd: Option<int>, rate: RateLimit.Window, clipRate: RateLimit.Window, windowSet: bool)

  const Shut := Gate(0, None, RateLimit.Fresh, RateLimit.Fresh, false)

  /** History. */
  datatype Past = Past(log: Log, received: seq<int>, closed: seq<int>)

  class Host {
    const display: Display
    const core: PolicyCore.Core
    const work: X11.Work
    const rx: array<Byte>
    const inbox: ClipIn.Inbox
    var gate: Gate
    ghost var past: Past

    ghost predicate Valid()
      reads this, core, core.ring, core.ring.buf, inbox, core.backend, core.backend.bufs, work
    {
      && core.Valid() && inbox.Valid() && core.backend.Valid() && work.Valid()
      && rx.Length == CMD_SIZE && gate.rxlen <= CMD_SIZE && rx != inbox.buf
    }

    ghost function InboundView(): Inbound
      requires inbox.Valid() && rx.Length == CMD_SIZE && gate.rxlen <= CMD_SIZE
      reads this, rx, inbox, inbox.buf
    {
      Inbound(rx[..gate.rxlen], gate.rxfd, gate.rate, gate.clipRate, inbox.View(), gate.windowSet)
    }

    ghost function View(): Broker
      requires Valid()
      reads this, core, core.ring, core.ring.buf, inbox, inbox.buf, rx, core.backend, core.backend.bufs, work
    {
      Broker(core.View(), InboundView(), past.log, past.received, past.closed)
    }

    constructor (display: Display, cfg: SinkModel.Config)
      ensures Valid() && View() == Start && this.display == display && core.cfg == cfg
    {
      this.display := display;
      var backend := new X11.Backend();
      core := new PolicyCore.Core(cfg, backend);
      work := new X11.Work();
      inbox := new ClipIn.Inbox();
      rx := new Byte[CMD_SIZE](_ => 0);
      gate := Shut;
      past := Past(NoLog, [], []);
    }

    /** close(2), on a client's fd. */
    ghost method Close(fd: int)
      requires Valid()
      modifies this`past
      ensures Valid() && View() == CloseFd(old(View()), fd)
    {
      past := past.(closed := past.closed + [fd]);
    }

    /** The inbound part of nb_client_state_reset. */
    method ResetInbound()
      requires Valid()
      modifies this, inbox
      ensures Valid()
      ensures View() == Broker(old(core.View()), NoInput, NoLog, old(past).received, old(past).closed + Fds(old(gate).rxfd))
    {
      past := Past(NoLog, past.received, past.closed + Fds(gate.rxfd));
      gate := Shut;
      inbox.Reset();
    }

    /** After the core has moved: a connection that ended takes its inbound state with it. */
    method Settle(g: nat, ghost was: Broker)
      requires Valid() && g == was.sink.link.generation && View() == was.(sink := core.View())
      modifies this, inbox
      ensures Valid() && View() == WithSink(was, old(core.View()))
    {
      if core.generation != g {
        ResetInbound();
      }
    }

    /** nb_violation. */
    method Refuse(ghost reply: Reply, sends: seq<Send>)
      requires Valid() && reply.sends == sends
      modifies this, core, core.ring, core.ring.buf, core.backend`grabbed, inbox
      ensures Valid() && View() == Violate(old(View()), reply)
    {
      var g := core.generation;
      ghost var was := View();
      core.Violation(sends);
      Settle(g, was);
    }

    /** A malformed command: its fd, if any, is closed before the client is dropped. */
    method RefuseWith(fd: Option<int>, ghost reply: Reply, sends: seq<Send>)
      requires Valid() && reply.sends == sends
      modifies this, core, core.ring, core.ring.buf, core.backend`grabbed, inbox
      ensures Valid() && View() == Violate(CloseIfAny(old(View()), fd), reply)
    {
      if fd.Some? {
        Close(fd.value);
      }
      Refuse(reply, sends);
    }

    // ---- one method per command ---------------------------------------------------------------------------

    method AttachCase(r: Record, fd: Option<int>, e: Env)
      requires Valid()
      modifies this, core, core.ring, core.ring.buf, inbox, core.backend, core.backend.bufs, work
      ensures Valid() && View() == OnAttach(display, old(View()), r, fd, Answer(e, []))
      ensures work.bytes == old(work.bytes) && work.trips <= old(work.trips) + 1
      ensures var desc := Descriptor.Validate(display.session, RequestOf(r), e.fd);
              !Reserved(r) && fd.Some? && display.dmabuf && desc.Some? ==>
                (old(core.backend.Takes(desc.value, e.attach, work.trips)) ==> Staged(desc.value))
    {
      if Reserved(r) {
        RefuseWith(fd, Answer(e, []), e.sends);
        return;
      }
      if fd.None? {
        Refuse(Answer(e, []), e.sends);
        return;
      }
      if !display.dmabuf {
        Close(fd.value);
        return;
      }
      var desc := Descriptor.Validate(display.session, RequestOf(r), e.fd);
      if desc.None? {
        Close(fd.value);
        return;
      }
      Offer(desc.value, e);
      Close(fd.value);
    }

    /** The next COMMIT shows this buffer. */
    predicate Staged(desc: Descriptor.Desc)
      reads core, core.backend, core.backend.bufs
    {
      var x := core.backend;
      && 0 <= x.pending < x.bufs.Length && x.bufs[x.pending].Used?
      && X11.SameBuffer(x.bufs[x.pending].desc, X11.AsHeld(desc))
    }

    /** A validated buffer goes to the backend. */
    method Offer(desc: Descriptor.Desc, e: Env)
      requires Valid() && desc.Bounded()
      modifies this`past, core.backend, core.backend.bufs, work
      ensures Valid() && work.bytes == old(work.bytes) && work.trips <= old(work.trips) + 1
      ensures View() == var b := old(View()); b.(log := b.log.(buffers := b.log.buffers + [desc]))
      ensures if old(core.backend.Takes(desc, e.attach, work.trips)) then Staged(desc)
              else core.backend.pending == old(core.backend.pending) && core.backend.bufs[..] == old(core.backend.bufs[..])
    {
      past := past.(log := past.log.(buffers := past.log.buffers + [desc]));
      var ok, sent := core.backend.AttachBuffer(desc, e.attach, work);
    }

    method QueryCase(r: Record, fd: Option<int>, e: Env)
      requires Valid()
      modifies this, core, core.ring, core.ring.buf, core.backend`grabbed, inbox
      ensures Valid() && View() == OnQuery(display, old(View()), r, fd, Answer(e, []))
    {
      if Reserved(r) {
        RefuseWith(fd, Answer(e, []), e.sends);
        return;
      }
      if fd.Some? {
        Close(fd.value);
      }
      var use := Resolve(display.session.formatOk, Word(r, 20), ModifierOf(r));
      Verdict(use.Some?, Word(r, 20), Word(r, 24), Word(r, 28));
    }

    method Verdict(usable: bool, fourcc: Uint32, lo: Uint32, hi: Uint32)
      requires Valid()
      modifies this, core, core.ring, core.ring.buf, core.backend`grabbed, inbox
      ensures Valid()
      ensures View() == WithSink(old(View()), SinkModel.OnFormat(old(View()).sink, usable, fourcc, lo, hi))
    {
      var g := core.generation;
      ghost var was := View();
      core.Emit(Format, SinkModel.B(usable), Signed(fourcc), lo, hi);
      Settle(g, was);
    }

    method CapsCase(r: Record, fd: Option<int>, e: Env)
      requires Valid()
      modifies this, core, core.ring, core.ring.buf, core.backend`grabbed, inbox
      ensures Valid() && View() == OnCaps(old(View()), r, fd, Answer(e, []))
    {
      if Reserved(r) || fd.Some? || Stray(r, 8) {
        RefuseWith(fd, Answer(e, []), e.sends);
        return;
      }
      core.HearCaps(Word(r, 4));
    }

    method WindowCase(r: Record, fd: Option<int>, e: Env)
      requires Valid()
      modifies this, core, core.ring, core.ring.buf, core.backend`grabbed, inbox
      ensures Valid() && View() == OnWindow(old(View()), r, fd, Answer(e, []))
    {
      if Reserved(r) || fd.Some? || Stray(r, 12) {
        RefuseWith(fd, Answer(e, []), e.sends);
        return;
      }
      var w, h := Word(r, 4), Word(r, 8);
      if w == 0 || h == 0 || w > Descriptor.MAX_DIM || h > Descriptor.MAX_DIM {
        return;
      }
      if !gate.windowSet {
        gate := gate.(windowSet := true);
        past := past.(log := past.log.(resizes := past.log.resizes + [(w, h)]));
      }
    }

    method ClipboardCase(r: Record, fd: Option<int>, e: Env)
      requires Valid()
      modifies this, core, core.ring, core.ring.buf, core.backend`grabbed, inbox, inbox.buf
      ensures Valid() && View() == OnClipboard(core.cfg, display, old(View()), r, fd, Answer(e, []))
    {
      if fd.Some? || Word(r, 8) != 0 || ClipNBytes(ClipInfoOf(r)) > CLIP_CMD_BYTES {
        RefuseWith(fd, Answer(e, []), e.sends);
        return;
      }
      var begun := Word(r, 4) == 0;
      if !(begun || inbox.active) || Word(r, 4) != (if begun then 0 else inbox.next) {
        Refuse(Answer(e, []), e.sends);
        return;
      }
      var w := RateLimit.Hit(gate.clipRate, e.now);
      TakeIn(PieceOf(r, w.count > RateLimit.CLIP_MAX_PER_SEC), e.now);
    }

    /** The rate it came at, and the history of it. */
    method Note(piece: ClipIn.Piece, now: nat, effect: ClipIn.Effect)
      requires Valid()
      modifies this
      ensures Valid()
      ensures View() == var b := old(View());
                        b.(inb := b.inb.(clipRate := RateLimit.Hit(b.inb.clipRate, now)),
                           log := b.log.(pieces := b.log.pieces + [piece], clipTimes := b.log.clipTimes + [now],
                                         texts := b.log.texts + Handed(display, effect)))
    {
      gate := gate.(clipRate := RateLimit.Hit(gate.clipRate, now));
      past := past.(log := past.log.(pieces := past.log.pieces + [piece], clipTimes := past.log.clipTimes + [now],
                                     texts := past.log.texts + Handed(display, effect)));
    }

    /** A piece of the open transaction. */
    method TakeIn(piece: ClipIn.Piece, now: nat)
      requires Valid()
      modifies this, core, inbox, inbox.buf
      ensures Valid()
      ensures View() == var b := old(View());
                        Reassembled(core.cfg, display, b, piece, now, ClipIn.Feed(core.cfg.mode, b.inb.clip, piece))
    {
      core.HearClipboard();
      var effect := inbox.Receive(core.cfg.mode, piece);
      Note(piece, now, effect);
    }

    method CommitCase(r: Record, fd: Option<int>, e: Env) returns (ghost reply: Reply)
      requires Valid() && e.Sound()
      modifies this, core, core.ring, core.ring.buf, inbox, core.backend, work
      ensures Valid() && reply == Answer(e, reply.reports)
      ensures View() == OnCommit(old(View()), r, fd, reply)
      ensures !Reserved(r) && fd.None? && !Stray(r, 4) ==> reply.reports == old(FrameReports(e))
      ensures work.bytes <= old(work.bytes) + X11.MAX_FRAME_WORK
    {
      if Reserved(r) || fd.Some? || Stray(r, 4) {
        reply := Answer(e, []);
        RefuseWith(fd, reply, e.sends);
        return;
      }
      reply := ShowAndTell(e);
    }

    /** The frame is shown, and the client hears what came of it. */
    method ShowAndTell(e: Env) returns (ghost reply: Reply)
      requires Valid() && e.Sound()
      modifies this, core, core.ring, core.ring.buf, inbox, core.backend, work
      ensures Valid() && reply == Answer(e, old(FrameReports(e)))
      ensures View() == WithSink(old(View()), SinkModel.OnReports(old(View()).sink, reply.reports))
      ensures work.bytes <= old(work.bytes) + X11.MAX_FRAME_WORK
    {
      var reports := Show(e);
      reply := Answer(e, reports);
      var g := core.generation;
      ghost var was := View();
      core.TellAll(reports);
      Settle(g, was);
    }

    /** What a frame shown now would make the backend report. */
    ghost function FrameReports(e: Env): seq<SinkModel.Report>
      requires Valid()
      reads this, core, core.ring, core.ring.buf, inbox, core.backend, core.backend.bufs, work
    {
      core.backend.FrameReports(core.backend.pending, e.allocOk, e.scaled)
    }

    /** The backend puts the pending buffer on screen, with what its mapping holds just now. */
    method Show(e: Env) returns (reports: seq<SinkModel.Report>)
      requires Valid() && e.Sound()
      modifies core.backend, work
      ensures Valid() && View() == old(View()) && work.bytes <= old(work.bytes) + X11.MAX_FRAME_WORK
      ensures reports == old(FrameReports(e))
    {
      var at := core.backend.pending;
      var contents := if at >= 0 && core.backend.bufs[at].Used? then e.contents(core.backend.bufs[at].desc) else [];
      var shown;
      shown, reports := core.backend.Commit(contents, e.allocOk, e.scaled, e.maxreq, work);
    }

    /** nb_handle_cmd. */
    method Handle(r: Record, fd: Option<int>, e: Env) returns (ghost reply: Reply)
      requires Valid() && e.Sound()
      modifies this, core, core.ring, core.ring.buf, inbox, inbox.buf, core.backend, core.backend.bufs, work
      ensures Valid() && reply == Answer(e, reply.reports)
      ensures View() == HandleCmd(core.cfg, display, old(View()), r, fd, reply)
      ensures work.bytes <= old(work.bytes) + X11.MAX_FRAME_WORK
    {
      reply := Answer(e, []);
      if FlagBits(r) > 1 {
        RefuseWith(fd, reply, e.sends);
      } else if Type(r) == CMD_ATTACH {
        AttachCase(r, fd, e);
      } else if Type(r) == CMD_QUERY_FORMAT {
        QueryCase(r, fd, e);
      } else if Type(r) == CMD_COMMIT {
        reply := CommitCase(r, fd, e);
      } else if Type(r) == CMD_CLIPBOARD {
        ClipboardCase(r, fd, e);
      } else if Type(r) == CMD_CAPS {
        CapsCase(r, fd, e);
      } else if Type(r) == CMD_WINDOW {
        WindowCase(r, fd, e);
      } else {
        RefuseWith(fd, reply, e.sends);
      }
    }

    // ---- the drain loop --------------------------------------------------------------------------------------

    /** The fds of one message: the first is banked, the others are closed. */
    method BankAll(fds: seq<int>)
      requires Valid()
      modifies this
      ensures Valid() && View() == Bank(old(View()), fds)
    {
      var i := 0;
      assert fds[0..] == fds;
      while i < |fds|
        invariant 0 <= i <= |fds| && Valid()
        invariant Bank(View(), fds[i..]) == Bank(old(View()), fds)
      {
        assert fds[i..][1..] == fds[i + 1..];
        past := past.(received := past.received + [fds[i]]);
        if gate.rxfd.None? {
          gate := gate.(rxfd := Some(fds[i]));
        } else {
          Close(fds[i]);
        }
        i := i + 1;
      }
    }

    /** The received bytes, behind those already buffered. */
    method Store(bytes: seq<Byte>)
      requires Valid() && |bytes| <= CMD_SIZE - gate.rxlen
      modifies this, rx
      ensures Valid()
      ensures View() == var b := old(View());
                        b.(inb := b.inb.(rx := b.inb.rx + bytes), log := b.log.(bytes := b.log.bytes + bytes))
    {
      CopyIn(bytes);
      gate := gate.(rxlen := gate.rxlen + |bytes|);
      past := past.(log := past.log.(bytes := past.log.bytes + bytes));
    }

    method CopyIn(bytes: seq<Byte>)
      requires rx.Length == CMD_SIZE && gate.rxlen + |bytes| <= CMD_SIZE
      modifies rx
      ensures rx[..gate.rxlen + |bytes|] == old(rx[..gate.rxlen]) + bytes
    {
      var n := gate.rxlen;
      forall k | 0 <= k < |bytes| {
        rx[n + k] := bytes[k];
      }
      assert rx[..n] == old(rx[..n]);
      assert rx[n..n + |bytes|] == bytes;
      assert rx[..n + |bytes|] == rx[..n] + rx[n..n + |bytes|];
    }

    /** A full record leaves the buffer. */
    method TakeRecord(e: Env) returns (ghost reply: Reply)
      requires Valid() && e.Sound() && core.connected && gate.rxlen == CMD_SIZE
      modifies this, core, core.ring, core.ring.buf, inbox, inbox.buf, core.backend, core.backend.bufs, work
      ensures Valid()
      ensures View() == Complete(core.cfg, display, old(View()), old(rx[..]), reply)
      ensures work.bytes <= old(work.bytes) + X11.MAX_FRAME_WORK
    {
      var r, fd := rx[..], gate.rxfd;
      assert rx[..gate.rxlen] == r && rx[..0] == [];
      var w := RateLimit.Hit(gate.rate, e.now);
      gate := gate.(rxlen := 0, rxfd := None, rate := w);
      past := past.(log := past.log.(records := past.log.records + [r], times := past.log.times + [e.now]));
      if w.count > RateLimit.RX_MAX_PER_SEC {
        reply := Answer(e, []);
        RefuseWith(fd, reply, e.sends);
      } else {
        reply := Handle(r, fd, e);
      }
    }

    /** One recvmsg and what follows from it; `done` says a command was completed. */
    method TakeTurn(rd: Read, e: Env) returns (done: bool, ghost reply: Reply)
      requires Valid() && e.Sound() && core.connected && Possible(View(), rd)
      modifies this, core, core.ring, core.ring.buf, inbox, inbox.buf, core.backend, core.backend.bufs, work, rx
      ensures Valid() && View() == Intake(core.cfg, display, old(View()), rd, reply)
      ensures done == Completes(old(View()), rd)
      ensures work.bytes <= old(work.bytes) + if done then X11.MAX_FRAME_WORK else 0
    {
      done, reply := false, Answer(e, []);
      match rd {
        case Eof =>
          HangUp();
        case Error =>
          HangUp();
        case Empty =>
        case Data(bytes, fds, trunc) =>
          var had := gate.rxfd.Some?;
          BankAll(fds);
          BankKeeps(old(View()), fds);
          if |fds| > 1 || (|fds| == 1 && had) || trunc {
            Refuse(reply, e.sends);
            return;
          }
          Store(bytes);
          if gate.rxlen == CMD_SIZE {
            done := true;
            assert rx[..gate.rxlen] == rx[..];
            reply := TakeRecord(e);
          }
      }
    }

    /** The client is gone. */
    method HangUp()
      requires Valid()
      modifies this, core, core.ring, core.backend`grabbed, inbox
      ensures Valid() && View() == WithSink(old(View()), SinkModel.Detach(old(View()).sink))
    {
      var g := core.generation;
      ghost var was := View();
      core.Detach();
      Settle(g, was);
    }

    /** One turn of the loop, as part of a wakeup. */
    method Drain(rd: Read, left: seq<Read>, e: Env, ghost w: Wakeup) returns (done: bool, ghost w': Wakeup)
      requires Valid() && e.Sound() && core.connected && !rd.Empty?
      requires Draining(core.cfg, display, w, View())
      requires (rd, left) == Receive.Next(w.rest, CMD_SIZE - gate.rxlen) && Possible(View(), rd)
      modifies this, core, core.ring, core.ring.buf, inbox, inbox.buf, core.backend, core.backend.bufs, work, rx
      ensures Valid() && Draining(core.cfg, display, w', View())
      ensures w'.states[0] == w.states[0] && w'.q == w.q && w'.rest == left
      ensures w'.commands == w.commands + if done then 1 else 0
      ensures work.bytes <= old(work.bytes) + if done then X11.MAX_FRAME_WORK else 0
    {
      ghost var b := View();
      ghost var reply;
      ghost var cfg, d := core.cfg, display;
      assert Draining(cfg, d, w, b) && (rd, left) == Receive.Next(w.rest, CMD_SIZE - |b.inb.rx|);
      done, reply := TakeTurn(rd, e);
      ghost var b' := View();
      assert b' == Intake(cfg, d, b, rd, reply);
      w' := KeepDraining(cfg, d, w, b, rd, left, reply, b');
    }

    /** The loop of nb_sink_readable. */
    method DrainAll(q: seq<Read>, envs: nat -> Env) returns (rest: seq<Read>, commands: nat, ghost w: Wakeup)
      requires Valid() && gate.rxlen < CMD_SIZE && Nonempty(q) && AllSound(envs) && work.bytes == 0
      modifies this, core, core.ring, core.ring.buf, inbox, inbox.buf, core.backend, core.backend.bufs, work, rx
      ensures Valid() && Draining(core.cfg, display, w, View())
      ensures w.states[0] == old(View()) && w.q == q && w.rest == rest && w.commands == commands <= RX_BUDGET
      ensures work.bytes < X11.WORK_BUDGET_BYTES + X11.MAX_FRAME_WORK
    {
      rest, commands, w := q, 0, Wakeup(q, q, [View()], [], 0);
      var k := 0;
      StartDraining(core.cfg, display, View(), q);
      while core.connected
        invariant Valid() && work.bytes < X11.WORK_BUDGET_BYTES
        invariant Draining(core.cfg, display, w, View())
        invariant w.states[0] == old(View()) && w.q == q && w.rest == rest && w.commands == commands < RX_BUDGET
        decreases Weight(rest)
      {
        var (rd, left) := Receive.Next(rest, CMD_SIZE - gate.rxlen);
        if rd.Empty? {
          return;
        }
        assert Possible(View(), rd) && Weight(left) < Weight(rest) by {
          assert |View().inb.rx| == gate.rxlen;
          NextFits(rest, CMD_SIZE - gate.rxlen);
        }
        var done;
        done, w := Drain(rd, left, envs(k), w);
        rest, k := left, k + 1;
        if done {
          commands := commands + 1;
          if commands == RX_BUDGET || work.Spent() {
            return;
          }
        }
      }
    }

    /**
     * nb_sink_readable: whatever the client has queued, one wakeup completes at most 64 commands, does
     * less than the byte budget plus one largest frame, and waits for the display at most four times;
     * what it did not get to is still in the socket, in order.
     */
    method Readable(q: seq<Read>, envs: nat -> Env)
      returns (rest: seq<Read>, commands: nat, ghost turns: seq<Turn>)
      requires Valid() && BrokerSafety.Inv(core.cfg, display, View()) && Nonempty(q) && AllSound(envs)
      modifies this, core, core.ring, core.ring.buf, inbox, inbox.buf, core.backend, core.backend.bufs, work, rx
      ensures Valid() && BrokerSafety.Inv(core.cfg, display, View()) && Nonempty(rest)
      ensures View() == Turns(core.cfg, display, old(View()), turns) && Legal(core.cfg, display, old(View()), turns)
      ensures commands == Completed(core.cfg, display, old(View()), turns) <= RX_BUDGET
      ensures |turns| <= (RX_BUDGET + 1) * CMD_SIZE
      ensures Stream(ReadsOf(turns)) + Stream(rest) == Stream(q)
      ensures work.bytes < X11.WORK_BUDGET_BYTES + X11.MAX_FRAME_WORK && work.waits <= X11.WORK_ROUNDTRIPS
    {
      ghost var b := View();
      rest, commands, turns := DrainAfresh(q, envs);
      BrokerSafety.TurnsInv(core.cfg, display, b, turns);
    }

    /** The drain with fresh allowances. */
    method DrainAfresh(q: seq<Read>, envs: nat -> Env)
      returns (rest: seq<Read>, commands: nat, ghost turns: seq<Turn>)
      requires Valid() && |View().inb.rx| < CMD_SIZE && Nonempty(q) && AllSound(envs)
      modifies this, core, core.ring, core.ring.buf, inbox, inbox.buf, core.backend, core.backend.bufs, work, rx
      ensures Valid() && Nonempty(rest)
      ensures View() == Turns(core.cfg, display, old(View()), turns) && Legal(core.cfg, display, old(View()), turns)
      ensures commands == Completed(core.cfg, display, old(View()), turns) <= RX_BUDGET
      ensures |turns| <= (RX_BUDGET + 1) * CMD_SIZE
      ensures Stream(ReadsOf(turns)) + Stream(rest) == Stream(q)
      ensures work.bytes < X11.WORK_BUDGET_BYTES + X11.MAX_FRAME_WORK && work.waits <= X11.WORK_ROUNDTRIPS
    {
      ghost var w;
      assert |View().inb.rx| == gate.rxlen;
      work.Renew();
      rest, commands, w := DrainAll(q, envs);
      Drained(core.cfg, display, w, View());
      turns := w.turns;
    }

    /** One step of the core, and what follows for the client's half. */
    method Advance(ev: SinkModel.Event) returns (ghost s: SinkModel.Sink)
      requires Valid() && core.win.backendGrab == core.win.grabbed
      modifies this, core, core.ring, core.ring.buf, core.backend`grabbed, inbox
      ensures s == SinkModel.Step(core.cfg, old(core.View()), ev)
      ensures Valid() && View() == WithSink(old(View()), s)
    {
      var g := core.generation;
      ghost var b := View();
      core.Take(ev);
      s := core.View();
      Settle(g, b);
    }

    /** Something happens on the broker's own side. */
    method Serve(ev: SinkModel.Event)
      requires Valid() && BrokerSafety.Inv(core.cfg, display, View())
      modifies this, core, core.ring, core.ring.buf, core.backend`grabbed, inbox
      ensures Valid() && BrokerSafety.Inv(core.cfg, display, View())
      ensures View() == BrokerSafety.Occur(core.cfg, display, old(View()), BrokerSafety.Local(ev))
    {
      ghost var cfg, d, b := core.cfg, display, View();
      assert SinkSafety.GrabSafe(cfg, b.sink);
      ghost var s := Advance(ev);
      assert View() == BrokerSafety.Occur(cfg, d, b, BrokerSafety.Local(ev));
      BrokerSafety.OccurInv(cfg, d, b, BrokerSafety.Local(ev));
    }
  }
}
