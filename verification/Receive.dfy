// Reading the client's socket: how bytes and file descriptors become commands (nb_sink_readable),
// however they are cut into reads, and how a wakeup takes several of them.

module Receive {
  import opened Protocol
  import opened Formats
  import opened Commands
  import RateLimit
  import SinkModel

  /** What one recvmsg came to; `trunc` says ancillary data did not fit the control buffer. */
  datatype Read = Data(bytes: seq<Byte>, fds: seq<int>, trunc: bool) | Eof | Empty | Error

  /** The first fd is banked for the command it belongs to; any other is closed at once. */
  function Bank(b: Broker, fds: seq<int>): Broker
    decreases |fds|
  {
    if fds == [] then b
    else
      var b1 := b.(received := b.received + [fds[0]]);
      Bank(if b.inb.rxfd.None? then b1.(inb := b.inb.(rxfd := Some(fds[0]))) else CloseFd(b1, fds[0]), fds[1..])
  }

  /** A complete record and its fd leave the buffer, and are acted on unless the client is flooding. */
  function Complete(cfg: SinkModel.Config, d: Display, b: Broker, r: Record, e: Reply): Broker {
    var w := RateLimit.Hit(b.inb.rate, e.now);
    var b1 := b.(inb := b.inb.(rx := [], rxfd := None, rate := w),
                 log := b.log.(records := b.log.records + [r], times := b.log.times + [e.now]));
    if w.count > RateLimit.RX_MAX_PER_SEC then Violate(CloseIfAny(b1, b.inb.rxfd), e)
    else HandleCmd(cfg, d, b1, r, b.inb.rxfd, e)
  }

  /** Bytes into the one-record buffer. */
  function Fill(cfg: SinkModel.Config, d: Display, b: Broker, bytes: seq<Byte>, e: Reply): Broker {
    var rx := b.inb.rx + bytes;
    var b1 := b.(inb := b.inb.(rx := rx), log := b.log.(bytes := b.log.bytes + bytes));
    if |rx| == CMD_SIZE then Complete(cfg, d, b1, rx, e) else b1
  }

  /** More than one fd for one command, in this read or counting the one already banked. */
  predicate TooManyFds(b: Broker, fds: seq<int>, trunc: bool) {
    |fds| > 1 || (|fds| == 1 && b.inb.rxfd.Some?) || trunc
  }

  /** One turn of the loop in nb_sink_readable. */
  function Intake(cfg: SinkModel.Config, d: Display, b: Broker, rd: Read, e: Reply): Broker {
    if !b.sink.link.connected then b
    else match rd
      case Eof => WithSink(b, SinkModel.Detach(b.sink))
      case Error => WithSink(b, SinkModel.Detach(b.sink))
      case Empty => b
      case Data(bytes, fds, trunc) =>
        var b1 := Bank(b, fds);
        if TooManyFds(b, fds, trunc) then Violate(b1, e) else Fill(cfg, d, b1, bytes, e)
  }

  /** A read never returns more than the room left in the record buffer, and never nothing. */
  predicate Possible(b: Broker, rd: Read) {
    b.sink.link.connected && rd.Data? ==> 0 < |rd.bytes| <= CMD_SIZE - |b.inb.rx|
  }

  // ---- how the stream is cut into reads does not matter -----------------------------------------------

  /** One byte of the stream, with the ancillary data that arrived in front of it. */
  datatype Cell = Cell(byte: Byte, fds: seq<int>, trunc: bool)

  function CellsOf(bytes: seq<Byte>, fds: seq<int>, trunc: bool): seq<Cell>
    decreases |bytes|
  {
    if bytes == [] then [] else [Cell(bytes[0], fds, trunc)] + CellsOf(bytes[1..], [], false)
  }

  function Single(c: Cell): Read {
    Data([c.byte], c.fds, c.trunc)
  }

  /** The world, as it answers the n-th command of a connection. */
  type World = nat -> Reply

  function At(world: World, b: Broker): Reply {
    world(|b.log.records|)
  }

  /** The reference machine: one byte at a time. */
  function Bytewise(cfg: SinkModel.Config, d: Display, b: Broker, cells: seq<Cell>, world: World): Broker
    decreases |cells|
  {
    if cells == [] then b
    else Bytewise(cfg, d, Intake(cfg, d, b, Single(cells[0]), At(world, b)), cells[1..], world)
  }

  function Reads(cfg: SinkModel.Config, d: Display, b: Broker, rds: seq<Read>, world: World): Broker
    decreases |rds|
  {
    if rds == [] then b else Reads(cfg, d, Intake(cfg, d, b, rds[0], At(world, b)), rds[1..], world)
  }

  predicate AllPossible(cfg: SinkModel.Config, d: Display, b: Broker, rds: seq<Read>, world: World)
    decreases |rds|
  {
    rds == [] || (&& (rds[0].Data? || rds[0].Empty?) && Possible(b, rds[0])
                  && AllPossible(cfg, d, Intake(cfg, d, b, rds[0], At(world, b)), rds[1..], world))
  }

  function CellsIn(rd: Read): seq<Cell> {
    if rd.Data? then CellsOf(rd.bytes, rd.fds, rd.trunc) else []
  }

  function Stream(rds: seq<Read>): seq<Cell> {
    if rds == [] then [] else CellsIn(rds[0]) + Stream(rds[1..])
  }

  lemma {:induction false} BankKeeps(b: Broker, fds: seq<int>)
    ensures var b' := Bank(b, fds);
            && b'.sink == b.sink && b'.log == b.log && b'.inb == b.inb.(rxfd := b'.inb.rxfd)
            && (b.inb.rxfd.Some? || fds == [] ==> b'.inb.rxfd == b.inb.rxfd)
    decreases |fds|
  {
    if fds != [] {
      var b1 := b.(received := b.received + [fds[0]]);
      BankKeeps(if b.inb.rxfd.None? then b1.(inb := b.inb.(rxfd := Some(fds[0]))) else CloseFd(b1, fds[0]), fds[1..]);
    }
  }

  lemma FillTwice(cfg: SinkModel.Config, d: Display, b: Broker, u: seq<Byte>, v: seq<Byte>, e: Reply)
    requires v != [] && |b.inb.rx| + |u| + |v| <= CMD_SIZE
    ensures Fill(cfg, d, b, u + v, e) == Fill(cfg, d, Fill(cfg, d, b, u, e), v, e)
  {
    Associate(b.inb.rx, u, v);
    Associate(b.log.bytes, u, v);
  }

  lemma ViolationEnds(b: Broker, e: Reply)
    requires b.sink.link.connected
    ensures !Violate(b, e).sink.link.connected
  {
    ViolateEnds(b.sink, e.sends);
  }

  /** One read, or two: it comes to the same. */
  lemma SplitRead(cfg: SinkModel.Config, d: Display, b: Broker, u: seq<Byte>, v: seq<Byte>, fds: seq<int>, trunc: bool,
                  e: Reply)
    requires u != [] && v != [] && |b.inb.rx| + |u| + |v| <= CMD_SIZE
    ensures Intake(cfg, d, b, Data(u + v, fds, trunc), e)
            == Intake(cfg, d, Intake(cfg, d, b, Data(u, fds, trunc), e), Data(v, [], false), e)
  {
    if b.sink.link.connected {
      var b1 := Bank(b, fds);
      BankKeeps(b, fds);
      if TooManyFds(b, fds, trunc) {
        ViolationEnds(b1, e);
      } else {
        FillTwice(cfg, d, b1, u, v, e);
      }
    }
  }

  /** The command count does not move while a record is incomplete. */
  lemma PartialRead(cfg: SinkModel.Config, d: Display, b: Broker, c: Cell, e: Reply)
    requires b.sink.link.connected && |b.inb.rx| + 1 < CMD_SIZE
    ensures var b' := Intake(cfg, d, b, Single(c), e);
            if TooManyFds(b, c.fds, c.trunc) then !b'.sink.link.connected
            else b'.sink == b.sink && b'.log.records == b.log.records && b'.inb.rx == b.inb.rx + [c.byte]
  {
    BankKeeps(b, c.fds);
    ViolationEnds(Bank(b, c.fds), e);
  }

  lemma {:induction false} ClosedStays(cfg: SinkModel.Config, d: Display, b: Broker, cells: seq<Cell>, world: World)
    requires !b.sink.link.connected
    ensures Bytewise(cfg, d, b, cells, world) == b
    decreases |cells|
  {
    if cells != [] {
      ClosedStays(cfg, d, b, cells[1..], world);
    }
  }

  lemma {:induction false} ReadIsBytewise(cfg: SinkModel.Config, d: Display, b: Broker, bytes: seq<Byte>,
                                          fds: seq<int>, trunc: bool, world: World)
    requires b.sink.link.connected && 0 < |bytes| <= CMD_SIZE - |b.inb.rx|
    ensures Intake(cfg, d, b, Data(bytes, fds, trunc), At(world, b))
            == Bytewise(cfg, d, b, CellsOf(bytes, fds, trunc), world)
    decreases |bytes|
  {
    var c := Cell(bytes[0], fds, trunc);
    var cells, v := CellsOf(bytes, fds, trunc), bytes[1..];
    var b1 := Intake(cfg, d, b, Single(c), At(world, b));
    assert cells[0] == c && cells[1..] == CellsOf(v, [], false);
    assert Bytewise(cfg, d, b, cells, world) == Bytewise(cfg, d, b1, cells[1..], world);
    if v == [] {
      assert bytes == [bytes[0]];
      assert cells[1..] == [];
    } else {
      assert bytes == [bytes[0]] + v;
      SplitRead(cfg, d, b, [bytes[0]], v, fds, trunc, At(world, b));
      PartialRead(cfg, d, b, c, At(world, b));
      if b1.sink.link.connected {
        ReadIsBytewise(cfg, d, b1, v, [], false, world);
      } else {
        ClosedStays(cfg, d, b1, cells[1..], world);
      }
    }
  }

  lemma {:induction false} BytewiseAppend(cfg: SinkModel.Config, d: Display, b: Broker, s: seq<Cell>, t: seq<Cell>, world: World)
    ensures Bytewise(cfg, d, b, s + t, world) == Bytewise(cfg, d, Bytewise(cfg, d, b, s, world), t, world)
    decreases |s|
  {
    if s == [] {
      assert s + t == t;
    } else {
      assert (s + t)[1..] == s[1..] + t;
      BytewiseAppend(cfg, d, Intake(cfg, d, b, Single(s[0]), At(world, b)), s[1..], t, world);
    }
  }

  /** However the kernel cuts the stream into reads, the broker ends where the byte machine does. */
  lemma {:induction false} SplittingIsInvisible(cfg: SinkModel.Config, d: Display, b: Broker, rds: seq<Read>, world: World)
    requires AllPossible(cfg, d, b, rds, world)
    ensures Reads(cfg, d, b, rds, world) == Bytewise(cfg, d, b, Stream(rds), world)
    decreases |rds|
  {
    if rds != [] {
      var rd := rds[0];
      var b1 := Intake(cfg, d, b, rd, At(world, b));
      var cells := CellsIn(rd);
      SplittingIsInvisible(cfg, d, b1, rds[1..], world);
      BytewiseAppend(cfg, d, b, cells, Stream(rds[1..]), world);
      if !b.sink.link.connected {
        ClosedStays(cfg, d, b, cells, world);
      } else if rd.Data? {
        ReadIsBytewise(cfg, d, b, rd.bytes, rd.fds, rd.trunc, world);
      }
    }
  }

  // ---- the commands of a stream are its consecutive records ----------------------------------------------

  /** A command as a client means it: one record and at most one fd. */
  datatype Item = Item(record: Record, fd: Option<int>)

  /** The reference for one command: no buffer, no reads, just the record and its fd. */
  function Exec(cfg: SinkModel.Config, d: Display, b: Broker, it: Item, e: Reply): Broker {
    if !b.sink.link.connected then b
    else Complete(cfg, d, Arrived(b, it.record, it.fd), it.record, e)
  }

  /** So much of a command has arrived. */
  function Arrived(b: Broker, bytes: seq<Byte>, fd: Option<int>): Broker {
    b.(inb := b.inb.(rx := bytes, rxfd := fd), log := b.log.(bytes := b.log.bytes + bytes),
       received := b.received + Fds(fd))
  }

  function Execs(cfg: SinkModel.Config, d: Display, b: Broker, items: seq<Item>, world: World): Broker
    decreases |items|
  {
    if items == [] then b else Execs(cfg, d, Exec(cfg, d, b, items[0], At(world, b)), items[1..], world)
  }

  function BytesIn(cells: seq<Cell>): seq<Byte> {
    if cells == [] then [] else BytesIn(cells[..|cells| - 1]) + [cells[|cells| - 1].byte]
  }

  function FdsIn(cells: seq<Cell>): seq<int> {
    if cells == [] then [] else FdsIn(cells[..|cells| - 1]) + cells[|cells| - 1].fds
  }

  /** The cells of one command: its bytes in order, its fd in front of any one of them. */
  predicate Carries(cells: seq<Cell>, it: Item) {
    BytesIn(cells) == it.record && FdsIn(cells) == Fds(it.fd) && forall c <- cells :: !c.trunc
  }

  /** Between commands: nothing buffered, no fd banked. */
  predicate Between(b: Broker) {
    b.sink.link.connected && b.inb.rx == [] && b.inb.rxfd == None
  }

  lemma {:induction false} BytesInLength(cells: seq<Cell>)
    ensures |BytesIn(cells)| == |cells|
  {
    if cells != [] {
      BytesInLength(cells[..|cells| - 1]);
    }
  }

  function FirstOf(fds: seq<int>): Option<int> {
    if fds == [] then None else Some(fds[0])
  }

  lemma BankFirst(b: Broker, bytes: seq<Byte>, had: seq<int>, fds: seq<int>)
    requires |had + fds| <= 1
    ensures Bank(Arrived(b, bytes, FirstOf(had)), fds) == Arrived(b, bytes, FirstOf(had + fds))
  {
    if fds == [] {
      assert had + fds == had;
    } else {
      assert had + fds == fds && fds[1..] == [];
      assert b.received + [] + [fds[0]] == b.received + [fds[0]];
    }
  }

  lemma ArrivedMore(b: Broker, bytes: seq<Byte>, fd: Option<int>, c: Byte)
    ensures Arrived(b, bytes + [c], fd)
            == Arrived(b, bytes, fd).(inb := b.inb.(rx := bytes + [c], rxfd := fd),
                                      log := b.log.(bytes := b.log.bytes + bytes + [c]))
  {}

  lemma FillOne(cfg: SinkModel.Config, d: Display, b: Broker, bytes: seq<Byte>, fd: Option<int>, c: Byte, e: Reply)
    requires |bytes| < CMD_SIZE
    ensures Fill(cfg, d, Arrived(b, bytes, fd), [c], e)
            == var b' := Arrived(b, bytes + [c], fd);
               if |bytes| + 1 == CMD_SIZE then Complete(cfg, d, b', bytes + [c], e) else b'
  {
    ArrivedMore(b, bytes, fd, c);
  }

  /** Cell by cell, a command accumulates; the last one completes it. */
  lemma {:induction false} CommandArrives(cfg: SinkModel.Config, d: Display, b: Broker, cells: seq<Cell>, world: World)
    requires Between(b) && |cells| <= CMD_SIZE && |FdsIn(cells)| <= 1 && forall c <- cells :: !c.trunc
    ensures |BytesIn(cells)| == |cells|
    ensures Bytewise(cfg, d, b, cells, world)
            == var b' := Arrived(b, BytesIn(cells), FirstOf(FdsIn(cells)));
               if |cells| == CMD_SIZE then Complete(cfg, d, b', BytesIn(cells), At(world, b)) else b'
    decreases |cells|
  {
    BytesInLength(cells);
    if cells == [] {
      assert b.log.bytes + [] == b.log.bytes && b.received + [] == b.received;
    } else {
      var most, c := cells[..|cells| - 1], cells[|cells| - 1];
      assert cells == most + [c] && c in cells;
      CommandArrives(cfg, d, b, most, world);
      BytewiseAppend(cfg, d, b, most, [c], world);
      var b1 := Arrived(b, BytesIn(most), FirstOf(FdsIn(most)));
      BytewiseOne(cfg, d, b1, c, world);
      BankFirst(b, BytesIn(most), FdsIn(most), c.fds);
      FillOne(cfg, d, b, BytesIn(most), FirstOf(FdsIn(cells)), c.byte, At(world, b));
    }
  }

  lemma BytewiseOne(cfg: SinkModel.Config, d: Display, b: Broker, c: Cell, world: World)
    ensures Bytewise(cfg, d, b, [c], world) == Intake(cfg, d, b, Single(c), At(world, b))
  {
    assert [c][1..] == [];
    var b1 := Intake(cfg, d, b, Single(c), At(world, b));
    assert Bytewise(cfg, d, b1, [], world) == b1;
  }

  function Join(groups: seq<seq<Cell>>): seq<Cell> {
    if groups == [] then [] else groups[0] + Join(groups[1..])
  }

  predicate AllCarry(groups: seq<seq<Cell>>, items: seq<Item>) {
    |groups| == |items| && forall i :: 0 <= i < |items| ==> Carries(groups[i], items[i])
  }

  lemma ExecIsBytewise(cfg: SinkModel.Config, d: Display, b: Broker, cells: seq<Cell>, it: Item, world: World)
    requires Between(b) && Carries(cells, it)
    ensures Bytewise(cfg, d, b, cells, world) == Exec(cfg, d, b, it, At(world, b))
  {
    BytesInLength(cells);
    CommandArrives(cfg, d, b, cells, world);
    assert FirstOf(FdsIn(cells)) == it.fd;
  }

  /** A command leaves the stream between commands again, or over. */
  lemma CompleteLeavesBetween(cfg: SinkModel.Config, d: Display, b: Broker, r: Record, e: Reply)
    requires b.sink.link.connected
    ensures var b' := Complete(cfg, d, b, r, e); b'.inb.rx == [] && (b'.sink.link.connected ==> Between(b'))
  {
    var w := RateLimit.Hit(b.inb.rate, e.now);
    var b1 := b.(inb := b.inb.(rx := [], rxfd := None, rate := w),
                 log := b.log.(records := b.log.records + [r], times := b.log.times + [e.now]));
    RefusalOwned(b1, b.inb.rxfd, e);
    HandleTakesOwnership(cfg, d, b1, r, b.inb.rxfd, e);
  }

  lemma {:induction false} ClosedExecutesNothing(cfg: SinkModel.Config, d: Display, b: Broker, items: seq<Item>, world: World)
    requires !b.sink.link.connected
    ensures Execs(cfg, d, b, items, world) == b
    decreases |items|
  {
    if items != [] {
      ClosedExecutesNothing(cfg, d, b, items[1..], world);
    }
  }

  lemma {:induction false} CommandsBytewise(cfg: SinkModel.Config, d: Display, b: Broker, groups: seq<seq<Cell>>,
                                            items: seq<Item>, world: World)
    requires Between(b) && AllCarry(groups, items)
    ensures Bytewise(cfg, d, b, Join(groups), world) == Execs(cfg, d, b, items, world)
    decreases |groups|
  {
    if groups != [] {
      var b1 := Exec(cfg, d, b, items[0], At(world, b));
      BytewiseAppend(cfg, d, b, groups[0], Join(groups[1..]), world);
      ExecIsBytewise(cfg, d, b, groups[0], items[0], world);
      if b1.sink.link.connected {
        CompleteLeavesBetween(cfg, d, Arrived(b, items[0].record, items[0].fd), items[0].record, At(world, b));
        CommandsBytewise(cfg, d, b1, groups[1..], items[1..], world);
      } else {
        ClosedStays(cfg, d, b1, Join(groups[1..]), world);
        ClosedExecutesNothing(cfg, d, b1, items[1..], world);
      }
    }
  }

  /**
   * A stream of commands is executed as those commands, in order and each with its own fd, until
   * one of them ends the connection -- however the kernel cuts the stream into reads, and with
   * whichever of its bytes each fd arrives.
   */
  lemma StreamIsItsCommands(cfg: SinkModel.Config, d: Display, b: Broker, rds: seq<Read>,
                            groups: seq<seq<Cell>>, items: seq<Item>, world: World)
    requires Between(b) && AllPossible(cfg, d, b, rds, world)
    requires Stream(rds) == Join(groups) && AllCarry(groups, items)
    ensures Reads(cfg, d, b, rds, world) == Execs(cfg, d, b, items, world)
  {
    SplittingIsInvisible(cfg, d, b, rds, world);
    CommandsBytewise(cfg, d, b, groups, items, world);
  }

  // ---- a wakeup: several turns of the loop ------------------------------------------------------------------

  datatype Turn = Turn(rd: Read, reply: Reply)

  function Turns(cfg: SinkModel.Config, d: Display, b: Broker, ts: seq<Turn>): Broker {
    if ts == [] then b
    else Intake(cfg, d, Turns(cfg, d, b, ts[..|ts| - 1]), ts[|ts| - 1].rd, ts[|ts| - 1].reply)
  }

  /** This read completes a command. */
  predicate Completes(b: Broker, rd: Read) {
    b.sink.link.connected && rd.Data? && !TooManyFds(b, rd.fds, rd.trunc) && |b.inb.rx| + |rd.bytes| == CMD_SIZE
  }

  /** How many commands the turns completed. */
  function Completed(cfg: SinkModel.Config, d: Display, b: Broker, ts: seq<Turn>): nat {
    if ts == [] then 0
    else
      var before := ts[..|ts| - 1];
      Completed(cfg, d, b, before) + if Completes(Turns(cfg, d, b, before), ts[|ts| - 1].rd) then 1 else 0
  }

  /** Every read of the turns was one the kernel could have answered with. */
  predicate Legal(cfg: SinkModel.Config, d: Display, b: Broker, ts: seq<Turn>) {
    ts == [] || (Legal(cfg, d, b, ts[..|ts| - 1]) && Possible(Turns(cfg, d, b, ts[..|ts| - 1]), ts[|ts| - 1].rd))
  }

  function ReadsOf(ts: seq<Turn>): seq<Read> {
    if ts == [] then [] else ReadsOf(ts[..|ts| - 1]) + [ts[|ts| - 1].rd]
  }

  /** What a recvmsg of at most `room` bytes takes from the socket's queue, and what it leaves there. */
  function Next(q: seq<Read>, room: nat): (Read, seq<Read>) {
    if q == [] then (Empty, [])
    else if q[0].Data? && |q[0].bytes| > room
    then (Data(q[0].bytes[..room], q[0].fds, q[0].trunc), [Data(q[0].bytes[room..], [], false)] + q[1..])
    else (q[0], q[1..])
  }

  predicate Nonempty(q: seq<Read>) {
    forall rd <- q :: rd.Data? ==> rd.bytes != []
  }

  /** How much is queued. */
  function Weight(q: seq<Read>): nat {
    if q == [] then 0 else 1 + (if q[0].Data? then |q[0].bytes| else 0) + Weight(q[1..])
  }

  lemma NextFits(q: seq<Read>, room: nat)
    requires Nonempty(q) && room > 0
    ensures var (rd, rest) := Next(q, room);
            (rd.Data? ==> 0 < |rd.bytes| <= room) && Nonempty(rest) && (q != [] ==> Weight(rest) < Weight(q))
  {}

  lemma {:induction false} CellsSplit(u: seq<Byte>, v: seq<Byte>, fds: seq<int>, trunc: bool)
    requires u != []
    ensures CellsOf(u + v, fds, trunc) == CellsOf(u, fds, trunc) + CellsOf(v, [], false)
    decreases |u|
  {
    assert (u + v)[1..] == u[1..] + v;
    if |u| == 1 {
      assert u[1..] + v == v;
    } else {
      CellsSplit(u[1..], v, [], false);
    }
  }

  lemma {:induction false} StreamAppend(p: seq<Read>, q: seq<Read>)
    ensures Stream(p + q) == Stream(p) + Stream(q)
  {
    if p == [] {
      assert p + q == q;
    } else {
      assert (p + q)[1..] == p[1..] + q;
      StreamAppend(p[1..], q);
    }
  }

  lemma StreamCons(rd: Read, q: seq<Read>)
    ensures Stream([rd] + q) == CellsIn(rd) + Stream(q)
  {}

  /** A read takes the front of the stream and leaves the rest for the next one. */
  lemma NextTakesFront(q: seq<Read>, room: nat)
    requires room > 0
    ensures Stream(q) == CellsIn(Next(q, room).0) + Stream(Next(q, room).1)
  {
    if q != [] && q[0].Data? && |q[0].bytes| > room {
      var u, v := q[0].bytes[..room], q[0].bytes[room..];
      assert q[0].bytes == u + v;
      CellsSplit(u, v, q[0].fds, q[0].trunc);
      StreamCons(Data(v, [], false), q[1..]);
      Associate(CellsOf(u, q[0].fds, q[0].trunc), CellsOf(v, [], false), Stream(q[1..]));
    }
  }

  /** After a turn there is room for another. */
  lemma IntakeLeavesRoom(cfg: SinkModel.Config, d: Display, b: Broker, rd: Read, e: Reply)
    requires Possible(b, rd) && |b.inb.rx| < CMD_SIZE
    ensures var b' := Intake(cfg, d, b, rd, e);
            && |b'.inb.rx| < CMD_SIZE
            && (b'.sink.link.connected && rd.Data? && !Completes(b, rd) ==> |b'.inb.rx| == |b.inb.rx| + |rd.bytes|)
  {
    if b.sink.link.connected && rd.Data? {
      var b1 := Bank(b, rd.fds);
      BankKeeps(b, rd.fds);
      if TooManyFds(b, rd.fds, rd.trunc) {
        ViolationEnds(b1, e);
      } else if |b.inb.rx| + |rd.bytes| == CMD_SIZE {
        var rx := b1.inb.rx + rd.bytes;
        var b2 := b1.(inb := b1.inb.(rx := rx), log := b1.log.(bytes := b1.log.bytes + rd.bytes));
        CompleteLeavesBetween(cfg, d, b2, rx, e);
      }
    }
  }

  /** The stream of the reads so far, and one more. */
  lemma TurnReads(ts: seq<Turn>, t: Turn, left: seq<Read>)
    ensures Stream(ReadsOf(ts + [t])) + Stream(left) == Stream(ReadsOf(ts)) + (CellsIn(t.rd) + Stream(left))
  {
    assert (ts + [t])[..|ts|] == ts;
    StreamAppend(ReadsOf(ts), [t.rd]);
    StreamCons(t.rd, []);
    assert [t.rd] + [] == [t.rd];
    assert CellsIn(t.rd) + [] == CellsIn(t.rd);
    Associate(Stream(ReadsOf(ts)), CellsIn(t.rd), Stream(left));
  }

  /** A wakeup: the states it went through, what it has read and what it has left in the socket. */
  datatype Wakeup = Wakeup(q: seq<Read>, rest: seq<Read>, states: seq<Broker>, turns: seq<Turn>, commands: nat)

  /** One turn leads from `b` to `b'`. */
  predicate Leads(cfg: SinkModel.Config, d: Display, b: Broker, t: Turn, b': Broker) {
    Possible(b, t.rd) && b' == Intake(cfg, d, b, t.rd, t.reply)
  }

  /** Each state follows from the one before it by one turn. */
  ghost predicate Linked(cfg: SinkModel.Config, d: Display, states: seq<Broker>, ts: seq<Turn>) {
    |states| == |ts| + 1 && forall i :: 0 <= i < |ts| ==> Leads(cfg, d, states[i], ts[i], states[i + 1])
  }

  /** How many of the turns completed a command. */
  function Done(states: seq<Broker>, ts: seq<Turn>): nat
    requires |states| > |ts|
  {
    if ts == [] then 0
    else Done(states, ts[..|ts| - 1]) + if Completes(states[|ts| - 1], ts[|ts| - 1].rd) then 1 else 0
  }

  lemma {:induction false} LinkedTurns(cfg: SinkModel.Config, d: Display, states: seq<Broker>, ts: seq<Turn>)
    requires |states| > |ts| && Linked(cfg, d, states[..|ts| + 1], ts)
    ensures states[|ts|] == Turns(cfg, d, states[0], ts) && Done(states, ts) == Completed(cfg, d, states[0], ts)
    ensures Legal(cfg, d, states[0], ts)
    decreases |ts|
  {
    if ts != [] {
      var n := |ts| - 1;
      assert forall i :: 0 <= i < n ==> states[..n + 1][i + 1] == states[..|ts| + 1][i + 1] && ts[..n][i] == ts[i];
      LinkedTurns(cfg, d, states, ts[..n]);
      assert Leads(cfg, d, states[..|ts| + 1][n], ts[n], states[..|ts| + 1][n + 1]);
    }
  }

  lemma LinkedSnoc(cfg: SinkModel.Config, d: Display, states: seq<Broker>, ts: seq<Turn>, b': Broker, t: Turn)
    requires Linked(cfg, d, states, ts) && Leads(cfg, d, states[|ts|], t, b')
    ensures Linked(cfg, d, states + [b'], ts + [t])
  {
    var states', ts' := states + [b'], ts + [t];
    forall i | 0 <= i < |ts'| ensures Leads(cfg, d, states'[i], ts'[i], states'[i + 1]) {
      if i < |ts| {
        assert Leads(cfg, d, states[i], ts[i], states[i + 1]);
      }
    }
  }

  lemma DoneSnoc(states: seq<Broker>, ts: seq<Turn>, b': Broker, t: Turn)
    requires |states| == |ts| + 1
    ensures Done(states + [b'], ts + [t]) == Done(states, ts) + if Completes(states[|ts|], t.rd) then 1 else 0
  {
    DonePrefix(states, b', ts);
    assert (ts + [t])[..|ts|] == ts;
  }

  lemma {:induction false} DonePrefix(states: seq<Broker>, b: Broker, ts: seq<Turn>)
    requires |states| > |ts|
    ensures Done(states + [b], ts) == Done(states, ts)
  {
    if ts != [] {
      DonePrefix(states, b, ts[..|ts| - 1]);
    }
  }

  /** A wakeup under way has reached `b`. */
  ghost predicate Draining(cfg: SinkModel.Config, d: Display, w: Wakeup, b: Broker) {
    && Linked(cfg, d, w.states, w.turns) && w.states[|w.turns|] == b && w.commands == Done(w.states, w.turns)
    && |b.inb.rx| < CMD_SIZE && Nonempty(w.rest)
    && Stream(ReadsOf(w.turns)) + Stream(w.rest) == Stream(w.q)
    && |w.turns| <= CMD_SIZE * w.commands + if b.sink.link.connected then |b.inb.rx| else CMD_SIZE
  }

  lemma StartDraining(cfg: SinkModel.Config, d: Display, b: Broker, q: seq<Read>)
    requires |b.inb.rx| < CMD_SIZE && Nonempty(q)
    ensures Draining(cfg, d, Wakeup(q, q, [b], [], 0), b)
  {
    assert Stream([]) + Stream(q) == Stream(q);
  }

  lemma KeepDraining(cfg: SinkModel.Config, d: Display, w: Wakeup, b: Broker, rd: Read, left: seq<Read>, reply: Reply,
                     b': Broker)
    returns (w': Wakeup)
    requires Draining(cfg, d, w, b) && b.sink.link.connected
    requires (rd, left) == Next(w.rest, CMD_SIZE - |b.inb.rx|) && !rd.Empty?
    requires b' == Intake(cfg, d, b, rd, reply)
    ensures Draining(cfg, d, w', b') && w'.states[0] == w.states[0]
    ensures w'.q == w.q && w'.rest == left
    ensures w'.commands == w.commands + if Completes(b, rd) then 1 else 0
  {
    var t := Turn(rd, reply);
    w' := Wakeup(w.q, left, w.states + [b'], w.turns + [t], w.commands + if Completes(b, rd) then 1 else 0);
    var room := CMD_SIZE - |b.inb.rx|;
    assert Possible(b, rd) && Nonempty(left) by {
      NextFits(w.rest, room);
    }
    assert Linked(cfg, d, w'.states, w'.turns) by {
      LinkedSnoc(cfg, d, w.states, w.turns, b', t);
    }
    assert w'.commands == Done(w'.states, w'.turns) by {
      DoneSnoc(w.states, w.turns, b', t);
    }
    assert Stream(ReadsOf(w'.turns)) + Stream(left) == Stream(w.q) by {
      NextTakesFront(w.rest, room);
      TurnReads(w.turns, t, left);
    }
    IntakeLeavesRoom(cfg, d, b, rd, reply);
  }

  /** What a wakeup amounts to. */
  lemma Drained(cfg: SinkModel.Config, d: Display, w: Wakeup, b: Broker)
    requires Draining(cfg, d, w, b)
    ensures b == Turns(cfg, d, w.states[0], w.turns) && w.commands == Completed(cfg, d, w.states[0], w.turns)
    ensures Legal(cfg, d, w.states[0], w.turns)
  {
    assert w.states[..|w.turns| + 1] == w.states;
    LinkedTurns(cfg, d, w.states, w.turns);
  }
}
