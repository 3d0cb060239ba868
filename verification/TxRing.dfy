// The outbound ring: 512 slots, updated in place through partial writes and coalescing, and equal
// to the packet sequences of TxQueue.

module TxRing {
  import opened Protocol
  import opened TxQueue

  /** What one attempt to write to the client's socket came to. */
  datatype Send = Sent(n: nat) | Interrupted | WouldBlock | Broken

  datatype Verdict = Again | Stop(ok: bool)

  /** `len` bytes of a packet's image, starting at byte `from`. */
  datatype Segment = Segment(pkt: Pkt, from: nat, len: nat)

  function Image(w: seq<Segment>): seq<Byte>
    requires InBounds(w)
  {
    if w == [] then [] else Encode(w[0].pkt)[w[0].from..w[0].from + w[0].len] + Image(w[1..])
  }

  /** The outbound side of one connection: delivered packets, the queue, and how much of its head is out. */
  datatype Tx = Tx(delivered: seq<Pkt>, queue: seq<Pkt>, partial: nat) {
    predicate Valid() {
      |queue| < TXRING && partial < PKT_SIZE && (partial > 0 ==> queue != [])
    }

    /** The packets the client has or will receive, in order. */
    function Stream(): seq<Pkt> {
      delivered + queue
    }

    /** The bytes that make up what has been delivered, and the part of the head that is out. */
    function Wire(): seq<Byte>
      requires Valid()
    {
      Bytes(delivered) + if partial > 0 then Encode(queue[0])[..partial] else []
    }

    /** `n` more bytes of the head were accepted. */
    function Accept(n: nat): (r: Tx)
      requires Valid() && queue != [] && n <= PKT_SIZE - partial
      ensures r.Valid() && r.Stream() == Stream()
    {
      if partial + n == PKT_SIZE then Tx(delivered + [queue[0]], queue[1..], 0)
      else this.(partial := partial + n)
    }

    /** How much of an offered write of `n` bytes fits the rest of the head packet. */
    function Room(n: nat): nat
      requires Valid()
    {
      if n > PKT_SIZE - partial then PKT_SIZE - partial else n
    }

    /** One write: the bytes it got out, and whether to go on. */
    function Attempt(s: Send): (r: (Tx, seq<Segment>, Verdict))
      requires Valid() && queue != []
      ensures r.0.Valid() && r.0.Stream() == Stream() && InBounds(r.1)
    {
      match s
      case Sent(n) => (Accept(Room(n)), [Segment(queue[0], partial, Room(n))], Again)
      case Interrupted => (this, [], Again)
      case WouldBlock => (this, [], Stop(true))
      case Broken => (this, [], Stop(false))
    }

    /** Writes until the queue is empty, the socket is full or the connection is broken. */
    function Flush(sends: seq<Send>): (r: (Tx, seq<Segment>, bool))
      requires Valid()
      ensures r.0.Valid() && r.0.Stream() == Stream() && InBounds(r.1)
      decreases |sends|
    {
      if queue == [] || sends == [] then (this, [], true)
      else
        var a := Attempt(sends[0]);
        if a.2.Stop? then (a.0, a.1, a.2.ok)
        else
          var f := a.0.Flush(sends[1..]);
          (f.0, a.1 + f.1, f.2)
    }

    /** The queue as an enqueue finds it: coalesced once it is more than a quarter full. */
    function Relieved(): (r: Tx)
      requires Valid()
      ensures r.Valid() && r.delivered == delivered && r.partial == partial
    {
      CoalesceSize(queue, partial);
      if |queue| > TXRING / 4 then this.(queue := Coalesce(queue, partial)) else this
    }

    predicate Full() {
      |queue| == TXRING - 1
    }

    function Push(p: Pkt): (r: Tx)
      requires Valid() && !Full()
      ensures r.Valid() && r.Stream() == Stream() + [p]
    {
      Associate(delivered, queue, [p]);
      this.(queue := queue + [p])
    }
  }

  lemma BytesSnoc(ps: seq<Pkt>, p: Pkt)
    ensures Bytes(ps + [p]) == Bytes(ps) + Encode(p)
  {}

  lemma SplitAt(base: seq<Byte>, e: seq<Byte>, i: nat, j: nat)
    requires i <= j <= |e|
    ensures base + e[..i] + e[i..j] == base + e[..j] && (j == |e| ==> e[..j] == e)
  {}

  /** What is out after a write: the delivered packets, and the head up to where the write ended. */
  lemma AcceptedWire(t: Tx, n: nat)
    requires t.Valid() && t.queue != [] && n <= PKT_SIZE - t.partial
    ensures t.Accept(n).Wire() == Bytes(t.delivered) + Encode(t.queue[0])[..t.partial + n]
  {
    if t.partial + n == PKT_SIZE {
      var base, e: seq<Byte> := Bytes(t.delivered), Encode(t.queue[0]);
      BytesSnoc(t.delivered, t.queue[0]);
      assert e[..t.partial + n] == e && base + e + [] == base + e;
    }
  }

  /** Bytes leave in order, whole packets first: a write extends the wire by exactly what was accepted. */
  lemma AcceptExtendsWire(t: Tx, n: nat)
    requires t.Valid() && t.queue != [] && n <= PKT_SIZE - t.partial
    ensures t.Accept(n).Wire() == t.Wire() + Encode(t.queue[0])[t.partial..t.partial + n]
  {
    AcceptedWire(t, n);
    SplitAt(Bytes(t.delivered), Encode(t.queue[0]), t.partial, t.partial + n);
  }

  /** At every moment the client can read back exactly the delivered packets. */
  lemma ClientReadsDelivered(t: Tx)
    requires t.Valid()
    ensures ClientReads(t.Wire()) == t.delivered
  {
    ClientReadsPackets(t.delivered, if t.partial > 0 then Encode(t.queue[0])[..t.partial] else []);
  }

  predicate InBounds(w: seq<Segment>) {
    forall g <- w :: g.from + g.len <= PKT_SIZE
  }

  lemma AttemptExtendsWire(t: Tx, s: Send)
    requires t.Valid() && t.queue != []
    ensures Extends(t, t.Attempt(s).1, t.Attempt(s).0)
  {
    if s.Sent? {
      var k := t.Room(s.n);
      AcceptExtendsWire(t, k);
      var w := t.Attempt(s).1;
      assert Image(w[1..]) == [];
      assert Image(w) == Encode(t.queue[0])[t.partial..t.partial + k];
    } else {
      assert t.Wire() + [] == t.Wire();
    }
  }

  lemma ImageCons(v: seq<Segment>, w: seq<Segment>)
    requires |v| <= 1 && InBounds(v) && InBounds(w)
    ensures InBounds(v + w) && Image(v + w) == Image(v) + Image(w)
  {
    if v == [] {
      assert v + w == w;
    } else {
      var g := v[0];
      var head: seq<Byte> := Encode(g.pkt)[g.from..g.from + g.len];
      assert (v + w)[1..] == w && (v + w)[0] == g && v[1..] == [];
      assert Image(v + w) == head + Image(w);
      assert Image(v) == head + [] == head;
    }
  }

  /** The writes `v` lead from what is on the wire at `t` to what is on it at `u`. */
  predicate Extends(t: Tx, v: seq<Segment>, u: Tx) {
    t.Valid() && u.Valid() && InBounds(v) && u.Wire() == t.Wire() + Image(v)
  }

  lemma JoinWrites(t: Tx, v: seq<Segment>, u: Tx, w: seq<Segment>, x: Tx)
    requires |v| <= 1 && Extends(t, v, u) && Extends(u, w, x)
    ensures Extends(t, v + w, x)
  {
    ImageCons(v, w);
    Associate(t.Wire(), Image(v), Image(w));
  }

  lemma NoWrite(t: Tx)
    requires t.Valid()
    ensures Extends(t, [], t)
  {
    assert t.Wire() + [] == t.Wire();
  }

  /** The writes of a flush continue the wire exactly where it stood, with no byte lost or repeated. */
  lemma {:induction false} FlushExtendsWire(t: Tx, sends: seq<Send>)
    requires t.Valid()
    ensures Extends(t, t.Flush(sends).1, t.Flush(sends).0)
    decreases |sends|
  {
    if t.queue == [] || sends == [] {
      NoWrite(t);
    } else {
      var a := t.Attempt(sends[0]);
      AttemptExtendsWire(t, sends[0]);
      FlushNext(t, sends, a);
      if a.2.Again? {
        var f := a.0.Flush(sends[1..]);
        FlushExtendsWire(a.0, sends[1..]);
        JoinWrites(t, a.1, a.0, f.1, f.0);
      }
    }
  }

  lemma FlushNext(t: Tx, sends: seq<Send>, a: (Tx, seq<Segment>, Verdict))
    requires t.Valid() && t.queue != [] && sends != [] && a == t.Attempt(sends[0])
    ensures if a.2.Again? then var f := a.0.Flush(sends[1..]); t.Flush(sends).0 == f.0 && t.Flush(sends).1 == a.1 + f.1
            else t.Flush(sends).0 == a.0 && t.Flush(sends).1 == a.1
  {}

  // ---- how much a flush gets out ----------------------------------------------------------------

  /** What a series of writes comes to, counted in bytes: how many were accepted, and whether the socket broke. */
  datatype Tally = Tally(bytes: nat, broke: bool)

  /** `pending` bytes are queued, `left` of them in the packet at the head; no write crosses a packet's end. */
  function Tallied(sends: seq<Send>, pending: nat, left: nat): Tally
    requires left <= PKT_SIZE && left <= pending
    decreases |sends|
  {
    if pending == 0 || sends == [] then Tally(0, false)
    else match sends[0]
      case Sent(n) =>
        var m := if n < left then n else left;
        var rest := pending - m;
        var more := Tallied(sends[1..], rest, if m < left then left - m else if rest < PKT_SIZE then rest else PKT_SIZE);
        Tally(m + more.bytes, more.broke)
      case Interrupted => Tallied(sends[1..], pending, left)
      case WouldBlock => Tally(0, false)
      case Broken => Tally(0, true)
  }

  function PendingBytes(t: Tx): nat
    requires t.Valid()
  {
    PKT_SIZE * |t.queue| - t.partial
  }

  function HeadBytes(t: Tx): nat
    requires t.Valid()
  {
    if t.queue == [] then 0 else PKT_SIZE - t.partial
  }

  lemma WireBytes(t: Tx)
    requires t.Valid()
    ensures |t.Wire()| == PKT_SIZE * |t.delivered| + t.partial
  {}

  lemma AcceptBytes(t: Tx, m: nat)
    requires t.Valid() && t.queue != [] && m <= PKT_SIZE - t.partial
    ensures var r := t.Accept(m);
            && |r.Wire()| == |t.Wire()| + m && PendingBytes(r) == PendingBytes(t) - m
            && HeadBytes(r) == if m < HeadBytes(t) then HeadBytes(t) - m
                               else if PendingBytes(r) < PKT_SIZE then PendingBytes(r) else PKT_SIZE
  {
    WireBytes(t);
    WireBytes(t.Accept(m));
  }

  /** A flush gets out exactly what the socket takes, write by write, until it is full or broken or nothing is left. */
  lemma {:induction false} FlushGetsOut(t: Tx, sends: seq<Send>)
    requires t.Valid()
    ensures var f, c := t.Flush(sends), Tallied(sends, PendingBytes(t), HeadBytes(t));
            |f.0.Wire()| == |t.Wire()| + c.bytes && f.2 == !c.broke
    decreases |sends|
  {
    if t.queue != [] && sends != [] {
      if sends[0].Sent? {
        var t1 := t.Accept(t.Room(sends[0].n));
        FlushGetsOut(t1, sends[1..]);
        FlushSent(t, sends, t1);
        TallySent(t, sends, t1);
      } else if sends[0].Interrupted? {
        FlushGetsOut(t, sends[1..]);
      }
    }
  }

  lemma FlushSent(t: Tx, sends: seq<Send>, t1: Tx)
    requires t.Valid() && t.queue != [] && sends != [] && sends[0].Sent? && t1 == t.Accept(t.Room(sends[0].n))
    ensures t.Flush(sends).0 == t1.Flush(sends[1..]).0 && t.Flush(sends).2 == t1.Flush(sends[1..]).2
  {
    assert t.Attempt(sends[0]).0 == t1 && t.Attempt(sends[0]).2 == Again;
  }

  lemma TallySent(t: Tx, sends: seq<Send>, t1: Tx)
    requires t.Valid() && t.queue != [] && sends != [] && sends[0].Sent? && t1 == t.Accept(t.Room(sends[0].n))
    ensures var c := Tallied(sends[1..], PendingBytes(t1), HeadBytes(t1));
            && Tallied(sends, PendingBytes(t), HeadBytes(t)) == Tally(t.Room(sends[0].n) + c.bytes, c.broke)
            && |t1.Wire()| == |t.Wire()| + t.Room(sends[0].n)
  {
    var m := t.Room(sends[0].n);
    AcceptBytes(t, m);
    TalliedNext(sends, PendingBytes(t), HeadBytes(t), m, PendingBytes(t1), HeadBytes(t1));
  }

  lemma TalliedNext(sends: seq<Send>, pending: nat, left: nat, m: nat, pending': nat, left': nat)
    requires sends != [] && sends[0].Sent? && 0 < left <= PKT_SIZE && left <= pending
    requires m == (if sends[0].n < left then sends[0].n else left) && pending' == pending - m
    requires left' == if m < left then left - m else if pending' < PKT_SIZE then pending' else PKT_SIZE
    ensures var c := Tallied(sends[1..], pending', left');
            Tallied(sends, pending, left) == Tally(m + c.bytes, c.broke)
  {}

  /** A socket that takes whole packets, as often as there are any, empties the queue. */
  lemma {:induction false} FlushEmpties(t: Tx, sends: seq<Send>)
    requires t.Valid() && |sends| >= |t.queue| && forall s <- sends :: s.Sent? && s.n >= PKT_SIZE
    ensures var f := t.Flush(sends); f.0.queue == [] && f.0.delivered == t.delivered + t.queue && f.2
    decreases |sends|
  {
    if t.queue == [] {
      assert t.delivered + t.queue == t.delivered;
    } else {
      assert sends[0] in sends;
      var a := t.Attempt(sends[0]);
      assert a.0 == Tx(t.delivered + [t.queue[0]], t.queue[1..], 0);
      FlushEmpties(a.0, sends[1..]);
      assert t.delivered + [t.queue[0]] + t.queue[1..] == t.delivered + t.queue;
    }
  }

  /** The slot after `cur`, around the end of the ring. */
  function Next(cur: nat): (r: nat)
    requires cur < TXRING
    ensures r < TXRING && r == if cur + 1 == TXRING then 0 else cur + 1
  {
    (cur + 1) % TXRING
  }

  /** The packets from slot `cur` up to slot `head`. */
  function Segments(s: seq<Pkt>, cur: nat, head: nat): seq<Pkt>
    requires |s| == TXRING && head < TXRING && cur < TXRING
  {
    if cur <= head then s[cur..head] else s[cur..] + s[..head]
  }

  /** The slots up to `head` do not wrap. */
  lemma AheadNext(s: seq<Pkt>, cur: nat, head: nat)
    requires cur < head <= |s|
    ensures s[cur..head] == [s[cur]] + s[cur + 1..head]
  {}

  /** They do: the end of the ring first, then its start. */
  lemma WrappedNext(s: seq<Pkt>, cur: nat, front: seq<Pkt>)
    requires cur < |s|
    ensures s[cur..] + front == [s[cur]] + (s[cur + 1..] + front)
  {}

  lemma SegmentsNext(s: seq<Pkt>, cur: nat, head: nat)
    requires |s| == TXRING && head < TXRING && cur < TXRING && cur != head
    ensures Segments(s, cur, head) == [s[cur]] + Segments(s, Next(cur), head)
  {
    if cur < head {
      AheadNext(s, cur, head);
    } else {
      WrappedNext(s, cur, s[..head]);
      if cur + 1 == TXRING {
        assert s[cur + 1..] + s[..head] == s[0..head];
      }
    }
  }

  lemma SegmentsPush(s: seq<Pkt>, tail: nat, head: nat, p: Pkt)
    requires |s| == TXRING && head < TXRING && tail < TXRING && Next(head) != tail
    ensures Segments(s[head := p], tail, Next(head)) == Segments(s, tail, head) + [p]
  {}

  lemma SegmentsLength(s: seq<Pkt>, tail: nat, head: nat)
    requires |s| == TXRING && head < TXRING && tail < TXRING
    ensures |Segments(s, tail, head)| == (head + TXRING - tail) % TXRING
    ensures |Segments(s, tail, head)| == TXRING - 1 <==> Next(head) == tail
  {}

  class Ring {
    const buf: array<Pkt>
    var head: nat
    var tail: nat
    var partial: nat

    // History: the packets this connection's client has received whole.
    ghost var delivered: seq<Pkt>

    ghost predicate Valid()
      reads this, buf
    {
      && buf.Length == TXRING && head < TXRING && tail < TXRING
      && View().Valid()
    }

    function Queue(): seq<Pkt>
      reads this, buf
      requires buf.Length == TXRING && head < TXRING && tail < TXRING
    {
      Segments(buf[..], tail, head)
    }

    ghost function View(): Tx
      reads this, buf
      requires buf.Length == TXRING && head < TXRING && tail < TXRING
    {
      Tx(delivered, Queue(), partial)
    }

    constructor ()
      ensures Valid() && fresh(this) && fresh(buf)
      ensures View() == Tx([], [], 0)
    {
      buf := new Pkt[TXRING](_ => Pkt(Hello, 0, 0, Args(0, 0, 0, 0)));
      head, tail, partial := 0, 0, 0;
      delivered := [];
    }

    /** nb_tx_used. */
    method Used() returns (n: nat)
      requires Valid()
      ensures n == |View().queue|
    {
      SegmentsLength(buf[..], tail, head);
      n := (head + TXRING - tail) % TXRING;
    }

    /** A new connection starts from the handshake packets, sent around the ring. */
    method Restart(ghost handshake: seq<Pkt>)
      requires Valid()
      modifies this
      ensures Valid() && View() == Tx(handshake, [], 0)
    {
      head, tail, partial := 0, 0, 0;
      delivered := handshake;
    }

    method Push(p: Pkt)
      requires Valid() && !View().Full()
      modifies this, buf
      ensures Valid() && View() == old(View()).Push(p)
    {
      SegmentsLength(buf[..], tail, head);
      SegmentsPush(buf[..], tail, head, p);
      buf[head] := p;
      assert buf[..] == old(buf[..])[head := p];
      head := Next(head);
    }

    /** One write of the packet at the tail. */
    method Attempt(s: Send) returns (v: Verdict, ghost written: seq<Segment>)
      requires Valid() && tail != head
      modifies this
      ensures Valid() && (View(), written, v) == old(View()).Attempt(s)
    {
      SegmentsNext(buf[..], tail, head);
      written := [];
      match s {
        case Sent(n) =>
          var left := PKT_SIZE - partial;
          var k := if n > left then left else n;
          written := [Segment(buf[tail], partial, k)];
          partial := partial + k;
          if partial == PKT_SIZE {
            partial := 0;
            delivered := delivered + [buf[tail]];
            tail := Next(tail);
          }
          v := Again;
        case Interrupted =>
          v := Again;
        case WouldBlock =>
          v := Stop(true);
        case Broken =>
          v := Stop(false);
      }
    }

    /** nb_sink_flush, driven by the outcomes of its writes; `written` is what the socket took. */
    method Flush(sends: seq<Send>) returns (ok: bool, ghost written: seq<Segment>)
      requires Valid()
      modifies this
      ensures Valid() && (View(), written, ok) == old(View()).Flush(sends)
    {
      written := [];
      var i := 0;
      assert sends[i..] == sends;
      assert written + View().Flush(sends).1 == View().Flush(sends).1;
      while tail != head && i < |sends|
        invariant 0 <= i <= |sends|
        invariant Valid()
        invariant var f := View().Flush(sends[i..]); old(View()).Flush(sends) == (f.0, written + f.1, f.2)
        decreases |sends| - i
      {
        assert sends[i..][1..] == sends[i + 1..];
        var v;
        ghost var w;
        v, w := Attempt(sends[i]);
        Associate(written, w, View().Flush(sends[i + 1..]).1);
        written := written + w;
        if v.Stop? {
          return v.ok, written;
        }
        i := i + 1;
      }
      assert written + [] == written;
      ok := true;
    }

    /** One packet of the pass: merge it into a slot of the scratch array, or keep it. */
    static method Absorb(out: array<Pkt>, n: nat, absSlot: int, relSlot: int, frameSlot: int, p: Pkt)
      returns (n': nat, abs': int, rel': int, frame': int)
      requires n < out.Length && Pass(out[..n], absSlot, relSlot, frameSlot).Valid()
      modifies out
      ensures n <= n' <= n + 1
      ensures Pass(out[..n'], abs', rel', frame') == Step(old(Pass(out[..n], absSlot, relSlot, frameSlot)), p)
    {
      ghost var c := Pass(out[..n], absSlot, relSlot, frameSlot);
      n', abs', rel', frame' := n, absSlot, relSlot, frameSlot;
      if p.kind == Abs && absSlot >= 0 {
        out[absSlot] := out[absSlot].(seqno := p.seqno, body := p.body);
        assert out[..n] == c.out[absSlot := out[absSlot]];
      } else if p.kind == Rel && relSlot >= 0 {
        var kept := out[relSlot];
        out[relSlot] := kept.(seqno := p.seqno,
                              body := kept.body.(x := Clamp(kept.body.x as int + p.body.x as int),
                                                 y := Clamp(kept.body.y as int + p.body.y as int)));
        assert out[..n] == c.out[relSlot := out[relSlot]];
      } else if p.kind == Frame && frameSlot >= 0 {
        out[frameSlot] := out[frameSlot].(seqno := p.seqno);
        assert out[..n] == c.out[frameSlot := out[frameSlot]];
      } else {
        if p.kind == Abs {
          abs' := n;
        } else if p.kind == Rel {
          rel' := n;
        } else if p.kind == Frame {
          frame' := n;
        } else if p.kind == Grab || p.kind == Focus {
          abs', rel' := -1, -1;
        }
        out[n] := p;
        n' := n + 1;
        assert out[..n'] == c.out + [p];
      }
    }

    /** The pass itself, from the tail round to the head, into a scratch array. */
    method Sweep() returns (out: array<Pkt>, n: nat)
      requires Valid()
      ensures fresh(out) && out.Length == TXRING && n <= |Queue()|
      ensures out[..n] == TxQueue.Coalesce(Queue(), partial)
    {
      ghost var s, q := buf[..], Queue();
      out := new Pkt[TXRING](_ => Pkt(Hello, 0, 0, Args(0, 0, 0, 0)));
      n := 0;
      var cur: nat := tail;
      var absSlot, relSlot, frameSlot := -1, -1, -1;
      if partial > 0 {
        SegmentsNext(s, tail, head);
        out[0] := buf[cur];
        n, cur := 1, Next(cur);
      }
      assert out[..n] == Start(q, partial).out && Segments(s, cur, head) == Rest(q, partial);
      while cur != head
        invariant buf[..] == s && cur < TXRING
        invariant n + |Segments(s, cur, head)| <= |q|
        invariant Pass(out[..n], absSlot, relSlot, frameSlot).Valid()
        invariant Run(Pass(out[..n], absSlot, relSlot, frameSlot), Segments(s, cur, head)).out
                  == TxQueue.Coalesce(q, partial)
        decreases |Segments(s, cur, head)|
      {
        SegmentsNext(s, cur, head);
        RunCons(Pass(out[..n], absSlot, relSlot, frameSlot), buf[cur], Segments(s, Next(cur), head));
        n, absSlot, relSlot, frameSlot := Absorb(out, n, absSlot, relSlot, frameSlot, buf[cur]);
        cur := Next(cur);
      }
    }

    /** nb_tx_coalesce. */
    method Coalesce()
      requires Valid()
      modifies this, buf
      ensures Valid()
      ensures View() == old(View()).(queue := TxQueue.Coalesce(old(View()).queue, old(partial)))
    {
      var out, n := Sweep();
      CoalesceSize(Queue(), partial);
      CopyBack(out, n);
    }

    method CopyBack(out: array<Pkt>, n: nat)
      requires buf.Length == TXRING && n < TXRING && out.Length == TXRING && out != buf
      requires Tx(delivered, out[..n], partial).Valid()
      modifies this, buf
      ensures Valid() && View() == Tx(old(delivered), old(out[..n]), old(partial))
    {
      forall k | 0 <= k < n {
        buf[k] := out[k];
      }
      tail, head := 0, n;
      assert Segments(buf[..], 0, n) == buf[0..n] == out[..n];
    }
  }
}
