// The X11 backend: the buffer table, what it sends to the server, and what each frame costs
// the thread that also dispatches input.

module X11 {
  import opened Protocol
  import opened Formats
  import opened Descriptor
  import SinkModel

  const MAX_BUFS: nat := 8
  const WORK_BUDGET_BYTES: nat := 64 * 1024 * 1024
  const WORK_ROUNDTRIPS: nat := 4

  /** The dearest frame there is: the largest size, copied twice. */
  const MAX_FRAME_WORK: nat := 2 * 4 * MAX_DIM * MAX_DIM

  const MOD_INVALID: Uint64 := 0x00FF_FFFF_FFFF_FFFF

  // ---- one wakeup's allowances ----------------------------------------------------------------

  class Work {
    var bytes: nat
    var trips: nat

    // History: how often this wakeup has waited for the display server.
    ghost var waits: nat

    ghost predicate Valid()
      reads this
    {
      waits <= trips <= WORK_ROUNDTRIPS
    }

    constructor ()
      ensures Valid() && bytes == 0 && trips == 0
    {
      bytes, trips, waits := 0, 0, 0;
    }

    method Renew()
      modifies this
      ensures Valid() && bytes == 0 && trips == 0 && waits == 0
    {
      bytes, trips, waits := 0, 0, 0;
    }

    /** nb_sink_charge_work. */
    method Charge(n: nat)
      modifies this`bytes
      ensures bytes == old(bytes) + n
    {
      bytes := bytes + n;
    }

    /** nb_sink_take_roundtrip. */
    method TakeRoundtrip() returns (granted: bool)
      requires Valid()
      modifies this`trips
      ensures Valid() && granted == (old(trips) < WORK_ROUNDTRIPS)
      ensures trips == old(trips) + (if granted then 1 else 0)
    {
      if trips >= WORK_ROUNDTRIPS {
        return false;
      }
      trips := trips + 1;
      return true;
    }

    /** nb_work_spent. */
    predicate Spent()
      reads this
    {
      bytes >= WORK_BUDGET_BYTES
    }
  }

  // ---- a frame, row by row ------------------------------------------------------------------------

  /** How far apart the starts of row 0 and row `rows` are. */
  function Span(pitch: nat, rows: nat): nat {
    if rows == 0 then 0 else Span(pitch, rows - 1) + pitch
  }

  lemma {:induction false} SpanIsProduct(pitch: nat, rows: nat)
    ensures Span(pitch, rows) == pitch * rows
  {
    if rows > 0 {
      SpanIsProduct(pitch, rows - 1);
      assert pitch * (rows - 1) + pitch == pitch * rows;
    }
  }

  lemma {:induction false} SpanAdds(pitch: nat, y: nat, n: nat)
    ensures Span(pitch, y) + Span(pitch, n) == Span(pitch, y + n)
  {
    if n > 0 {
      SpanAdds(pitch, y, n - 1);
    }
  }

  /** The first `packed` bytes of each of the first `h` rows, in order. */
  function Rows(src: seq<Byte>, offset: nat, stride: nat, packed: nat, h: nat): (img: seq<Byte>)
    requires packed <= stride && offset + Span(stride, h) <= |src|
    ensures |img| == Span(packed, h)
  {
    if h == 0 then []
    else
      var at := offset + Span(stride, h - 1);
      Rows(src, offset, stride, packed, h - 1) + src[at..at + packed]
  }

  /** What a shared-memory buffer shows. */
  function Picture(d: Desc, contents: seq<Byte>): (img: seq<Byte>)
    requires d.Bounded() && |contents| == d.Extent()
    ensures |img| == Span(4 * d.width as int, d.height)
  {
    SpanIsProduct(d.stride, d.height);
    Rows(contents, d.offset, d.stride, 4 * d.width as int, d.height)
  }

  lemma {:induction false} RowsAt(src: seq<Byte>, offset: nat, stride: nat, packed: nat, h: nat, y: nat, k: nat)
    requires packed <= stride && offset + Span(stride, h) <= |src| && y < h && k < packed
    ensures Span(packed, y) + k < Span(packed, h) && offset + Span(stride, y) + k < |src|
    ensures Rows(src, offset, stride, packed, h)[Span(packed, y) + k] == src[offset + Span(stride, y) + k]
  {
    if y < h - 1 {
      RowsAt(src, offset, stride, packed, h - 1, y, k);
    }
  }

  /** Where byte `b` of pixel (x, y) is in a packed picture `w` pixels wide. */
  function PixelIndex(w: nat, x: nat, y: nat, b: nat): nat {
    (y * w + x) * 4 + b
  }

  lemma IndexByRow(w: nat, x: nat, y: nat, b: nat)
    ensures PixelIndex(w, x, y, b) == Span(4 * w, y) + (4 * x + b)
  {}

  lemma AddressByRow(d: Desc, x: nat, y: nat, b: nat)
    requires d.bpp == 4
    ensures Address(d, x, y, b) == d.offset as int + Span(d.stride, y) + (4 * x + b)
  {}

  /** Pixel by pixel: the picture is the buffer's, with the gaps between rows gone. */
  lemma PictureShowsPixels(d: Desc, contents: seq<Byte>, x: nat, y: nat, b: nat)
    requires d.Bounded() && |contents| == d.Extent() && IsPixelByte(d, x, y, b)
    ensures PixelIndex(d.width, x, y, b) < |Picture(d, contents)| && Address(d, x, y, b) < |contents|
    ensures Picture(d, contents)[PixelIndex(d.width, x, y, b)] == contents[Address(d, x, y, b)]
  {
    IndexByRow(d.width, x, y, b);
    AddressByRow(d, x, y, b);
    assert d.Extent() == d.offset as int + Span(d.stride, d.height) by {
      SpanIsProduct(d.stride, d.height);
    }
    RowsAt(contents, d.offset, d.stride, 4 * d.width as int, d.height, y, 4 * x + b);
  }

  /** When rows are already packed there are no gaps to remove. */
  lemma {:induction false} RowsPacked(src: seq<Byte>, offset: nat, packed: nat, h: nat)
    requires offset + Span(packed, h) <= |src|
    ensures Rows(src, offset, packed, packed, h) == src[offset..offset + Span(packed, h)]
  {
    if h > 0 {
      RowsPacked(src, offset, packed, h - 1);
      var at := offset + Span(packed, h - 1);
      assert src[offset..at] + src[at..at + packed] == src[offset..at + packed];
    }
  }

  /** The size of `rows` rows. */
  method Size(pitch: nat, rows: nat) returns (n: nat)
    ensures n == Span(pitch, rows)
  {
    SpanIsProduct(pitch, rows);
    n := pitch * rows;
  }

  /** The row-by-row copy of a frame whose rows are not packed. */
  method PackRows(src: seq<Byte>, offset: nat, stride: nat, packed: nat, h: nat) returns (tmp: array<Byte>)
    requires packed <= stride && offset + Span(stride, h) <= |src|
    ensures fresh(tmp) && tmp[..] == Rows(src, offset, stride, packed, h)
  {
    var size := Size(packed, h);
    tmp := new Byte[size](_ => 0);
    var y, from, to := 0, offset, 0;
    while y < h
      invariant 0 <= y <= h && to == Span(packed, y) && from == offset + Span(stride, y)
      invariant to <= tmp.Length && from <= |src|
      invariant tmp[..to] == Rows(src, offset, stride, packed, y)
    {
      RoomForRow(packed, y, h);
      RoomForRow(stride, y, h);
      CopyRow(src, from, tmp, to, packed);
      RowsNext(src, offset, stride, packed, y);
      y, from, to := y + 1, from + stride, to + packed;
    }
    assert tmp[..to] == tmp[..];
  }

  lemma RoomForRow(pitch: nat, y: nat, h: nat)
    requires y < h
    ensures Span(pitch, y) + pitch == Span(pitch, y + 1) <= Span(pitch, h)
  {
    SpanAdds(pitch, y + 1, h - (y + 1));
  }

  lemma RowsNext(src: seq<Byte>, offset: nat, stride: nat, packed: nat, y: nat)
    requires packed <= stride && offset + Span(stride, y) + stride <= |src|
    ensures var at := offset + Span(stride, y);
            Rows(src, offset, stride, packed, y + 1) == Rows(src, offset, stride, packed, y) + src[at..at + packed]
  {}

  /** memcpy of one row. */
  method CopyRow(src: seq<Byte>, from: nat, tmp: array<Byte>, to: nat, n: nat)
    requires from + n <= |src| && to + n <= tmp.Length
    modifies tmp
    ensures tmp[..to + n] == old(tmp[..to]) + src[from..from + n]
  {
    forall k | 0 <= k < n {
      tmp[to + k] := src[from + k];
    }
    assert tmp[..to] == old(tmp[..to]);
    assert tmp[to..to + n] == src[from..from + n];
    assert tmp[..to + n] == tmp[..to] + tmp[to..to + n];
  }

  /** One PutImage: `rows` rows from row `y` on. */
  datatype Band = Band(y: nat, rows: nat, bytes: seq<Byte>)

  function Pushed(bands: seq<Band>): seq<Byte> {
    if bands == [] then [] else Pushed(bands[..|bands| - 1]) + bands[|bands| - 1].bytes
  }

  lemma PushedSnoc(bands: seq<Band>, b: Band)
    ensures Pushed(bands + [b]) == Pushed(bands) + b.bytes
  {}

  /** Each band starts where the one before it ended, and holds at most `limit` whole rows. */
  predicate Banded(bands: seq<Band>, packed: nat, limit: nat, upTo: nat) {
    if bands == [] then upTo == 0
    else
      var b := bands[|bands| - 1];
      && b.y + b.rows == upTo && 0 < b.rows <= limit && |b.bytes| == Span(packed, b.rows)
      && Banded(bands[..|bands| - 1], packed, limit, b.y)
  }

  /** How many rows of `w` pixels one request takes; `maxreq` is the server's limit in pixels. */
  function BandRows(maxreq: Uint32, w: nat): (n: nat)
    ensures n >= 1
  {
    var rows := (if maxreq > 4096 then maxreq - 4096 else 1024) / (if w > 0 then w else 1);
    if rows < 1 then 1 else rows
  }

  /** The words of one PutImage of `rows` rows: its header and its pixels. */
  function RequestWords(rows: nat, w: nat): nat {
    6 + rows * w
  }

  /** Every request is one the server takes. */
  predicate AllFit(bands: seq<Band>, w: nat, maxreq: nat) {
    forall b <- bands :: RequestWords(b.rows, w) <= maxreq
  }

  /**
   * A band of the chosen height fits a request exactly when a single row does: a row too long for the
   * server is sent all the same.  The server's limit is at least 4096 words.
   */
  lemma BandFitsIff(maxreq: Uint32, w: nat)
    requires maxreq >= 4096 && w > 0
    ensures RequestWords(BandRows(maxreq, w), w) <= maxreq <==> RequestWords(1, w) <= maxreq
  {
    var room := if maxreq > 4096 then maxreq - 4096 else 1024;
    WholeRows(room, w);
    if room / w >= 1 {
      assert BandRows(maxreq, w) == room / w;
      MoreRows(1, room / w, w);
    } else {
      assert BandRows(maxreq, w) == 1;
    }
  }

  lemma WholeRows(room: nat, w: nat)
    requires w > 0
    ensures RequestWords(room / w, w) <= 6 + room
  {
    assert room == (room / w) * w + room % w;
  }

  /** The longest row there may be does not fit the shortest limit there may be. */
  lemma RowTooLong()
    ensures BandRows(4096, MAX_DIM) == 1 && RequestWords(1, MAX_DIM) > 4096
  {}

  lemma {:induction false} BandsBounded(bands: seq<Band>, packed: nat, limit: nat, upTo: nat)
    requires Banded(bands, packed, limit, upTo)
    ensures forall b <- bands :: 0 < b.rows <= limit
    ensures upTo > 0 ==> bands != []
  {
    if bands != [] {
      var last := bands[|bands| - 1];
      BandsBounded(bands[..|bands| - 1], packed, limit, last.y);
      assert forall b <- bands :: b == last || b in bands[..|bands| - 1];
    }
  }

  lemma MoreRows(a: nat, b: nat, w: nat)
    requires a <= b
    ensures RequestWords(a, w) <= RequestWords(b, w)
  {}

  lemma AllFitIff(bands: seq<Band>, w: nat, h: nat, maxreq: Uint32)
    requires Banded(bands, 4 * w, BandRows(maxreq, w), h) && maxreq >= 4096 && w > 0 && h > 0
    ensures AllFit(bands, w, maxreq) <==> RequestWords(1, w) <= maxreq
  {
    BandsBounded(bands, 4 * w, BandRows(maxreq, w), h);
    BandFitsIff(maxreq, w);
    MoreRows(1, bands[0].rows, w);
    assert bands[0] in bands;
    forall b <- bands ensures RequestWords(b.rows, w) <= RequestWords(BandRows(maxreq, w), w) {
      MoreRows(b.rows, BandRows(maxreq, w), w);
    }
  }

  lemma BandedSnoc(bands: seq<Band>, packed: nat, limit: nat, upTo: nat, b: Band)
    requires Banded(bands, packed, limit, upTo)
    requires b.y == upTo && 0 < b.rows <= limit && |b.bytes| == Span(packed, b.rows)
    ensures Banded(bands + [b], packed, limit, upTo + b.rows)
  {}

  /** x11_blit: the bands, put back together, are the picture. */
  method Blit(px: seq<Byte>, w: nat, h: nat, maxreq: Uint32) returns (bands: seq<Band>)
    requires |px| == Span(4 * w, h)
    ensures Pushed(bands) == px && Banded(bands, 4 * w, BandRows(maxreq, w), h)
    ensures maxreq >= 4096 && w > 0 && h > 0 ==> (AllFit(bands, w, maxreq) <==> RequestWords(1, w) <= maxreq)
  {
    var rows, packed := BandRows(maxreq, w), 4 * w;
    bands := [];
    var y, at := 0, 0;
    while y < h
      invariant 0 <= y <= h && at == Span(packed, y) <= |px|
      invariant Pushed(bands) == px[..at] && Banded(bands, packed, rows, y)
    {
      var n := if h - y < rows then h - y else rows;
      var len := Size(packed, n);
      assert at + len == Span(packed, y + n) <= |px| by {
        SpanAdds(packed, y, n);
        SpanAdds(packed, y + n, h - (y + n));
      }
      var b := Band(y, n, px[at..at + len]);
      PushedSnoc(bands, b);
      BandedSnoc(bands, packed, rows, y, b);
      assert px[..at] + b.bytes == px[..at + len];
      bands, y, at := bands + [b], y + n, at + len;
    }
    assert px[..at] == px;
    if maxreq >= 4096 && w > 0 && h > 0 {
      AllFitIff(bands, w, h, maxreq);
    }
  }

  // ---- the buffer table --------------------------------------------------------------------------------

  /** `mapped` buffers are shared memory; the others are pixmaps the server imported. */
  datatype Slot = Free | Used(desc: Desc, mapped: bool, tick: nat)

  /** The geometry of an import request, in the protocol's own field widths. */
  datatype Import =
    | Implicit(size: Uint32, width: Uint16, height: Uint16, stride: Uint16)
    | Explicit(width: Uint16, height: Uint16, pitch: Uint32, offset: Uint32, modifier: Uint64)

  function Cast16(v: nat): Uint16 {
    v % 0x1_0000
  }

  function Cast32(v: nat): Uint32 {
    v % 0x1_0000_0000
  }

  lemma FitsField(v: nat)
    requires v < 0x1_0000
    ensures Cast16(v) == v
  {}

  /** The server is asked to import the buffer that was validated, not one a cast made of it. */
  predicate Asks(m: Import, d: Desc) {
    match m
    case Implicit(size, width, height, stride) =>
      size == d.size && width == d.width && height == d.height && stride == d.stride
    case Explicit(width, height, pitch, offset, modifier) =>
      width == d.width && height == d.height && pitch == d.stride && offset == d.offset && modifier == d.modifier
  }

  /** An implicit layout has to fit the narrow fields of the old request. */
  predicate Describable(d: Desc) {
    d.modifier == MOD_INVALID ==> d.stride <= 0xFFFF && d.size <= 0xFFFF_FFFF
  }

  /** What the system and the server answer to one ATTACH. */
  datatype AttachReply = AttachReply(mapOk: bool, dupOk: bool, importOk: bool)

  /** The key a pixmap is remembered by. */
  predicate SameBuffer(d: Desc, e: Desc) {
    && d.id == e.id && d.width == e.width && d.height == e.height && d.stride == e.stride
    && d.offset == e.offset && d.fourcc == e.fourcc && d.modifier == e.modifier
  }

  /** A buffer as the table holds it: shared memory has no modifier there. */
  function AsHeld(d: Desc): Desc {
    if d.shm then d.(modifier := 0) else d
  }

  /** The buffer is the guest's again: its identity, in two words. */
  function ReleaseOf(id: Uint64): (r: SinkModel.Report)
    ensures r.Released? && r.lo as int + 0x1_0000_0000 * r.hi as int == id
  {
    SinkModel.Released(id % 0x1_0000_0000, id / 0x1_0000_0000)
  }

  /** What one COMMIT showed, and told the sink. */
  datatype Shown = Nothing | Pixels(bands: seq<Band>) | Pixmap(scaled: bool)

  /** Bytes moved to put a shared-memory frame on screen. */
  function FrameWork(d: Desc): (n: nat)
    requires d.Bounded()
    ensures n <= MAX_FRAME_WORK
  {
    AreaBounded(d.width, d.height);
    var packed := d.width as int * 4;
    packed * d.height as int * (if d.stride as int != packed then 2 else 1)
  }

  lemma AreaBounded(w: nat, h: nat)
    requires w <= MAX_DIM && h <= MAX_DIM
    ensures (w * 4) * h * 2 <= MAX_FRAME_WORK && (w * 4) * h * 1 <= MAX_FRAME_WORK
  {}

  /** The slot was free, or of those not pinned none had been in use for longer. */
  predicate VictimWas(slots: seq<Slot>, victim: int, current: int, pending: int) {
    && 0 <= victim < |slots|
    && (slots[victim].Used? ==> forall j :: 0 <= j < |slots| && j != current && j != pending
                                            ==> slots[j].Used? && slots[victim].tick <= slots[j].tick)
  }

  class Backend {
    const bufs: array<Slot>
    var current: int
    var pending: int
    var tick: nat
    var grabbed: bool

    ghost predicate Valid()
      reads this, bufs
    {
      && bufs.Length == MAX_BUFS && -1 <= current < MAX_BUFS && -1 <= pending < MAX_BUFS
      && forall i :: 0 <= i < MAX_BUFS && bufs[i].Used? ==> bufs[i].desc.Bounded() && bufs[i].mapped == bufs[i].desc.shm
    }

    constructor ()
      ensures Valid() && fresh(bufs) && !grabbed
    {
      bufs := new Slot[MAX_BUFS](_ => Free);
      current, pending, tick, grabbed := -1, -1, 0, false;
    }

    /** On screen, or about to be. */
    predicate Pinned(i: int)
      reads this
    {
      i == current || i == pending
    }

    /** Two pins cannot hold eight slots. */
    lemma SomeUnpinned()
      ensures !Pinned(0) || !Pinned(1) || !Pinned(2)
    {}

    /** The first slot that is not pinned. */
    method UnpinnedSlot() returns (i: nat)
      requires Valid()
      ensures i < MAX_BUFS && !Pinned(i)
    {
      i := 0;
      SomeUnpinned();
      while i < MAX_BUFS && Pinned(i)
        invariant 0 <= i <= MAX_BUFS
        invariant forall j :: 0 <= j < i ==> Pinned(j)
      {
        i := i + 1;
      }
    }

    /** A pixmap already imported for exactly this buffer. */
    method FindHit(d: Desc) returns (hit: int)
      requires Valid()
      ensures -1 <= hit < MAX_BUFS
      ensures hit >= 0 ==> bufs[hit].Used? && SameBuffer(bufs[hit].desc, d)
      ensures hit < 0 ==> forall i :: 0 <= i < MAX_BUFS && bufs[i].Used? ==> !SameBuffer(bufs[i].desc, d)
    {
      var i := 0;
      while i < MAX_BUFS
        invariant 0 <= i <= MAX_BUFS
        invariant forall j :: 0 <= j < i && bufs[j].Used? ==> !SameBuffer(bufs[j].desc, d)
      {
        if bufs[i].Used? && SameBuffer(bufs[i].desc, d) {
          return i;
        }
        i := i + 1;
      }
      hit := -1;
    }

    /** Some slot holds exactly this buffer. */
    predicate Holds(d: Desc)
      requires bufs.Length == MAX_BUFS
      reads this, bufs
    {
      exists i :: 0 <= i < MAX_BUFS && bufs[i].Used? && SameBuffer(bufs[i].desc, d)
    }

    /**
     * Shared memory that can be mapped; a pixmap the table holds; or a dma-buf that can be described,
     * with an allowance to wait for the server, which imports it.
     */
    predicate Takes(d: Desc, e: AttachReply, trips: nat)
      requires bufs.Length == MAX_BUFS
      reads this, bufs
    {
      if d.shm then e.mapOk
      else Holds(d) || (trips < WORK_ROUNDTRIPS && e.dupOk && Describable(d) && e.importOk)
    }

    /** The slot an import may use: a free one, or else the least recently used that is not pinned. */
    method PickVictim() returns (victim: int)
      requires Valid()
      ensures 0 <= victim < MAX_BUFS && !Pinned(victim)
      ensures bufs[victim].Used? ==> Oldest(victim, MAX_BUFS)
    {
      victim := -1;
      SomeUnpinned();
      var i := 0;
      while i < MAX_BUFS
        invariant 0 <= i <= MAX_BUFS && -1 <= victim < i
        invariant victim < 0 ==> forall j :: 0 <= j < i ==> Pinned(j)
        invariant victim >= 0 ==> !Pinned(victim) && bufs[victim].Used? && Oldest(victim, i)
      {
        if !Pinned(i) {
          if bufs[i].Free? {
            return i;
          }
          if victim < 0 || bufs[i].tick < bufs[victim].tick {
            victim := i;
          }
        }
        i := i + 1;
      }
    }

    /** Of the first `n` slots, those not pinned are in use, and none for longer than this one. */
    ghost predicate Oldest(victim: int, n: nat)
      requires Valid() && 0 <= victim < MAX_BUFS && bufs[victim].Used? && n <= MAX_BUFS
      reads this, bufs
    {
      forall j :: 0 <= j < n && !Pinned(j) ==> bufs[j].Used? && bufs[victim].tick <= bufs[j].tick
    }

    /** Slot `i` now holds `d`, for the next COMMIT to show. */
    method Stage(i: int, d: Desc)
      requires Valid() && 0 <= i < MAX_BUFS && i != current && d.Bounded()
      modifies this`pending, bufs
      ensures Valid() && pending == i && bufs[i] == Used(AsHeld(d), d.shm, tick)
      ensures forall j :: 0 <= j < MAX_BUFS && j != i ==> bufs[j] == old(bufs[j])
    {
      bufs[i] := Used(AsHeld(d), d.shm, tick);
      pending := i;
    }

    /** The import request, short of sending it. */
    static method Describe(d: Desc) returns (m: Option<Import>)
      requires d.Bounded()
      ensures m.Some? ==> Asks(m.value, d)
      ensures m.Some? <==> Describable(d)
    {
      FitsField(d.width);
      FitsField(d.height);
      if d.modifier == MOD_INVALID {
        if d.stride > 0xFFFF || d.size > 0xFFFF_FFFF {
          return None;
        }
        FitsField(d.stride);
        m := Some(Implicit(Cast32(d.size), Cast16(d.width), Cast16(d.height), Cast16(d.stride)));
      } else {
        m := Some(Explicit(Cast16(d.width), Cast16(d.height), d.stride, d.offset, d.modifier));
      }
    }

    /**
     * x11_attach: nothing on screen is disturbed, the server is waited for at most once and only with
     * an allowance, and what it is asked to import is what was validated.
     */
    method AttachBuffer(d: Desc, e: AttachReply, work: Work) returns (ok: bool, sent: Option<Import>)
      requires Valid() && work.Valid() && d.Bounded()
      modifies this`tick, this`pending, bufs, work
      ensures Valid() && work.Valid() && work.bytes == old(work.bytes)
      ensures current >= 0 ==>
                || bufs[current] == old(bufs[current])
                || (old(bufs[current]).Used? && bufs[current] == old(bufs[current]).(tick := tick))
      ensures ok ==> 0 <= pending && bufs[pending].Used? && SameBuffer(bufs[pending].desc, AsHeld(d))
      ensures !ok ==> pending == old(pending) && bufs[..] == old(bufs[..])
      ensures sent.Some? ==> Asks(sent.value, d) && old(work.trips) < WORK_ROUNDTRIPS
      ensures work.waits == old(work.waits) + (if sent.Some? then 1 else 0) && work.trips <= old(work.trips) + 1
      ensures d.shm ==> work.trips == old(work.trips)
      ensures ok == old(Takes(d, e, work.trips))
      ensures sent.Some? <==> !d.shm && !old(Holds(d)) && old(work.trips) < WORK_ROUNDTRIPS && e.dupOk && Describable(d)
      ensures tick == old(tick) + 1 && (ok ==> bufs[pending].tick == tick)
      ensures ok ==> forall j :: 0 <= j < MAX_BUFS && j != pending ==> bufs[j] == old(bufs[j])
      ensures ok && !d.shm && !old(Holds(d)) ==> VictimWas(old(bufs[..]), pending, current, old(pending))
      ensures ok && (d.shm || !old(Holds(d))) ==>
                bufs[pending] == Used(AsHeld(d), d.shm, tick) && pending != current && pending != old(pending)
    {
      tick := tick + 1;
      sent := None;
      if d.shm {
        if !e.mapOk {
          return false, None;
        }
        var i := UnpinnedSlot();
        Stage(i, d);
        return true, None;
      }
      var hit := FindHit(d);
      if hit >= 0 {
        bufs[hit] := bufs[hit].(tick := tick);
        pending := hit;
        return true, None;
      }
      var victim := PickVictim();
      var granted := work.TakeRoundtrip();
      if !granted || !e.dupOk {
        return false, None;
      }
      sent := Describe(d);
      if sent.None? {
        return false, None;
      }
      work.waits := work.waits + 1;
      if !e.importOk {
        return false, sent;
      }
      Stage(victim, d);
      ok := true;
    }

    /** A buffer is staged, and a packed copy can be had if it needs one. */
    predicate Presentable(i: int, allocOk: bool)
      requires bufs.Length == MAX_BUFS && -1 <= i < MAX_BUFS
      reads this, bufs
    {
      && i >= 0 && bufs[i].Used?
      && (bufs[i].mapped && bufs[i].desc.stride as int != 4 * bufs[i].desc.width as int ==> allocOk)
    }

    /** Pixels that were copied are the guest's again, and pushed ones ask for the next frame; a pixmap is kept. */
    function FrameReports(i: int, allocOk: bool, scaled: bool): seq<SinkModel.Report>
      requires bufs.Length == MAX_BUFS && -1 <= i < MAX_BUFS
      reads this, bufs
    {
      if !Presentable(i, allocOk) then []
      else if bufs[i].mapped then [ReleaseOf(bufs[i].desc.id), SinkModel.Paced]
      else if scaled then [ReleaseOf(bufs[i].desc.id)]
      else []
    }

    /**
     * x11_commit: a shared-memory frame goes out pixel for pixel and is charged for; the buffer is
     * then released and the next frame asked for.  `contents` is what the mapping holds just then.
     */
    method Commit(contents: seq<Byte>, allocOk: bool, scaled: bool, maxreq: Uint32, work: Work)
      returns (shown: Shown, reports: seq<SinkModel.Report>)
      requires Valid()
      requires pending >= 0 && bufs[pending].Used? && bufs[pending].mapped ==> |contents| == bufs[pending].desc.Extent()
      modifies this`current, this`pending, work`bytes
      ensures Valid()
      ensures shown != Nothing <==> Presentable(old(pending), allocOk)
      ensures shown != Nothing ==> current == old(pending) && pending == -1
      ensures shown == Nothing ==> current == old(current) && reports == []
      ensures shown == Nothing ==> pending == if old(pending) >= 0 && bufs[old(pending)].Free? then -1 else old(pending)
      ensures shown != Nothing ==> (shown.Pixels? <==> bufs[current].mapped) && (shown.Pixmap? ==> shown.scaled == scaled)
      ensures shown.Pixels? ==>
                && |contents| == bufs[current].desc.Extent()
                && Pushed(shown.bands) == Picture(bufs[current].desc, contents)
                && work.bytes == old(work.bytes) + FrameWork(bufs[current].desc)
      ensures !shown.Pixels? ==> work.bytes == old(work.bytes)
      ensures work.bytes <= old(work.bytes) + MAX_FRAME_WORK
      ensures reports == old(FrameReports(pending, allocOk, scaled))
    {
      reports := [];
      if pending < 0 {
        return Nothing, [];
      }
      if bufs[pending].Free? {
        pending := -1;
        return Nothing, [];
      }
      var d := bufs[pending].desc;
      if bufs[pending].mapped {
        var packed := d.width as int * 4;
        if d.stride as int != packed && !allocOk {
          return Nothing, [];
        }
        var px := Frame(d, contents);
        var bands := Blit(px, d.width, d.height, maxreq);
        work.Charge(FrameWork(d));
        current, pending := pending, -1;
        return Pixels(bands), [ReleaseOf(d.id), SinkModel.Paced];
      }
      current, pending := pending, -1;
      shown := Pixmap(scaled);
      reports := if scaled then [ReleaseOf(d.id)] else [];
    }

    /** What a push sends: the mapping as it is if its rows are contiguous, else a packed copy. */
    static method Frame(d: Desc, contents: seq<Byte>) returns (px: seq<Byte>)
      requires d.Bounded() && |contents| == d.Extent()
      ensures px == Picture(d, contents)
    {
      var packed := 4 * d.width as int;
      if d.stride as int != packed {
        SpanIsProduct(d.stride, d.height);
        var tmp := PackRows(contents, d.offset, d.stride, packed, d.height);
        px := tmp[..];
      } else {
        SpanIsProduct(packed, d.height);
        RowsPacked(contents, d.offset, packed, d.height);
        px := contents[d.offset..d.offset as int + packed * d.height as int];
      }
    }

    /** x11_set_grab: taking the grab needs both devices, dropping it never fails. */
    method SetGrab(on: bool, keyboardOk: bool, pointerOk: bool) returns (ok: bool)
      modifies this`grabbed
      ensures ok == (!on || old(grabbed) || (keyboardOk && pointerOk))
      ensures grabbed == if ok then on else old(grabbed)
    {
      if grabbed == on {
        return true;
      }
      if on && (!keyboardOk || !pointerOk) {
        return false;
      }
      grabbed := on;
      ok := true;
    }
  }
}
