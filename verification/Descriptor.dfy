// What ATTACH accepts, and why no reader of an accepted buffer leaves it.

module Descriptor {
  import opened Protocol
  import opened Formats

  const MAX_DIM: nat := 8192

  /** What the broker measures on the file descriptor itself. */
  datatype Fd = Fd(dmabuf: bool, tmpfs: bool, sealedShrink: bool, size: int, inode: Option<Uint64>)

  /** The descriptor fields of an ATTACH command. */
  datatype Request = Request(shm: bool, width: Uint32, height: Uint32, stride: Uint32, offset: Uint32,
                             fourcc: Uint32, modifier: Uint64, seqno: Uint32)

  datatype Session = Session(acceptShm: bool, acceptMemfd: bool, formatOk: Pair -> bool)

  /** struct nb_buf_desc: what a backend is handed. */
  datatype Desc = Desc(id: Uint64, size: nat, width: Uint32, height: Uint32, stride: Uint32, offset: Uint32,
                       fourcc: Uint32, modifier: Uint64, bpp: nat, shm: bool, seqno: Uint32) {
    /** One past the last byte of the last row. */
    function Extent(): nat {
      stride as int * height as int + offset as int
    }

    /** The bounds every backend relies on. */
    predicate Bounded() {
      && 0 < width <= MAX_DIM && 0 < height <= MAX_DIM
      && bpp == 4
      && width as int * bpp <= stride as int <= 2 * (width as int * bpp) + 4096
      && Extent() <= INT32_MAX && Extent() <= size
    }
  }

  /** The two questions about the fd's identity; neither answers the other. */
  predicate FdOk(s: Session, r: Request, fd: Fd) {
    if r.shm then s.acceptShm && fd.tmpfs && fd.sealedShrink
    else fd.dmabuf || (s.acceptMemfd && fd.tmpfs)
  }

  function UseFourcc(s: Session, r: Request): Option<Uint32> {
    if r.shm then (if r.fourcc == XR24 || r.fourcc == AR24 then Some(r.fourcc) else None)
    else Resolve(s.formatOk, r.fourcc, r.modifier)
  }

  /** nb_validate_desc. */
  function Validate(s: Session, r: Request, fd: Fd): (d: Option<Desc>)
    ensures d.Some? ==> d.value.Bounded()
  {
    if !FdOk(s, r, fd) then None
    else if r.width == 0 || r.height == 0 || r.width > MAX_DIM || r.height > MAX_DIM then None
    else match UseFourcc(s, r)
      case None => None
      case Some(fourcc) =>
        var bpp := BytesPerPixel(fourcc);
        if bpp == 0 then None
        else
          var row := r.width as int * bpp;
          if r.stride as int < row || r.stride as int > row * 2 + 4096 then None
          else if fd.size <= 0 then None
          else
            var need := r.stride as int * r.height as int + r.offset as int;
            if need > INT32_MAX || need > fd.size || fd.inode.None? then None
            else Some(Desc(fd.inode.value, fd.size, r.width, r.height, r.stride, r.offset,
                           fourcc, r.modifier, bpp, r.shm, r.seqno))
  }

  // ---- what is accepted, and as what --------------------------------------------

  /**
   * The format a buffer is handed on as.  Shared memory: its own, one of two.  A dma-buf: its own if the
   * display advertises that, else its opaque twin if the display advertises that.
   */
  predicate HandedOnAs(s: Session, r: Request, fourcc: Uint32) {
    if r.shm then fourcc == r.fourcc && (fourcc == XR24 || fourcc == AR24)
    else if s.formatOk(Pair(r.fourcc, r.modifier)) then fourcc == r.fourcc
    else && s.formatOk(Pair(fourcc, r.modifier))
         && ((r.fourcc == AR24 && fourcc == XR24) || (r.fourcc == AB24 && fourcc == XB24))
  }

  /** `d` is the client's request, with the identity and size measured on the fd, within all bounds. */
  predicate Accepts(s: Session, r: Request, fd: Fd, d: Desc) {
    && (if r.shm then s.acceptShm && fd.tmpfs && fd.sealedShrink else fd.dmabuf || (s.acceptMemfd && fd.tmpfs))
    && fd.inode == Some(d.id) && fd.size == d.size
    && d.width == r.width && d.height == r.height && d.stride == r.stride && d.offset == r.offset
    && d.modifier == r.modifier && d.shm == r.shm && d.seqno == r.seqno
    && HandedOnAs(s, r, d.fourcc) && d.fourcc in {XR24, AR24, XB24, AB24} && d.Bounded()
  }

  lemma TwinResolves(s: Session, r: Request, fourcc: Uint32)
    ensures UseFourcc(s, r) == Some(fourcc) <==> HandedOnAs(s, r, fourcc)
  {}

  /** ATTACH accepts exactly what the request, the fd and the display together describe, and as nothing else. */
  lemma AcceptedIff(s: Session, r: Request, fd: Fd, d: Desc)
    ensures Validate(s, r, fd) == Some(d) <==> Accepts(s, r, fd, d)
  {
    TwinResolves(s, r, d.fourcc);
    if Validate(s, r, fd).Some? {
      TwinResolves(s, r, Validate(s, r, fd).value.fourcc);
    }
    if Accepts(s, r, fd, d) {
      RowFits(0, r.stride, r.height);
    }
  }

  /** No backend is handed a pair its display has not advertised. */
  lemma AcceptedIsAdvertised(s: Session, r: Request, fd: Fd)
    ensures var d := Validate(s, r, fd); d.Some? && !d.value.shm ==> s.formatOk(Pair(d.value.fourcc, d.value.modifier))
  {
    if Validate(s, r, fd).Some? {
      AcceptedIff(s, r, fd, Validate(s, r, fd).value);
    }
  }

  // ---- the buffer as an address map -------------------------------------------

  /** Where byte `b` of pixel (x, y) lies. */
  function Address(d: Desc, x: nat, y: nat, b: nat): nat {
    d.offset as int + y * d.stride as int + x * d.bpp + b
  }

  predicate IsPixelByte(d: Desc, x: nat, y: nat, b: nat) {
    x < d.width && y < d.height && b < d.bpp
  }

  lemma InRow(d: Desc, x: nat, b: nat)
    requires d.Bounded() && x < d.width && b < d.bpp
    ensures x * d.bpp + b < d.width as int * d.bpp <= d.stride as int
  {}

  lemma RowFits(y: nat, stride: nat, height: nat)
    requires y < height
    ensures y * stride + stride <= stride * height
  {
    assert (y + 1) * stride <= height * stride;
  }

  /** Every byte of every pixel is inside the measured file, and its address fits an int32. */
  lemma PixelInside(d: Desc, x: nat, y: nat, b: nat)
    requires d.Bounded() && IsPixelByte(d, x, y, b)
    ensures Address(d, x, y, b) < d.size && Address(d, x, y, b) <= INT32_MAX
  {
    InRow(d, x, b);
    RowFits(y, d.stride, d.height);
  }

  /** No two pixels share a byte. */
  lemma PixelsDisjoint(d: Desc, x: nat, y: nat, b: nat, x': nat, y': nat, b': nat)
    requires d.Bounded() && IsPixelByte(d, x, y, b) && IsPixelByte(d, x', y', b')
    requires Address(d, x, y, b) == Address(d, x', y', b')
    ensures x == x' && y == y' && b == b'
  {
    InRow(d, x, b);
    InRow(d, x', b');
    SameQuotient(d.stride, y, x * d.bpp + b, y', x' * d.bpp + b');
    SameQuotient(d.bpp, x, b, x', b');
  }

  lemma SameQuotient(m: nat, q: nat, r: nat, q': nat, r': nat)
    requires r < m && r' < m && q * m + r == q' * m + r'
    ensures q == q' && r == r'
  {
    if q < q' {
      Below(m, q, r, q');
    } else if q' < q {
      Below(m, q', r', q);
    }
  }

  lemma Below(m: nat, q: nat, r: nat, q': nat)
    requires q < q' && r < m
    ensures q * m + r < q' * m
  {
    assert (q + 1) * m <= q' * m;
  }

  /** A C conversion to int32. */
  function CastInt32(v: nat): Int32 {
    Signed(v % 0x1_0000_0000)
  }

  lemma CastKeeps(v: nat)
    requires v <= INT32_MAX
    ensures CastInt32(v) == v
  {}

  /** The numbers a backend passes on as int32 are the numbers that were checked. */
  lemma ConversionsLossless(d: Desc)
    requires d.Bounded()
    ensures CastInt32(d.Extent()) == d.Extent()
    ensures CastInt32(d.offset) == d.offset && CastInt32(d.stride) == d.stride
    ensures CastInt32(d.width) == d.width && CastInt32(d.height) == d.height
  {
    RowFits(0, d.stride, d.height);
    CastKeeps(d.Extent());
    CastKeeps(d.offset);
    CastKeeps(d.stride);
    CastKeeps(d.width);
    CastKeeps(d.height);
  }

  /** A yes to QUERY_FORMAT binds the descriptor checks: none of them turns the pair down for its format. */
  lemma QueryIsBinding(s: Session, r: Request, fd: Fd, use: Uint32)
    requires !r.shm && Resolve(s.formatOk, r.fourcc, r.modifier) == Some(use)
    requires forall p: Pair :: s.formatOk(p) ==> BytesPerPixel(p.fourcc) != 0
    ensures Validate(s, r, fd).Some?
            <==> (fd.dmabuf || (s.acceptMemfd && fd.tmpfs)) && fd.inode.Some?
                 && Desc(0, if fd.size > 0 then fd.size else 0, r.width, r.height, r.stride, r.offset,
                         use, r.modifier, 4, false, 0).Bounded()
  {
    assert s.formatOk(Pair(use, r.modifier));
    if fd.size <= 0 && 0 < r.width && 0 < r.height && r.stride as int >= r.width as int * 4 {
      RowFits(0, r.stride, r.height);
    }
  }
}
