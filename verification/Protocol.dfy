// The event half of the broker's wire protocol: fixed 24-byte records travelling
// from the broker to the client (src/common/nvkvm_broker_proto.h).

module Protocol {

  type Byte = b: int | 0 <= b < 0x100
  type Int32 = x: int | -0x8000_0000 <= x < 0x8000_0000
  type Uint16 = x: int | 0 <= x < 0x1_0000
  type Uint32 = x: int | 0 <= x < 0x1_0000_0000

  const INT32_MAX: int := 0x7FFF_FFFF
  const INT32_MIN: int := -0x8000_0000

  const PKT_SIZE: nat := 24
  const CLIP_PKT_BYTES: nat := 15
  const CLIP_CMD_BYTES: nat := 27
  const CLIP_MAX_BYTES: nat := 7168
  const CLIP_LAST: nat := 0x20

  /** How many payload bytes of a clipboard record are meaningful. */
  function ClipNBytes(info: Byte): (n: nat)
    ensures n < 0x20
  {
    info % 0x20
  }

  predicate ClipIsLast(info: Byte) {
    (info / CLIP_LAST) % 2 == 1
  }

  datatype Kind =
    | Hello | Surface | Frame | Release | Key | Btn | Abs | Rel | Wheel
    | Grab | Focus | Pointer | Bye | Close | Clipboard | Format

  function TypeCode(k: Kind): Uint16 {
    match k
    case Hello => 1
    case Surface => 2
    case Frame => 3
    case Release => 4
    case Key => 5
    case Btn => 6
    case Abs => 7
    case Rel => 8
    case Wheel => 9
    case Grab => 10
    case Focus => 11
    case Pointer => 12
    case Bye => 13
    case Close => 14
    case Clipboard => 15
    case Format => 16
  }

  datatype Body =
    | Args(x: Int32, y: Int32, w0: Uint32, w1: Uint32)
    | Chunk(info: Byte, data: seq<Byte>)

  datatype RawPkt = Pkt(kind: Kind, flags: Uint16, seqno: Uint32, body: Body) {
    /** Clipboard records overlay the argument words with an info byte and fifteen payload bytes. */
    predicate WellFormed() {
      (kind == Clipboard <==> body.Chunk?) && (body.Chunk? ==> |body.data| == CLIP_PKT_BYTES)
    }
  }

  type Pkt = p: RawPkt | p.WellFormed() witness Pkt(Hello, 0, 0, Args(0, 0, 0, 0))

  /** The packets coalescing may merge: pointer motion and the pacing level. */
  predicate IsMotion(p: Pkt) {
    p.kind == Abs || p.kind == Rel
  }

  predicate IsMergeable(p: Pkt) {
    IsMotion(p) || p.kind == Frame
  }

  /** Motion is never merged across one of these. */
  predicate IsBoundary(p: Pkt) {
    p.kind == Grab || p.kind == Focus
  }

  // ---- little-endian words -------------------------------------------------

  function Le16(v: Uint16): (s: seq<Byte>)
    ensures |s| == 2
  {
    [v % 0x100, v / 0x100]
  }

  function Le32(v: Uint32): (s: seq<Byte>)
    ensures |s| == 4
  {
    Le16(v % 0x1_0000) + Le16(v / 0x1_0000)
  }

  function FromLe16(s: seq<Byte>): Uint16
    requires |s| == 2
  {
    (s[0] as int) + 0x100 * (s[1] as int)
  }

  function FromLe32(s: seq<Byte>): Uint32
    requires |s| == 4
  {
    (FromLe16(s[..2]) as int) + 0x1_0000 * (FromLe16(s[2..]) as int)
  }

  /** The two's complement reading of an int32, and back. */
  function Unsigned(x: Int32): Uint32 {
    if x < 0 then x + 0x1_0000_0000 else x
  }

  function Signed(v: Uint32): Int32 {
    if v >= 0x8000_0000 then v - 0x1_0000_0000 else v
  }

  lemma Le32RoundTrip(v: Uint32)
    ensures FromLe32(Le32(v)) == v
  {}

  // ---- packets on the wire --------------------------------------------------

  function EncodeBody(b: Body): (s: seq<Byte>)
    requires b.Chunk? ==> |b.data| == CLIP_PKT_BYTES
    ensures |s| == 16
  {
    match b
    case Args(x, y, w0, w1) => Le32(Unsigned(x)) + Le32(Unsigned(y)) + Le32(w0) + Le32(w1)
    case Chunk(info, data) => [info] + data
  }

  function Encode(p: Pkt): (s: seq<Byte>)
    ensures |s| == PKT_SIZE
  {
    Le16(TypeCode(p.kind)) + Le16(p.flags) + Le32(p.seqno) + EncodeBody(p.body)
  }

  function DecodeKind(code: Uint16): Kind {
    match code
    case 1 => Hello
    case 2 => Surface
    case 3 => Frame
    case 4 => Release
    case 5 => Key
    case 6 => Btn
    case 7 => Abs
    case 8 => Rel
    case 9 => Wheel
    case 10 => Grab
    case 11 => Focus
    case 12 => Pointer
    case 13 => Bye
    case 14 => Close
    case 15 => Clipboard
    case _ => Format
  }

  /** What a client makes of one 24-byte record. */
  function Decode(s: seq<Byte>): Pkt
    requires |s| == PKT_SIZE
  {
    var kind := DecodeKind(FromLe16(s[..2]));
    var t := s[8..];
    var body := if kind == Clipboard
                then Chunk(t[0], t[1..])
                else Args(Signed(FromLe32(t[..4])), Signed(FromLe32(t[4..8])),
                          FromLe32(t[8..12]), FromLe32(t[12..]));
    Pkt(kind, FromLe16(s[2..4]), FromLe32(s[4..8]), body)
  }

  lemma EncodeLayout(p: Pkt)
    ensures var s := Encode(p);
            && s[..2] == Le16(TypeCode(p.kind)) && s[2..4] == Le16(p.flags)
            && s[4..8] == Le32(p.seqno) && s[8..] == EncodeBody(p.body)
  {}

  lemma ArgsRoundTrip(x: Int32, y: Int32, w0: Uint32, w1: Uint32)
    ensures var t := EncodeBody(Args(x, y, w0, w1));
            && Signed(FromLe32(t[..4])) == x && Signed(FromLe32(t[4..8])) == y
            && FromLe32(t[8..12]) == w0 && FromLe32(t[12..]) == w1
  {
    var t := EncodeBody(Args(x, y, w0, w1));
    assert t[..4] == Le32(Unsigned(x)) && t[4..8] == Le32(Unsigned(y));
    assert t[8..12] == Le32(w0) && t[12..] == Le32(w1);
    Le32RoundTrip(Unsigned(x));
    Le32RoundTrip(Unsigned(y));
    Le32RoundTrip(w0);
    Le32RoundTrip(w1);
  }

  /** No packet is confused with another on the wire. */
  lemma DecodeInvertsEncode(p: Pkt)
    ensures Decode(Encode(p)) == p
  {
    EncodeLayout(p);
    Le32RoundTrip(p.seqno);
    if p.body.Args? {
      ArgsRoundTrip(p.body.x, p.body.y, p.body.w0, p.body.w1);
    }
  }

  /** The byte image of a packet stream. */
  function Bytes(ps: seq<Pkt>): (s: seq<Byte>)
    ensures |s| == PKT_SIZE * |ps|
  {
    if ps == [] then [] else Bytes(ps[..|ps| - 1]) + Encode(ps[|ps| - 1])
  }

  /** What a client reads out of a byte stream: its whole records, a trailing fragment left waiting. */
  function ClientReads(s: seq<Byte>): (ps: seq<Pkt>) {
    if |s| < PKT_SIZE then [] else [Decode(s[..PKT_SIZE])] + ClientReads(s[PKT_SIZE..])
  }

  lemma Associate<T>(a: seq<T>, b: seq<T>, c: seq<T>)
    ensures (a + b) + c == a + (b + c)
  {}

  lemma {:induction false} BytesCons(p: Pkt, ps: seq<Pkt>)
    ensures Bytes([p] + ps) == Encode(p) + Bytes(ps)
  {
    if ps == [] {
      assert ([p] + ps)[..0] == [];
      assert [p] + ps == [p];
    } else {
      var all, n := [p] + ps, |ps| - 1;
      assert all[..|all| - 1] == [p] + ps[..n] && all[|all| - 1] == ps[n];
      BytesCons(p, ps[..n]);
      Associate(Encode(p), Bytes(ps[..n]), Encode(ps[n]));
    }
  }

  lemma ClientReadsOne(p: Pkt, rest: seq<Byte>)
    ensures ClientReads(Encode(p) + rest) == [p] + ClientReads(rest)
  {
    var s := Encode(p) + rest;
    assert s[..PKT_SIZE] == Encode(p) && s[PKT_SIZE..] == rest;
    DecodeInvertsEncode(p);
  }

  /** Whatever fragment of a further record has arrived, the client reads back exactly the packets. */
  lemma {:induction false} ClientReadsPackets(ps: seq<Pkt>, fragment: seq<Byte>)
    requires |fragment| < PKT_SIZE
    ensures ClientReads(Bytes(ps) + fragment) == ps
  {
    if ps == [] {
      assert Bytes(ps) + fragment == fragment;
    } else {
      assert [ps[0]] + ps[1..] == ps;
      BytesCons(ps[0], ps[1..]);
      Associate(Encode(ps[0]), Bytes(ps[1..]), fragment);
      ClientReadsOne(ps[0], Bytes(ps[1..]) + fragment);
      ClientReadsPackets(ps[1..], fragment);
    }
  }
}
