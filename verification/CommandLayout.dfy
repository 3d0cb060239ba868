// The 40-byte command records as a client writes them, and the proof that the broker reads back what
// was written (struct nvkvm_broker_cmd and its clipboard overlay).

module CommandLayout {
  import opened Protocol
  import opened Formats
  import opened Commands
  import ClipIn
  import Descriptor

  /** The eight words of an ordinary record behind its type and flags. */
  function Words(ws: seq<Uint32>): (s: seq<Byte>)
    ensures |s| == 4 * |ws|
  {
    if ws == [] then [] else Words(ws[..|ws| - 1]) + Le32(ws[|ws| - 1])
  }

  function Written(kind: Uint16, flags: Uint16, ws: seq<Uint32>): Record
    requires |ws| == 9
  {
    Le16(kind) + Le16(flags) + Words(ws)
  }

  /** An ATTACH or QUERY_FORMAT as a client means it. */
  function Request(kind: Uint16, q: Descriptor.Request, reserved: Uint32): Record {
    Written(kind, if q.shm then 1 else 0,
            [q.width, q.height, q.stride, q.offset, q.fourcc, q.modifier % 0x1_0000_0000, q.modifier / 0x1_0000_0000,
             q.seqno, reserved])
  }

  /** A clipboard piece as a client means it. */
  function ClipRecord(index: Uint32, info: Byte, data: seq<Byte>): Record
    requires |data| == CLIP_CMD_BYTES
  {
    Le16(CMD_CLIPBOARD) + Le16(0) + Le32(index) + Le32(0) + [info] + data
  }

  lemma {:induction false} WordsAt(ws: seq<Uint32>, i: nat)
    requires i < |ws|
    ensures Words(ws)[4 * i..4 * i + 4] == Le32(ws[i])
  {
    var n := |ws| - 1;
    if i < n {
      WordsAt(ws[..n], i);
      assert Words(ws)[4 * i..4 * i + 4] == Words(ws[..n])[4 * i..4 * i + 4];
    }
  }

  lemma WrittenHead(kind: Uint16, flags: Uint16, ws: seq<Uint32>)
    requires |ws| == 9
    ensures Type(Written(kind, flags, ws)) == kind && FlagBits(Written(kind, flags, ws)) == flags
  {
    var r := Written(kind, flags, ws);
    assert r[0..2] == Le16(kind) && r[2..4] == Le16(flags);
  }

  lemma WordRead(kind: Uint16, flags: Uint16, ws: seq<Uint32>, i: nat)
    requires |ws| == 9 && i < 9
    ensures Word(Written(kind, flags, ws), 4 + 4 * i) == ws[i]
  {
    var r := Written(kind, flags, ws);
    WordsAt(ws, i);
    assert r[4..] == Words(ws);
    assert r[4 + 4 * i..4 + 4 * i + 4] == Words(ws)[4 * i..4 * i + 4];
    Le32RoundTrip(ws[i]);
  }

  /** The broker reads the request the client wrote, and no other. */
  lemma RequestReadsBack(kind: Uint16, q: Descriptor.Request, reserved: Uint32)
    ensures var r := Request(kind, q, reserved);
            Type(r) == kind && FlagBits(r) <= 1 && RequestOf(r) == q && (Reserved(r) <==> reserved != 0)
  {
    var flags: Uint16 := if q.shm then 1 else 0;
    var ws: seq<Uint32> := [q.width, q.height, q.stride, q.offset, q.fourcc, q.modifier % 0x1_0000_0000,
                            q.modifier / 0x1_0000_0000, q.seqno, reserved];
    assert Request(kind, q, reserved) == Written(kind, flags, ws);
    WrittenHead(kind, flags, ws);
    WordRead(kind, flags, ws, 0);
    WordRead(kind, flags, ws, 1);
    WordRead(kind, flags, ws, 2);
    WordRead(kind, flags, ws, 3);
    WordRead(kind, flags, ws, 4);
    WordRead(kind, flags, ws, 5);
    WordRead(kind, flags, ws, 6);
    WordRead(kind, flags, ws, 7);
    WordRead(kind, flags, ws, 8);
  }

  /** So with a clipboard piece. */
  lemma PieceReadsBack(index: Uint32, info: Byte, data: seq<Byte>, limited: bool)
    requires |data| == CLIP_CMD_BYTES && ClipNBytes(info) <= CLIP_CMD_BYTES
    ensures var r := ClipRecord(index, info, data);
            && Type(r) == CMD_CLIPBOARD && FlagBits(r) == 0 && Word(r, 8) == 0 && ClipInfoOf(r) == info
            && PieceOf(r, limited) == ClipIn.RawPiece.Piece(index, info, data, limited)
  {
    var r := ClipRecord(index, info, data);
    assert r[0..2] == Le16(CMD_CLIPBOARD) && r[2..4] == Le16(0) && r[4..8] == Le32(index) && r[8..12] == Le32(0);
    assert r[12] == info && r[13..] == data;
    Le32RoundTrip(index);
    Le32RoundTrip(0);
  }
}
