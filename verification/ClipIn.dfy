// Guest-to-host clipboard: reassembling fixed-size chunks into one text, or into nothing.

module ClipIn {
  import opened Protocol
  import Utf8

  const CLIP_MAX_CHUNKS_CMD: nat := (CLIP_MAX_BYTES + CLIP_CMD_BYTES - 1) / CLIP_CMD_BYTES

  datatype ClipMode = Off | GuestToHost | Consent

  /** One CLIPBOARD command; `limited` is the rate limiter's verdict on it. */
  datatype RawPiece = Piece(index: Uint32, info: Byte, data: seq<Byte>, limited: bool) {
    predicate Structured() {
      |data| == CLIP_CMD_BYTES && ClipNBytes(info) <= CLIP_CMD_BYTES
    }

    function Payload(): seq<Byte>
      requires Structured()
    {
      data[..ClipNBytes(info)]
    }

    predicate Last() {
      ClipIsLast(info)
    }
  }

  type Piece = c: RawPiece | c.Structured()
    witness RawPiece.Piece(0, 0, seq(CLIP_CMD_BYTES, _ => 0), false)

  // ---- what a transaction is, without any broker state ------------------------

  function Join(cs: seq<Piece>): seq<Byte> {
    if cs == [] then [] else Join(cs[..|cs| - 1]) + cs[|cs| - 1].Payload()
  }

  /** A transaction the policy turns down: the mode, the rate, or one of the two caps. */
  predicate Spoiled(mode: ClipMode, cs: seq<Piece>) {
    || mode == Off
    || (exists c <- cs :: c.limited)
    || |cs| > CLIP_MAX_CHUNKS_CMD
    || |Join(cs)| > CLIP_MAX_BYTES
  }

  /** Whether a whole transaction may reach the host clipboard. */
  predicate Acceptable(mode: ClipMode, cs: seq<Piece>) {
    !Spoiled(mode, cs) && Join(cs) != [] && Utf8.ValidText(Join(cs))
  }

  /** The transaction still open after the pieces received so far. */
  function Open(cs: seq<Piece>): seq<Piece>
    decreases |cs|, 0
  {
    if cs == [] || cs[|cs| - 1].Last() then [] else Joined(cs[..|cs| - 1], cs[|cs| - 1])
  }

  /** The transaction piece `c` belongs to: piece zero discards whatever prefix was left. */
  function Joined(before: seq<Piece>, c: Piece): (t: seq<Piece>)
    decreases |before|, 1
  {
    (if c.index == 0 then [] else Open(before)) + [c]
  }

  /** A piece must start a transaction or be the next one of the open transaction. */
  predicate Fits(before: seq<Piece>, c: Piece) {
    c.index == 0 || (Open(before) != [] && c.index == |Open(before)|)
  }

  predicate Proper(cs: seq<Piece>) {
    cs == [] || (Proper(cs[..|cs| - 1]) && Fits(cs[..|cs| - 1], cs[|cs| - 1]))
  }

  /** Pieces 0, 1, 2, ... with no end marker before the last of them. */
  predicate OneTransaction(t: seq<Piece>) {
    && t != []
    && (forall i :: 0 <= i < |t| ==> t[i].index == i)
    && (forall i :: 0 <= i < |t| - 1 ==> !t[i].Last())
  }

  /** However abandoned prefixes and restarts are interleaved, a piece joins exactly one transaction. */
  lemma {:induction false} JoinedIsOneTransaction(before: seq<Piece>, c: Piece)
    requires Proper(before) && Fits(before, c)
    ensures OneTransaction(Joined(before, c))
    decreases |before|
  {
    if c.index != 0 {
      JoinedIsOneTransaction(before[..|before| - 1], before[|before| - 1]);
    }
  }

  /** ... and that transaction is the most recent stretch of the pieces received. */
  lemma {:induction false} JoinedIsSuffix(before: seq<Piece>, c: Piece)
    ensures |Joined(before, c)| <= |before| + 1
    ensures Joined(before, c) == (before + [c])[|before| + 1 - |Joined(before, c)|..]
    decreases |before|
  {
    if c.index != 0 && Open(before) != [] {
      var n := |before| - 1;
      JoinedIsSuffix(before[..n], before[n]);
      assert before == before[..n] + [before[n]];
    }
  }

  // ---- the broker's own state ---------------------------------------------------

  /** clip_in, clip_in_len, clip_in_chunks, clip_in_next_chunk, clip_in_active, clip_in_bad. */
  datatype Reassembly = Reassembly(text: seq<Byte>, chunks: Uint32, next: Uint32, active: bool, bad: bool)

  const Idle := Reassembly([], 0, 0, false, false)

  datatype Effect = Nothing | Violation | Deliver(text: seq<Byte>)

  function Wrap(n: nat): Uint32 {
    n % 0x1_0000_0000
  }

  /** Framing first: piece zero starts afresh. */
  function Begin(r: Reassembly, c: Piece): Reassembly {
    if c.index == 0 then Reassembly([], 0, 0, true, false) else r
  }

  /** Then policy: a rejected piece still advances the framing. */
  function Take(mode: ClipMode, r: Reassembly, c: Piece): Reassembly {
    var chunks := Wrap(r.chunks + 1);
    var bad := r.bad || mode == Off || c.limited || chunks > CLIP_MAX_CHUNKS_CMD
               || |r.text| + |c.Payload()| > CLIP_MAX_BYTES;
    Reassembly(if bad then r.text else r.text + c.Payload(), chunks, Wrap(r.next + 1), r.active, bad)
  }

  function Feed(mode: ClipMode, r: Reassembly, c: Piece): (Reassembly, Effect) {
    var r1 := Begin(r, c);
    if !r1.active || c.index != r1.next then (r1, Violation)
    else
      var r2 := Take(mode, r1, c);
      if !c.Last() then (r2, Nothing)
      else (Idle, if !r2.bad && r2.text != [] && Utf8.ValidText(r2.text) then Deliver(r2.text) else Nothing)
  }

  /** The state is a summary of the open transaction. */
  predicate Summarises(mode: ClipMode, r: Reassembly, t: seq<Piece>) {
    && (r.active <==> t != [])
    && r.next == Wrap(|t|) && r.chunks == Wrap(|t|)
    && (r.active ==> (r.bad <==> Spoiled(mode, t)))
    && (!r.bad ==> r.text == Join(t))
    && (!r.active ==> r == Idle)
  }

  lemma JoinSnoc(t: seq<Piece>, c: Piece)
    ensures Join(t + [c]) == Join(t) + c.Payload()
  {}

  lemma SpoiledSnoc(mode: ClipMode, t: seq<Piece>, c: Piece)
    ensures Spoiled(mode, t + [c])
            <==> Spoiled(mode, t) || mode == Off || c.limited || |t| + 1 > CLIP_MAX_CHUNKS_CMD
                 || |Join(t)| + |c.Payload()| > CLIP_MAX_BYTES
  {}

  /** A wrapped count over the cap stays over the cap: the transaction is spoiled long before the wrap. */
  lemma WrappedCount(n: nat)
    requires n < 0x1_0000_0000
    ensures Wrap(Wrap(n) + 1) == Wrap(n + 1)
    ensures n <= CLIP_MAX_CHUNKS_CMD ==> Wrap(n + 1) == n + 1
  {}

  /** Taking a piece, in terms of the open transaction's length `n` and whether it was `spoiled` already. */
  lemma TakeCounts(mode: ClipMode, r: Reassembly, n: nat, spoiled: bool, c: Piece)
    requires r.next == r.chunks == Wrap(n) && n < 0x1_0000_0000
    requires (r.bad <==> n > 0 && spoiled) && (n == 0 && spoiled ==> mode == Off)
    requires n > CLIP_MAX_CHUNKS_CMD ==> spoiled
    ensures var r' := Take(mode, r, c);
            && r'.next == r'.chunks == Wrap(n + 1)
            && (!spoiled ==> (r'.bad <==> mode == Off || c.limited || n + 1 > CLIP_MAX_CHUNKS_CMD
                                          || |r.text| + |c.Payload()| > CLIP_MAX_BYTES))
            && (spoiled ==> r'.bad)
            && (!r'.bad ==> r'.text == r.text + c.Payload())
  {
    WrappedCount(n);
  }

  /** Taking a piece summarises the transaction it has joined. */
  lemma TakeSummarises(mode: ClipMode, r: Reassembly, t: seq<Piece>, c: Piece)
    requires r.next == r.chunks == Wrap(|t|) && |t| < 0x1_0000_0000
    requires r.bad <==> (t != [] && Spoiled(mode, t))
    requires !r.bad ==> r.text == Join(t)
    ensures var r' := Take(mode, r, c);
            && r'.next == r'.chunks == Wrap(|t| + 1)
            && (r'.bad <==> Spoiled(mode, t + [c]))
            && (!r'.bad ==> r'.text == Join(t + [c]))
  {
    TakeCounts(mode, r, |t|, Spoiled(mode, t), c);
    SpoiledSnoc(mode, t, c);
    JoinSnoc(t, c);
  }

  lemma FitsIffExpected(mode: ClipMode, r: Reassembly, before: seq<Piece>, c: Piece)
    requires Proper(before) && Summarises(mode, r, Open(before))
    ensures Fits(before, c) <==> Begin(r, c).active && c.index == Begin(r, c).next
    ensures Fits(before, c) ==> c.index == 0 || |Open(before)| < 0x1_0000_0000
  {
    OpenBounded(before);
  }

  lemma OpenSnoc(before: seq<Piece>, c: Piece)
    ensures Open(before + [c]) == if c.Last() then [] else Joined(before, c)
  {}

  lemma FeedExpected(mode: ClipMode, r: Reassembly, o: seq<Piece>, c: Piece)
    requires Begin(r, c).active && c.index == Begin(r, c).next == Begin(r, c).chunks == Wrap(|o|)
    requires |o| < 0x1_0000_0000
    requires Begin(r, c).bad <==> (o != [] && Spoiled(mode, o))
    requires !Begin(r, c).bad ==> Begin(r, c).text == Join(o)
    ensures var t := o + [c];
            var (r', e) := Feed(mode, r, c);
            && Summarises(mode, r', if c.Last() then [] else t)
            && e == if c.Last() && Acceptable(mode, t) then Deliver(Join(t)) else Nothing
  {
    TakeSummarises(mode, Begin(r, c), o, c);
  }

  /**
   * One command, against the history of the connection: it is a violation exactly when it does
   * not fit; text is delivered exactly when it completes an acceptable transaction, and then it
   * is that transaction's text.
   */
  lemma FeedRefines(mode: ClipMode, r: Reassembly, before: seq<Piece>, c: Piece)
    requires Proper(before) && Summarises(mode, r, Open(before))
    ensures var t := Joined(before, c);
            var (r', e) := Feed(mode, r, c);
            if !Fits(before, c) then e == Violation
            else
              && Summarises(mode, r', Open(before + [c]))
              && e == if c.Last() && Acceptable(mode, t) then Deliver(Join(t)) else Nothing
  {
    FitsIffExpected(mode, r, before, c);
    if Fits(before, c) {
      OpenSnoc(before, c);
      FeedExpected(mode, r, if c.index == 0 then [] else Open(before), c);
    }
  }

  lemma OpenBounded(before: seq<Piece>)
    requires Proper(before)
    ensures |Open(before)| <= 0x1_0000_0000
  {}

  // ---- whole connections --------------------------------------------------------

  /** The texts delivered over a connection, and its state; Dropped once a piece was a violation. */
  datatype Outcome = Dropped(delivered: seq<seq<Byte>>) | Running(delivered: seq<seq<Byte>>, r: Reassembly)

  function Run(mode: ClipMode, cs: seq<Piece>): Outcome {
    if cs == [] then Running([], Idle)
    else
      match Run(mode, cs[..|cs| - 1])
      case Dropped(ds) => Dropped(ds)
      case Running(ds, r) =>
        var (r', e) := Feed(mode, r, cs[|cs| - 1]);
        match e
        case Violation => Dropped(ds)
        case Nothing => Running(ds, r')
        case Deliver(text) => Running(ds + [text], r')
  }

  /** The reference: the texts of the acceptable transactions, each completed where its end marker is. */
  function Texts(mode: ClipMode, cs: seq<Piece>): seq<seq<Byte>> {
    if cs == [] then []
    else
      var before, c := cs[..|cs| - 1], cs[|cs| - 1];
      Texts(mode, before) + if c.Last() && Acceptable(mode, Joined(before, c)) then [Join(Joined(before, c))] else []
  }

  lemma ProperSnoc(before: seq<Piece>, c: Piece)
    ensures Proper(before + [c]) <==> Proper(before) && Fits(before, c)
  {}

  lemma TextsSnoc(mode: ClipMode, before: seq<Piece>, c: Piece)
    ensures Texts(mode, before + [c]) == Texts(mode, before)
            + (if c.Last() && Acceptable(mode, Joined(before, c)) then [Join(Joined(before, c))] else [])
  {}

  lemma RunSnoc(mode: ClipMode, before: seq<Piece>, c: Piece)
    ensures var o, o' := Run(mode, before), Run(mode, before + [c]);
            if o.Dropped? then o' == o
            else
              var (r', e) := Feed(mode, o.r, c);
              o' == if e == Violation then Dropped(o.delivered)
                    else Running(o.delivered + (if e.Deliver? then [e.text] else []), r')
  {
    assert (before + [c])[..|before|] == before;
  }

  /** The state machine and the reference agree on every sequence of pieces. */
  lemma {:induction false} RunRefines(mode: ClipMode, cs: seq<Piece>)
    ensures Proper(cs) <==> Run(mode, cs).Running?
    ensures Proper(cs) ==> Run(mode, cs).delivered == Texts(mode, cs) && Summarises(mode, Run(mode, cs).r, Open(cs))
  {
    if cs != [] {
      var before, c := cs[..|cs| - 1], cs[|cs| - 1];
      assert before + [c] == cs;
      RunRefines(mode, before);
      ProperSnoc(before, c);
      TextsSnoc(mode, before, c);
      RunSnoc(mode, before, c);
      if Proper(before) {
        FeedRefines(mode, Run(mode, before).r, before, c);
      }
    }
  }

  /** The text is one complete transaction of the pieces `cs`, in full, and fit for the host clipboard. */
  ghost predicate Honest(text: seq<Byte>, mode: ClipMode, cs: seq<Piece>) {
    exists i: nat, j: nat :: i < j <= |cs| && Accounts(text, mode, cs[i..j])
  }

  ghost predicate Accounts(text: seq<Byte>, mode: ClipMode, t: seq<Piece>) {
    && OneTransaction(t) && t[|t| - 1].Last() && !Spoiled(mode, t)
    && text == Join(t) && 0 < |text| <= CLIP_MAX_BYTES && Utf8.IsUtf8(text)
  }

  lemma HonestExtends(text: seq<Byte>, mode: ClipMode, cs: seq<Piece>, c: Piece)
    requires Honest(text, mode, cs)
    ensures Honest(text, mode, cs + [c])
  {
    var i: nat, j: nat :| i < j <= |cs| && Accounts(text, mode, cs[i..j]);
    assert (cs + [c])[i..j] == cs[i..j];
  }

  lemma CompletedIsHonest(mode: ClipMode, before: seq<Piece>, c: Piece)
    requires Proper(before) && Fits(before, c) && c.Last() && Acceptable(mode, Joined(before, c))
    ensures Honest(Join(Joined(before, c)), mode, before + [c])
  {
    JoinedIsOneTransaction(before, c);
    JoinedIsSuffix(before, c);
    var cs, t := before + [c], Joined(before, c);
    Utf8.ValidTextIffUtf8(Join(t));
    assert cs[|cs| - |t|..|cs|] == t;
  }

  /** Whatever a client sends, what reaches the host is one of its own complete transactions, in full. */
  lemma {:induction false} DeliveredIsHonest(mode: ClipMode, cs: seq<Piece>)
    ensures forall text <- Run(mode, cs).delivered :: Honest(text, mode, cs)
  {
    if cs != [] {
      var before, c := cs[..|cs| - 1], cs[|cs| - 1];
      assert before + [c] == cs;
      DeliveredIsHonest(mode, before);
      RunRefines(mode, before);
      RunSnoc(mode, before, c);
      forall text <- Run(mode, cs).delivered ensures Honest(text, mode, cs) {
        if text in Run(mode, before).delivered {
          HonestExtends(text, mode, before, c);
        } else {
          FeedRefines(mode, Run(mode, before).r, before, c);
          CompletedIsHonest(mode, before, c);
        }
      }
    }
  }

  /** In mode off nothing is ever delivered. */
  lemma {:induction false} OffDeliversNothing(cs: seq<Piece>)
    ensures Run(Off, cs).delivered == []
  {
    if cs != [] {
      OffDeliversNothing(cs[..|cs| - 1]);
    }
  }

  predicate Unfinished(t: seq<Piece>) {
    forall i :: 0 <= i < |t| ==> t[i].index == i && !t[i].Last()
  }

  lemma UnfinishedStep(mode: ClipMode, b: seq<Piece>, t: seq<Piece>, c: Piece)
    requires Proper(b) && (t != [] ==> Open(b) == t) && c.index == |t| && !c.Last()
    ensures Proper(b + [c]) && Texts(mode, b + [c]) == Texts(mode, b) && Open(b + [c]) == t + [c]
  {}

  /** An unfinished transaction delivers nothing, and is all that is open. */
  lemma {:induction false} UnfinishedAlone(mode: ClipMode, before: seq<Piece>, t: seq<Piece>)
    requires Proper(before) && Unfinished(t)
    ensures Proper(before + t) && Texts(mode, before + t) == Texts(mode, before)
    ensures t != [] ==> Open(before + t) == t
  {
    if t == [] {
      assert before + t == before;
    } else {
      var t', c := t[..|t| - 1], t[|t| - 1];
      var b := before + t';
      assert t == t' + [c];
      assert before + t == b + [c];
      assert Proper(b) && Texts(mode, b) == Texts(mode, before) && (t' != [] ==> Open(b) == t') by {
        UnfinishedAlone(mode, before, t');
      }
      UnfinishedStep(mode, b, t', c);
    }
  }

  /**
   * A transaction is judged on its own pieces, whatever was delivered, rejected or abandoned
   * before it: it is never a violation, and it adds its text exactly when it is acceptable.
   */
  lemma JudgedAlone(mode: ClipMode, before: seq<Piece>, t: seq<Piece>, c: Piece)
    requires Proper(before) && Unfinished(t) && c.index == |t| && c.Last()
    ensures Proper(before + t + [c])
    ensures Texts(mode, before + t + [c])
            == Texts(mode, before) + if Acceptable(mode, t + [c]) then [Join(t + [c])] else []
  {
    UnfinishedAlone(mode, before, t);
    ProperSnoc(before + t, c);
    TextsSnoc(mode, before + t, c);
  }

  // ---- the fixed buffer behind it --------------------------------------------------

  /** The broker's clip_in buffer: one byte longer than any text, for the terminator. */
  class Inbox {
    const buf: array<Byte>
    var len: nat
    var chunks: Uint32
    var next: Uint32
    var active: bool
    var bad: bool

    ghost predicate Valid()
      reads this
    {
      buf.Length == CLIP_MAX_BYTES + 1 && len <= CLIP_MAX_BYTES
    }

    ghost function View(): Reassembly
      reads this, buf
      requires Valid()
    {
      Reassembly(buf[..len], chunks, next, active, bad)
    }

    constructor ()
      ensures Valid() && fresh(buf) && View() == Idle
    {
      buf := new Byte[CLIP_MAX_BYTES + 1](_ => 0);
      len, chunks, next, active, bad := 0, 0, 0, false, false;
    }

    method Reset()
      requires Valid()
      modifies this
      ensures Valid() && View() == Idle
    {
      len, chunks, next, active, bad := 0, 0, 0, false, false;
    }

    method Append(bytes: seq<Byte>)
      requires Valid() && |bytes| <= CLIP_MAX_BYTES - len
      modifies this, buf
      ensures Valid() && View() == old(View()).(text := old(View()).text + bytes)
    {
      forall k | 0 <= k < |bytes| {
        buf[len + k] := bytes[k];
      }
      len := len + |bytes|;
      assert buf[..len] == old(buf[..len]) + bytes;
    }

    /** The CLIPBOARD case of nb_handle_cmd, from the transaction framing on. */
    method Receive(mode: ClipMode, c: Piece) returns (e: Effect)
      requires Valid()
      modifies this, buf
      ensures Valid() && (View(), e) == Feed(mode, old(View()), c)
    {
      if c.index == 0 {
        len, chunks, next, bad, active := 0, 0, 0, false, true;
      }
      if !active || c.index != next {
        return Violation;
      }
      next, chunks := Wrap(next + 1), Wrap(chunks + 1);
      if mode == Off {
        bad := true;
      }
      if c.limited {
        bad := true;
      }
      var n := ClipNBytes(c.info);
      if chunks > CLIP_MAX_CHUNKS_CMD || n > CLIP_MAX_BYTES - len {
        bad := true;
      }
      if !bad {
        Append(c.data[..n]);
      }
      e := Nothing;
      if c.Last() {
        var text, spoiled := buf[..len], bad;
        Reset();
        if !spoiled && text != [] {
          var ok := Utf8.Utf8Ok(text);
          if ok {
            e := Deliver(text);
          }
        }
      }
    }
  }
}
