// nb_utf8_ok against the definition of UTF-8 in sections 3 and 4 of RFC 3629.

module Utf8 {
  import opened Protocol

  // ---- the definition ---------------------------------------------------------

  /** A Unicode scalar value other than NUL, which would cut a host text short. */
  type Scalar = v: int | 0 < v <= 0x10FFFF && !(0xD800 <= v <= 0xDFFF) witness 0x41

  function Continuation(v: nat): Byte {
    0x80 + v % 0x40
  }

  function Lead(mark: nat, bits: nat): Byte
    requires mark + bits < 0x100
  {
    mark + bits
  }

  /** The octet table of RFC 3629, section 3: each value in its shortest form. */
  function EncodeScalar(v: Scalar): (s: seq<Byte>)
    ensures 1 <= |s| <= 4
  {
    if v < 0x80 then [Lead(0, v)]
    else if v < 0x800 then [Lead(0xC0, v / 0x40), Continuation(v)]
    else if v < 0x1_0000 then [Lead(0xE0, v / 0x1000), Continuation(v / 0x40), Continuation(v)]
    else [Lead(0xF0, v / 0x4_0000), Continuation(v / 0x1000), Continuation(v / 0x40), Continuation(v)]
  }

  function EncodeText(vs: seq<Scalar>): seq<Byte> {
    if vs == [] then [] else EncodeScalar(vs[0]) + EncodeText(vs[1..])
  }

  ghost predicate IsUtf8(s: seq<Byte>) {
    exists vs: seq<Scalar> :: EncodeText(vs) == s
  }

  // ---- one round of the validator's loop --------------------------------------

  /** How many continuation bytes a lead byte calls for; none for a byte that cannot lead. */
  function Need(c: Byte): nat {
    if c / 0x20 == 6 then 1 else if c / 0x10 == 0xE then 2 else if c / 8 == 0x1E then 3 else 0
  }

  function LeadBits(c: Byte): nat {
    if c / 0x20 == 6 then c % 0x20 else if c / 0x10 == 0xE then c % 0x10 else c % 8
  }

  predicate IsContinuation(b: Byte) {
    b / 0x40 == 2
  }

  function Bits(b: Byte): nat {
    b as int % 0x40
  }

  /** The bits of the first `k` continuation bytes after `s[i]`, below the lead's. */
  function Gather(s: seq<Byte>, i: nat, k: nat): nat
    requires i + k < |s|
  {
    if k == 0 then LeadBits(s[i]) else Gather(s, i, k - 1) * 0x40 + Bits(s[i + k])
  }

  predicate Continued(s: seq<Byte>, i: nat, k: nat)
    requires i + k < |s|
  {
    forall j :: i < j <= i + k ==> IsContinuation(s[j])
  }

  predicate GoodPoint(need: nat, cp: nat) {
    && !((need == 1 && cp < 0x80) || (need == 2 && cp < 0x800) || (need == 3 && cp < 0x1_0000))
    && !(cp > 0x10FFFF || 0xD800 <= cp <= 0xDFFF)
  }

  /** The round at `i` goes on to `i + r`; it rejects the text when `r` is 0. */
  function Round(s: seq<Byte>, i: nat): (r: nat)
    requires i < |s|
    ensures i + r <= |s|
  {
    var c := s[i];
    if c == 0 then 0
    else if c < 0x80 then 1
    else
      var need := Need(c);
      if need == 0 || i + need >= |s| || !Continued(s, i, need) || !GoodPoint(need, Gather(s, i, need)) then 0
      else need + 1
  }

  lemma Digit(hi: nat, lo: nat)
    requires lo < 0x40
    ensures (hi * 0x40 + lo) / 0x40 == hi && (hi * 0x40 + lo) % 0x40 == lo
  {}

  lemma TwoBytes(b0: Byte, b1: Byte)
    requires Need(b0) == 1 && IsContinuation(b1)
    requires GoodPoint(1, LeadBits(b0) * 0x40 + Bits(b1))
    ensures EncodeScalar(LeadBits(b0) * 0x40 + Bits(b1)) == [b0, b1]
  {}

  lemma ThreeBytes(b0: Byte, b1: Byte, b2: Byte)
    requires Need(b0) == 2 && IsContinuation(b1) && IsContinuation(b2)
    requires GoodPoint(2, (LeadBits(b0) * 0x40 + Bits(b1)) * 0x40 + Bits(b2))
    ensures EncodeScalar((LeadBits(b0) * 0x40 + Bits(b1)) * 0x40 + Bits(b2)) == [b0, b1, b2]
  {}

  lemma FourBytes(b0: Byte, b1: Byte, b2: Byte, b3: Byte)
    requires Need(b0) == 3 && IsContinuation(b1) && IsContinuation(b2) && IsContinuation(b3)
    requires GoodPoint(3, ((LeadBits(b0) * 0x40 + Bits(b1)) * 0x40 + Bits(b2)) * 0x40 + Bits(b3))
    ensures EncodeScalar(((LeadBits(b0) * 0x40 + Bits(b1)) * 0x40 + Bits(b2)) * 0x40 + Bits(b3))
            == [b0, b1, b2, b3]
  {
    var a := LeadBits(b0) * 0x40 + Bits(b1);
    var b := a * 0x40 + Bits(b2);
    var v := b * 0x40 + Bits(b3);
    Digit(LeadBits(b0), Bits(b1));
    Digit(a, Bits(b2));
    Digit(b, Bits(b3));
    assert v / 0x1000 == v / 0x40 / 0x40 == a;
    assert v / 0x4_0000 == v / 0x1000 / 0x40 == LeadBits(b0);
  }

  lemma GatherUpTo(s: seq<Byte>, i: nat, k: nat)
    requires k <= 3 && i + k < |s|
    ensures k >= 1 ==> Gather(s, i, 1) == LeadBits(s[i]) * 0x40 + Bits(s[i + 1])
    ensures k >= 2 ==> Gather(s, i, 2) == Gather(s, i, 1) * 0x40 + Bits(s[i + 2])
    ensures k == 3 ==> Gather(s, i, 3) == Gather(s, i, 2) * 0x40 + Bits(s[i + 3])
  {}

  /** An accepted round has consumed the encoding of a scalar value. */
  lemma RoundSound(s: seq<Byte>, i: nat) returns (v: Scalar)
    requires i < |s| && Round(s, i) > 0
    ensures s[i..i + Round(s, i)] == EncodeScalar(v)
  {
    var c := s[i];
    if c < 0x80 {
      v := c;
    } else {
      var need := Need(c);
      v := Gather(s, i, need);
      GatherUpTo(s, i, need);
      if need == 1 {
        TwoBytes(c, s[i + 1]);
        assert s[i..i + 2] == [c, s[i + 1]];
      } else if need == 2 {
        ThreeBytes(c, s[i + 1], s[i + 2]);
        assert s[i..i + 3] == [c, s[i + 1], s[i + 2]];
      } else {
        FourBytes(c, s[i + 1], s[i + 2], s[i + 3]);
        assert s[i..i + 4] == [c, s[i + 1], s[i + 2], s[i + 3]];
      }
    }
  }

  lemma EncodedTwo(v: Scalar)
    requires 0x80 <= v < 0x800
    ensures var e := EncodeScalar(v); Need(e[0]) == 1 && IsContinuation(e[1]) && LeadBits(e[0]) * 0x40 + Bits(e[1]) == v
  {}

  lemma EncodedThree(v: Scalar)
    requires 0x800 <= v < 0x1_0000
    ensures var e := EncodeScalar(v);
            && Need(e[0]) == 2 && IsContinuation(e[1]) && IsContinuation(e[2])
            && (LeadBits(e[0]) * 0x40 + Bits(e[1])) * 0x40 + Bits(e[2]) == v
  {}

  lemma EncodedFour(v: Scalar)
    requires 0x1_0000 <= v
    ensures var e := EncodeScalar(v);
            && Need(e[0]) == 3 && IsContinuation(e[1]) && IsContinuation(e[2]) && IsContinuation(e[3])
            && ((LeadBits(e[0]) * 0x40 + Bits(e[1])) * 0x40 + Bits(e[2])) * 0x40 + Bits(e[3]) == v
  {
    var e := EncodeScalar(v);
    assert Need(e[0]) == 3 && LeadBits(e[0]) == v / 0x4_0000;
    assert Bits(e[1]) == v / 0x1000 % 0x40 && Bits(e[2]) == v / 0x40 % 0x40 && Bits(e[3]) == v % 0x40;
    assert v / 0x4_0000 == v / 0x1000 / 0x40 && v / 0x1000 == v / 0x40 / 0x40;
  }

  /** A text going on with the encoding of a scalar value passes the round, by exactly that much. */
  lemma RoundComplete(s: seq<Byte>, i: nat, v: Scalar)
    requires i <= |s| && EncodeScalar(v) <= s[i..]
    ensures i < |s| && Round(s, i) == |EncodeScalar(v)|
  {
    var e := EncodeScalar(v);
    assert forall j :: 0 <= j < |e| ==> s[i + j] == s[i..][j] == e[j];
    GatherUpTo(s, i, |e| - 1);
    if |e| == 2 {
      EncodedTwo(v);
    } else if |e| == 3 {
      EncodedThree(v);
    } else if |e| == 4 {
      EncodedFour(v);
    }
  }

  lemma PrependScalar(v: Scalar, rest: seq<Byte>)
    requires IsUtf8(rest)
    ensures IsUtf8(EncodeScalar(v) + rest)
  {
    var vs: seq<Scalar> :| EncodeText(vs) == rest;
    assert ([v] + vs)[1..] == vs;
    assert EncodeText([v] + vs) == EncodeScalar(v) + rest;
  }

  lemma FirstScalar(s: seq<Byte>) returns (v: Scalar)
    requires s != [] && IsUtf8(s)
    ensures EncodeScalar(v) <= s && IsUtf8(s[|EncodeScalar(v)|..])
  {
    var vs: seq<Scalar> :| EncodeText(vs) == s;
    v := vs[0];
    assert s[|EncodeScalar(v)|..] == EncodeText(vs[1..]);
  }

  lemma RoundOnward(s: seq<Byte>, i: nat)
    requires i < |s| && IsUtf8(s[i..])
    ensures Round(s, i) > 0 && IsUtf8(s[i + Round(s, i)..])
  {
    var v := FirstScalar(s[i..]);
    RoundComplete(s, i, v);
    assert s[i + |EncodeScalar(v)|..] == s[i..][|EncodeScalar(v)|..];
  }

  lemma RoundBack(s: seq<Byte>, i: nat, r: nat)
    requires i < |s| && Round(s, i) == r > 0 && IsUtf8(s[i + r..])
    ensures IsUtf8(s[i..])
  {
    var v := RoundSound(s, i);
    PrependScalar(v, s[i + r..]);
    assert s[i..] == s[i..i + r] + s[i + r..];
  }

  /** Validity of the rest of the text is decided round by round. */
  lemma UnfoldUtf8(s: seq<Byte>, i: nat)
    requires i < |s|
    ensures IsUtf8(s[i..]) <==> Round(s, i) > 0 && IsUtf8(s[i + Round(s, i)..])
  {
    if IsUtf8(s[i..]) {
      RoundOnward(s, i);
    }
    if Round(s, i) > 0 && IsUtf8(s[i + Round(s, i)..]) {
      RoundBack(s, i, Round(s, i));
    }
  }

  /** The validator as a function of the text. */
  predicate ValidFrom(s: seq<Byte>, i: nat)
    requires i <= |s|
    decreases |s| - i
  {
    i == |s| || (Round(s, i) > 0 && ValidFrom(s, i + Round(s, i)))
  }

  predicate ValidText(s: seq<Byte>) {
    ValidFrom(s, 0)
  }

  lemma {:induction false} ValidFromIffUtf8(s: seq<Byte>, i: nat)
    requires i <= |s|
    ensures ValidFrom(s, i) <==> IsUtf8(s[i..])
    decreases |s| - i
  {
    if i == |s| {
      assert s[i..] == [] == EncodeText([]);
    } else {
      UnfoldUtf8(s, i);
      if Round(s, i) > 0 {
        ValidFromIffUtf8(s, i + Round(s, i));
      }
    }
  }

  /** The validator accepts exactly the encodings of sequences of scalar values. */
  lemma ValidTextIffUtf8(s: seq<Byte>)
    ensures ValidText(s) <==> IsUtf8(s)
  {
    ValidFromIffUtf8(s, 0);
    assert s[0..] == s;
  }

  /** The continuation bytes of one character. */
  method ReadContinuation(p: seq<Byte>, i: nat, need: nat) returns (ok: bool, cp: nat)
    requires i + need < |p|
    ensures ok <==> Continued(p, i, need)
    ensures ok ==> cp == Gather(p, i, need)
  {
    cp := LeadBits(p[i]);
    var k := 1;
    while k <= need
      invariant 1 <= k <= need + 1
      invariant Continued(p, i, k - 1) && cp == Gather(p, i, k - 1)
    {
      if !IsContinuation(p[i + k]) {
        return false, cp;
      }
      cp := cp * 0x40 + Bits(p[i + k]);
      k := k + 1;
    }
    ok := true;
  }

  /** nb_utf8_ok: one pass, no look beyond the buffer, and no false answer either way. */
  method Utf8Ok(p: seq<Byte>) returns (ok: bool)
    ensures ok <==> ValidText(p)
    ensures ok <==> IsUtf8(p)
  {
    ValidTextIffUtf8(p);
    var len := |p|;
    var i := 0;
    while i < len
      invariant 0 <= i <= len
      invariant ValidText(p) <==> ValidFrom(p, i)
    {
      var c := p[i];
      if c == 0 {
        return false;
      }
      if c < 0x80 {
        i := i + 1;
        continue;
      }
      var need := Need(c);
      if need == 0 || i + need >= len {
        return false;
      }
      var whole, cp := ReadContinuation(p, i, need);
      if !whole || !GoodPoint(need, cp) {
        return false;
      }
      i := i + need + 1;
    }
    ok := true;
  }
}
