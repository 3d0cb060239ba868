// The pairs of format and modifier a display announces, and what a buffer may be described as.

module Formats {
  import opened Protocol

  type Uint64 = x: int | 0 <= x < 0x1_0000_0000_0000_0000

  datatype Option<+T> = None | Some(value: T)

  datatype Pair = Pair(fourcc: Uint32, modifier: Uint64)

  const XR24: Uint32 := 0x3432_5258
  const AR24: Uint32 := 0x3432_5241
  const XB24: Uint32 := 0x3432_4258
  const AB24: Uint32 := 0x3432_4241

  const MAX_FORMATS: nat := 256
  const MOD_LINEAR: Uint64 := 0

  /** nb_fourcc_bpp: 0 means the format cannot be bounded, hence not accepted. */
  function BytesPerPixel(fourcc: Uint32): nat {
    if fourcc == XR24 || fourcc == AR24 || fourcc == XB24 || fourcc == AB24 then 4 else 0
  }

  /** nb_fourcc_opaque_twin: the same bytes, described as opaque. */
  function OpaqueTwin(fourcc: Uint32): Option<Uint32> {
    if fourcc == AR24 then Some(XR24) else if fourcc == AB24 then Some(XB24) else None
  }

  /** nb_format_resolve: the format to describe the buffer as, if any is advertised. */
  function Resolve(formatOk: Pair -> bool, fourcc: Uint32, modifier: Uint64): Option<Uint32> {
    if formatOk(Pair(fourcc, modifier)) then Some(fourcc)
    else match OpaqueTwin(fourcc)
      case Some(twin) => if formatOk(Pair(twin, modifier)) then Some(twin) else None
      case None => None
  }

  datatype Tier = Auto | Native | Linear | Shm

  /** What a tier lets into the table at all. */
  predicate Offered(tier: Tier, p: Pair) {
    && (tier == Linear ==> p.modifier == MOD_LINEAR)
    && tier != Shm
    && BytesPerPixel(p.fourcc) != 0
  }

  /** The pairs of `ps` a tier offers. */
  function OfferedOf(tier: Tier, ps: seq<Pair>): set<Pair> {
    set p | p in ps && Offered(tier, p)
  }

  lemma OfferedSnoc(tier: Tier, ps: seq<Pair>, p: Pair)
    ensures OfferedOf(tier, ps + [p]) == OfferedOf(tier, ps) + if Offered(tier, p) then {p} else {}
  {}

  /** struct nb_formats: a fixed table the display server fills. */
  class Table {
    const e: array<Pair>
    var n: nat
    var overflowed: bool

    ghost var heard: seq<Pair>  // every pair the display has announced

    ghost predicate Valid(tier: Tier)
      reads this, e
    {
      && e.Length == MAX_FORMATS && n <= MAX_FORMATS
      && (forall i, j :: 0 <= i < j < n ==> e[i] != e[j])
      && (forall i :: 0 <= i < n ==> e[i] in OfferedOf(tier, heard))
      && (overflowed ==> n == MAX_FORMATS && !(OfferedOf(tier, heard) <= Pairs()))
      && (!overflowed ==> OfferedOf(tier, heard) <= Pairs())
    }

    ghost function Pairs(): set<Pair>
      reads this, e
      requires n <= e.Length
    {
      set i | 0 <= i < n :: e[i]
    }

    constructor (ghost tier: Tier)
      ensures Valid(tier) && heard == [] && fresh(e)
    {
      e := new Pair[MAX_FORMATS](_ => Pair(0, 0));
      n, overflowed, heard := 0, false, [];
    }

    /** nb_formats_has. */
    method Has(p: Pair) returns (r: bool)
      requires n <= e.Length
      ensures r <==> p in Pairs()
    {
      var i := 0;
      while i < n
        invariant 0 <= i <= n
        invariant forall j :: 0 <= j < i ==> e[j] != p
      {
        if e[i] == p {
          return true;
        }
        i := i + 1;
      }
      r := false;
    }

    /**
     * nb_formats_add: after any announcements the table holds only offered pairs, each once; it
     * holds all of them unless it overflowed, and then it is full and says so.
     */
    method Add(tier: Tier, p: Pair)
      requires Valid(tier)
      modifies this, e
      ensures Valid(tier) && heard == old(heard) + [p]
      ensures old(Pairs()) <= Pairs()
    {
      OfferedSnoc(tier, heard, p);
      heard := heard + [p];
      if tier == Linear && p.modifier != MOD_LINEAR {
        return;
      }
      if tier == Shm {
        return;
      }
      if BytesPerPixel(p.fourcc) == 0 {
        return;
      }
      var known := Has(p);
      if known {
        return;
      }
      if n >= MAX_FORMATS {
        overflowed := true;
        return;
      }
      Append(p);
    }

    method Append(p: Pair)
      requires n < e.Length
      modifies this`n, e
      ensures n == old(n) + 1 && e[old(n)] == p
      ensures forall i :: 0 <= i < old(n) ==> e[i] == old(e[i])
      ensures Pairs() == old(Pairs()) + {p}
    {
      e[n] := p;
      n := n + 1;
      assert e[n - 1] == p;
      forall q | q in old(Pairs()) ensures q in Pairs() {
        var i :| 0 <= i < n - 1 && old(e[i]) == q;
        assert e[i] == q;
      }
      forall i | 0 <= i < n ensures e[i] in old(Pairs()) + {p} {
        if i < n - 1 {
          assert e[i] == old(e[i]);
        }
      }
    }
  }
}
