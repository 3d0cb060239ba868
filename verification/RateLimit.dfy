// The broker's one-second windows: the command rate that ends a connection, and the
// throttle on the rejection log.

module RateLimit {

  const RX_MAX_PER_SEC: nat := 20000
  const CLIP_MAX_PER_SEC: nat := 4000
  const REJECT_LOG_PER_SEC: nat := 10

  datatype Window = Window(start: nat, count: nat)

  const Fresh := Window(0, 0)

  /** Has the window run out?  The clock is unsigned, so an instant before the start counts as past the end. */
  predicate Expired(start: nat, now: nat) {
    now < start || now - start >= 1000
  }

  /** Count one more event, in a new window once this one has run out. */
  function Hit(w: Window, now: nat): Window {
    if Expired(w.start, now) then Window(now, 1) else w.(count := w.count + 1)
  }

  /** The window after the events at `ts`. */
  function Hits(ts: seq<nat>): Window {
    if ts == [] then Fresh else Hit(Hits(ts[..|ts| - 1]), ts[|ts| - 1])
  }

  /** No event so far was over the limit: the connection is still up. */
  predicate Tolerated(limit: nat, ts: seq<nat>) {
    ts == [] || (Tolerated(limit, ts[..|ts| - 1]) && Hits(ts).count <= limit)
  }

  predicate Monotone(ts: seq<nat>) {
    forall i, j :: 0 <= i <= j < |ts| ==> ts[i] <= ts[j]
  }

  /** How many of the events fall in the half-open interval. */
  function Within(ts: seq<nat>, lo: int, hi: int): nat {
    if ts == [] then 0
    else Within(ts[..|ts| - 1], lo, hi) + if lo <= ts[|ts| - 1] < hi then 1 else 0
  }

  function Since(ts: seq<nat>, lo: int): nat {
    if ts == [] then 0
    else Since(ts[..|ts| - 1], lo) + if lo <= ts[|ts| - 1] then 1 else 0
  }

  lemma {:induction false} SinceNone(ts: seq<nat>, lo: int)
    requires forall i :: 0 <= i < |ts| ==> ts[i] < lo
    ensures Since(ts, lo) == 0
  {
    if ts != [] {
      SinceNone(ts[..|ts| - 1], lo);
    }
  }

  lemma {:induction false} WithinSince(ts: seq<nat>, lo: int, hi: int)
    ensures Within(ts, lo, hi) <= Since(ts, lo)
  {
    if ts != [] {
      WithinSince(ts[..|ts| - 1], lo, hi);
    }
  }

  /**
   * Seen from an instant `t`: the running window accounts for everything from its start on,
   * and the one before it for at most a limit's worth more within a second of that start.
   */
  lemma {:induction false} WindowsAccount(limit: nat, ts: seq<nat>, t: int)
    requires Monotone(ts) && Tolerated(limit, ts)
    ensures var w := Hits(ts);
            && w.count <= limit
            && (ts != [] ==> w.start <= ts[|ts| - 1] < w.start + 1000)
            && (t >= w.start ==> Since(ts, t) <= w.count)
            && (t > w.start - 1000 ==> Since(ts, t) <= limit + w.count)
            && Within(ts, t, t + 1000) <= 2 * limit
  {
    if ts != [] {
      var ts', now := ts[..|ts| - 1], ts[|ts| - 1];
      var w := Hits(ts');
      WindowsAccount(limit, ts', t);
      WithinSince(ts, t, t + 1000);
      if now - w.start >= 1000 && t >= now {
        SinceNone(ts', t);
      }
    }
  }

  /** However the commands of a connection are timed, no second of it holds more than two windows' worth. */
  lemma CommandsPerSecond(ts: seq<nat>, t: nat)
    requires Monotone(ts) && Tolerated(RX_MAX_PER_SEC, ts)
    ensures Within(ts, t, t + 1000) <= 2 * RX_MAX_PER_SEC
  {
    WindowsAccount(RX_MAX_PER_SEC, ts, t);
  }

  // ---- the bound is reached ---------------------------------------------------

  function Burst(n: nat, at: nat): (ts: seq<nat>)
    ensures |ts| == n && forall i :: 0 <= i < n ==> ts[i] == at
  {
    seq(n, _ => at)
  }

  lemma {:induction false} BurstCounts(limit: nat, ts: seq<nat>, n: nat, at: nat)
    requires Tolerated(limit, ts)
    requires if Expired(Hits(ts).start, at) then n <= limit else Hits(ts).count + n <= limit
    ensures var w := Hits(ts + Burst(n, at));
            && Tolerated(limit, ts + Burst(n, at))
            && (n == 0 ==> w == Hits(ts))
            && (n > 0 ==> w == if Expired(Hits(ts).start, at) then Window(at, n) else Hits(ts).(count := Hits(ts).count + n))
  {
    var all := ts + Burst(n, at);
    if n == 0 {
      assert all == ts;
    } else {
      BurstCounts(limit, ts, n - 1, at);
      assert all[..|all| - 1] == ts + Burst(n - 1, at);
    }
  }

  lemma {:induction false} BurstWithin(ts: seq<nat>, n: nat, at: nat, lo: int, hi: int)
    requires lo <= at < hi
    ensures Within(ts + Burst(n, at), lo, hi) == Within(ts, lo, hi) + n
  {
    var all := ts + Burst(n, at);
    if n == 0 {
      assert all == ts;
    } else {
      BurstWithin(ts, n - 1, at, lo, hi);
      assert all[..|all| - 1] == ts + Burst(n - 1, at);
    }
  }

  /** Two full windows do fit into one second: the bound above cannot be improved. */
  lemma CommandsPerSecondTight()
    ensures exists ts: seq<nat> ::
              && Monotone(ts) && Tolerated(RX_MAX_PER_SEC, ts)
              && Within(ts, 999, 1999) == 2 * RX_MAX_PER_SEC
  {
    var n := RX_MAX_PER_SEC;
    var first := Burst(n, 999);
    var ts := first + Burst(n, 1000);
    assert [] + first == first;
    BurstCounts(n, [], n, 999);
    BurstCounts(n, first, n, 1000);
    BurstWithin([], n, 999, 999, 1999);
    BurstWithin(first, n, 1000, 999, 1999);
    assert Monotone(ts);
  }

  // ---- the rejection log --------------------------------------------------------

  /** The throttle's window and the lines it has swallowed since it last owned up to some. */
  datatype RejectLog = RejectLog(window: Window, hidden: nat)

  const Quiet := RejectLog(Fresh, 0)

  /** nb_reject_log: the new state, whether this line may be written, and how many it reports as swallowed. */
  function Reject(l: RejectLog, now: nat): (RejectLog, bool, nat) {
    var over := Expired(l.window.start, now);
    var w := Hit(l.window, now);
    var hidden := if over then 0 else l.hidden;
    var allowed := w.count <= REJECT_LOG_PER_SEC;
    (RejectLog(w, if allowed then hidden else hidden + 1), allowed, if over then l.hidden else 0)
  }

  /** The account of a run: lines written, lines reported as swallowed, and the state left behind. */
  function Account(ts: seq<nat>): (r: (nat, nat, RejectLog)) {
    if ts == [] then (0, 0, Quiet)
    else
      var (written, reported, l) := Account(ts[..|ts| - 1]);
      var (l', allowed, n) := Reject(l, ts[|ts| - 1]);
      (written + (if allowed then 1 else 0), reported + n, l')
  }

  /** No rejection goes unaccounted for: each is written, reported as swallowed, or still held to be reported. */
  lemma {:induction false} RejectionsConserved(ts: seq<nat>)
    ensures var (written, reported, l) := Account(ts); written + reported + l.hidden == |ts|
  {
    if ts != [] {
      RejectionsConserved(ts[..|ts| - 1]);
    }
  }

  /** The counters behind nb_reject_log. */
  class Throttle {
    var start: nat
    var count: nat
    var hidden: nat

    ghost function View(): RejectLog
      reads this
    {
      RejectLog(Window(start, count), hidden)
    }

    constructor ()
      ensures View() == Quiet
    {
      start, count, hidden := 0, 0, 0;
    }

    /** nb_reject_log: may this line be written, and how many swallowed ones does it own up to first? */
    method Allow(now: nat) returns (allowed: bool, reported: nat)
      modifies this
      ensures (View(), allowed, reported) == Reject(old(View()), now)
    {
      reported := 0;
      if Expired(start, now) {
        reported := hidden;
        start, count, hidden := now, 0, 0;
      }
      count := count + 1;
      if count > REJECT_LOG_PER_SEC {
        hidden := hidden + 1;
        return false, reported;
      }
      allowed := true;
    }
  }
}
