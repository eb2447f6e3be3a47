// Redis keys with a time to live, and the three protocols built on one such
// key: the view cap of a link, the fixed-window rate limiter, and the
// one-time TOTP nonce. Times are integers in nanoseconds.

module TimedKeys {

  import opened Arithmetic

  /** A stored integer and, if EXPIRE was given, the last instant it is readable. */
  datatype Entry = Entry(n: int, deadline: Deadline)

  datatype Deadline = Never | At(t: int)

  datatype Cell = Absent | Held(e: Entry)

  function CellIn(cells: map<string, Cell>, key: string): Cell { if key in cells then cells[key] else Absent }

  /** Redis drops a key once the clock has passed its deadline. */
  function Read(c: Cell, now: int): Cell {
    if c.Held? && c.e.deadline.At? && now > c.e.deadline.t then Absent else c
  }

  /** The command INCR: an absent key counts from zero and has no deadline. */
  function Incr(c: Cell, now: int): Entry {
    match Read(c, now)
    case Absent => Entry(1, Never)
    case Held(e) => Entry(e.n + 1, e.deadline)
  }

  function ExpireIn(e: Entry, now: int, seconds: int): Entry { e.(deadline := At(now + seconds * SECOND)) }

  // consumeViewScript

  /** The cell after the script, and the number it returns. */
  function ConsumeView(c: Cell, now: int, max: int, ttlSeconds: int): (Cell, int) {
    var e := Incr(c, now);
    var e' := if ttlSeconds > 0 && e.n == 1 then ExpireIn(e, now, ttlSeconds) else e;
    (Held(e'), if max > 0 && e'.n > max then -1 else e'.n)
  }

  // rateLimitScript

  datatype RateResult = RateResult(allowed: bool, remaining: int, reset: int)

  /** TTL rounds the remaining milliseconds to the nearest second. */
  function TtlSeconds(e: Entry, now: int): int {
    match e.deadline
    case Never => -1
    case At(t) => ((t - now) / 1_000_000 + 500) / 1000
  }

  function RateLimit(c: Cell, now: int, limit: int, windowSeconds: int): (Cell, RateResult) {
    var e := Incr(c, now);
    var e' := if e.n == 1 then ExpireIn(e, now, windowSeconds) else e;
    var reset := now / SECOND + TtlSeconds(e', now);
    (Held(e'), if e'.n > limit then RateResult(false, 0, reset) else RateResult(true, limit - e'.n, reset))
  }

  // SETNX key "1" EX seconds

  function SetNX(c: Cell, now: int, seconds: int): (Cell, bool) {
    if Read(c, now).Held? then (c, false) else (Held(ExpireIn(Entry(1, Never), now, seconds)), true)
  }

  /** The number and deadline that INCR finds: those of a key that is there, or zero. */
  function Existing(c: Cell, now: int): Entry {
    match c
    case Absent => Entry(0, Never)
    case Held(Entry(n, Never)) => Entry(n, Never)
    case Held(Entry(n, At(t))) => if now <= t then Entry(n, At(t)) else Entry(0, Never)
  }

  /** The view counter goes up by one, takes its time to live with its first view, and
      refuses what is above the cap, when there is one. */
  lemma ConsumeViewExactly(c: Cell, now: int, max: int, ttlSeconds: int)
    ensures var (n, d) := (Existing(c, now).n + 1, Existing(c, now).deadline);
            ConsumeView(c, now, max, ttlSeconds) ==
              (Held(Entry(n, if n == 1 && ttlSeconds > 0 then At(now + ttlSeconds * SECOND) else d)),
               if max > 0 && n > max then -1 else n)
  {
  }

  /** The limiter's counter goes up by one and its window starts with the first call; the
      reset is the rest of the window in seconds, rounded to the nearest. */
  lemma RateLimitExactly(c: Cell, now: int, limit: int, windowSeconds: int)
    ensures var n := Existing(c, now).n + 1;
            var d := if n == 1 then At(now + windowSeconds * SECOND) else Existing(c, now).deadline;
            var rest := if d == Never then -1 else ((d.t - now) / 1_000_000 + 500) / 1000;
            RateLimit(c, now, limit, windowSeconds) ==
              (Held(Entry(n, d)),
               RateResult(n <= limit, if n <= limit then limit - n else 0, now / 1_000_000_000 + rest))
  {
  }

  /** A key is set exactly when it is not there. */
  lemma SetNXExactly(c: Cell, now: int, seconds: int)
    ensures SetNX(c, now, seconds) ==
              if c == Absent || (c.e.deadline != Never && c.e.deadline.t < now)
              then (Held(Entry(1, At(now + seconds * SECOND))), true) else (c, false)
  {
  }

  /** redisx.Client: a keyspace; each operation touches one prefixed key. */
  class Client {
    var cells: map<string, Cell>

    constructor ()
      ensures cells == map[]
    {
      cells := map[];
    }

    ghost function CellAt(key: string): Cell
      reads this
    {
      CellIn(cells, key)
    }

    method IncrKey(key: string, now: int) returns (n: int)
      modifies this
      ensures cells == old(cells)[key := Held(Incr(old(CellAt(key)), now))]
      ensures n == Incr(old(CellAt(key)), now).n
    {
      var e := Entry(1, Never);
      if key in cells {
        match cells[key]
        case Held(f) =>
          if f.deadline == Never || now <= f.deadline.t {
            e := f.(n := f.n + 1);
          }
        case Absent =>
      }
      cells := cells[key := Held(e)];
      n := e.n;
    }

    method ExpireKey(key: string, now: int, seconds: int)
      requires key in cells && cells[key].Held?
      modifies this
      ensures cells == old(cells)[key := Held(ExpireIn(old(cells[key].e), now, seconds))]
    {
      cells := cells[key := Held(cells[key].e.(deadline := At(now + seconds * SECOND)))];
    }

    /** ok is false for the quota error. ttl is a Go duration, cut to whole seconds. */
    method ConsumeViewOf(linkID: string, max: int, ttl: int, now: int) returns (ok: bool, count: int)
      modifies this
      ensures var key := "view:" + linkID;
              var (cell, res) := ConsumeView(old(CellAt(key)), now, max, WholeSeconds(ttl));
              && cells == old(cells)[key := cell]
              && ok == (res >= 0)
              && (ok ==> count == res)
    {
      var key := "view:" + linkID;
      var seconds := WholeSeconds(ttl);
      var n := IncrKey(key, now);
      if seconds > 0 && n == 1 {
        ExpireKey(key, now, seconds);
      }
      if max > 0 && n > max {
        return false, 0;
      }
      return n >= 0, n;
    }

    method RateLimitOf(key: string, limit: int, windowSeconds: int, now: int) returns (r: RateResult)
      modifies this
      ensures var (cell, res) := RateLimit(old(CellAt("rl:" + key)), now, limit, windowSeconds);
              cells == old(cells)["rl:" + key := cell] && r == res
    {
      var k := "rl:" + key;
      var n := IncrKey(k, now);
      if n == 1 {
        ExpireKey(k, now, windowSeconds);
      }
      var reset := now / SECOND + TtlSeconds(cells[k].e, now);
      if n > limit {
        return RateResult(false, 0, reset);
      }
      return RateResult(true, limit - n, reset);
    }

    method SetNXOf(key: string, seconds: int, now: int) returns (created: bool)
      modifies this
      ensures var (cell, res) := SetNX(old(CellAt(key)), now, seconds);
              && created == res
              && cells == if res then old(cells)[key := cell] else old(cells)
    {
      if key in cells && cells[key].Held? && (cells[key].e.deadline == Never || now <= cells[key].e.deadline.t) {
        return false;
      }
      cells := cells[key := Held(Entry(1, At(now + seconds * SECOND)))];
      return true;
    }
  }

  /** A sequence of instants that never goes back. */
  predicate Ordered(ts: seq<int>) { forall i, j :: 0 <= i <= j < |ts| ==> ts[i] <= ts[j] }

  function Repeat(t: int, k: nat): (r: seq<int>)
    ensures |r| == k && forall i :: 0 <= i < k ==> r[i] == t
  {
    seq(k, _ => t)
  }
}

module ViewCap {
  import opened Arithmetic
  import opened TimedKeys
  import opened Expiries

  /** consumeView on the links with a cap: one atomic script run at `now`. The
      admission gate has already refused requests later than the expiry. */
  function TtlOf(expiry: Expiry, now: int): int {
    if expiry.NoExpiry? || expiry.at < now then 0 else (expiry.at - now) / SECOND
  }

  function Admit(c: Cell, expiry: Expiry, cap: int, now: int): (Cell, bool) {
    var (c', res) := ConsumeView(c, now, cap, TtlOf(expiry, now));
    (c', res >= 0)
  }

  function CellAfter(expiry: Expiry, cap: int, ts: seq<int>): Cell {
    if ts == [] then Absent
    else Admit(CellAfter(expiry, cap, ts[..|ts| - 1]), expiry, cap, ts[|ts| - 1]).0
  }

  /** How many of the attempts at the instants ts were admitted. */
  function Admitted(expiry: Expiry, cap: int, ts: seq<int>): nat {
    if ts == [] then 0
    else
      var front := ts[..|ts| - 1];
      Admitted(expiry, cap, front)
        + if Admit(CellAfter(expiry, cap, front), expiry, cap, ts[|ts| - 1]).1 then 1 else 0
  }

  /** An attempt that reaches the counter: instants in order, none after the expiry. */
  predicate Attempts(expiry: Expiry, ts: seq<int>) {
    Ordered(ts) && (expiry.Expires? ==> forall i :: 0 <= i < |ts| ==> ts[i] <= expiry.at)
  }

  /** How many instants are at most t. */
  function UpTo(ts: seq<int>, t: int): nat {
    if ts == [] then 0 else UpTo(ts[..|ts| - 1], t) + if ts[|ts| - 1] <= t then 1 else 0
  }

  /** The last instant at which the first counter is still there. */
  function FirstDeadline(expiry: Expiry, first: int): Deadline {
    if TtlOf(expiry, first) == 0 then Never else At(first + TtlOf(expiry, first) * SECOND)
  }

  lemma FirstDeadlineInLastSecond(expiry: Expiry, first: int)
    requires expiry.Expires? && first <= expiry.at
    ensures var d := FirstDeadline(expiry, first);
            && (d.Never? <==> expiry.at - first < SECOND)
            && (d.At? ==> expiry.at - SECOND < d.t <= expiry.at && first < d.t)
            && (d.At? ==> (d.t == expiry.at <==> (expiry.at - first) % SECOND == 0))
  {
  }

  lemma {:induction false} UpToBounds(ts: seq<int>, t: int)
    requires Ordered(ts)
    ensures UpTo(ts, t) <= |ts|
    ensures UpTo(ts, t) > 0 <==> ts != [] && ts[0] <= t
    ensures UpTo(ts, t) == |ts| <==> ts == [] || ts[|ts| - 1] <= t
  {
    if ts != [] {
      UpToBounds(ts[..|ts| - 1], t);
    }
  }

  /** The cell in closed form: one counter until the first deadline, and a second,
      never-expiring one after it. */
  lemma {:induction false} CellClosedForm(expiry: Expiry, cap: int, ts: seq<int>)
    requires Attempts(expiry, ts) && ts != []
    ensures var d := FirstDeadline(expiry, ts[0]);
            CellAfter(expiry, cap, ts)
              == if d.Never? then Held(Entry(|ts|, Never))
                 else if ts[|ts| - 1] <= d.t then Held(Entry(|ts|, d))
                 else Held(Entry(|ts| - UpTo(ts, d.t), Never))
  {
    var d := FirstDeadline(expiry, ts[0]);
    var front := ts[..|ts| - 1];
    var now := ts[|ts| - 1];
    if expiry.Expires? { FirstDeadlineInLastSecond(expiry, ts[0]); }
    if front == [] {
      assert CellAfter(expiry, cap, front) == Absent;
    } else {
      assert front[0] == ts[0];
      CellClosedForm(expiry, cap, front);
      if d.At? {
        UpToBounds(front, d.t);
        UpToBounds(ts, d.t);
      }
    }
  }

  /** The admissions of a run whose first counter has the deadline d. */
  function AdmittedBy(d: Deadline, cap: int, ts: seq<int>): int {
    if d.Never? then Min(|ts|, cap) else Min(UpTo(ts, d.t), cap) + Min(|ts| - UpTo(ts, d.t), cap)
  }

  /** Exactly how many views a run admits: the cap applies once to the attempts up
      to the first deadline and once more to the later ones. */
  lemma {:induction false} AdmittedExactly(expiry: Expiry, cap: int, ts: seq<int>)
    requires Attempts(expiry, ts) && ts != [] && cap >= 1
    ensures Admitted(expiry, cap, ts) == AdmittedBy(FirstDeadline(expiry, ts[0]), cap, ts)
  {
    var front := ts[..|ts| - 1];
    if front == [] {
      FirstAdmitted(expiry, cap, ts);
    } else {
      AdmittedExactly(expiry, cap, front);
      NextAdmitted(expiry, cap, ts);
    }
  }

  lemma FirstAdmitted(expiry: Expiry, cap: int, ts: seq<int>)
    requires Attempts(expiry, ts) && |ts| == 1 && cap >= 1
    ensures Admitted(expiry, cap, ts) == 1 == AdmittedBy(FirstDeadline(expiry, ts[0]), cap, ts)
  {
    var d := FirstDeadline(expiry, ts[0]);
    if expiry.Expires? { FirstDeadlineInLastSecond(expiry, ts[0]); }
    assert ts[..0] == [] && CellAfter(expiry, cap, ts[..0]) == Absent;
    assert d.At? ==> UpTo(ts[..0], d.t) == 0;
  }

  lemma NextAdmitted(expiry: Expiry, cap: int, ts: seq<int>)
    requires Attempts(expiry, ts) && |ts| >= 2 && cap >= 1
    ensures var d := FirstDeadline(expiry, ts[0]);
            var front := ts[..|ts| - 1];
            Admitted(expiry, cap, ts) - Admitted(expiry, cap, front)
              == AdmittedBy(d, cap, ts) - AdmittedBy(d, cap, front)
  {
    var d := FirstDeadline(expiry, ts[0]);
    var front := ts[..|ts| - 1];
    if expiry.Expires? { FirstDeadlineInLastSecond(expiry, ts[0]); }
    CellClosedForm(expiry, cap, front);
    if d.At? {
      UpToBounds(front, d.t);
      UpToBounds(ts, d.t);
    }
  }

  /** With no expiry the cap is exact. */
  lemma CapIsExactWithoutExpiry(cap: int, ts: seq<int>)
    requires Ordered(ts) && cap >= 1
    ensures Admitted(NoExpiry, cap, ts) == Min(|ts|, cap)
  {
    if ts != [] { AdmittedExactly(NoExpiry, cap, ts); }
  }

  /** With an expiry: at most cap views up to one second before it, 2 * cap in all. */
  lemma CapBounds(at: int, cap: int, ts: seq<int>)
    requires Attempts(Expires(at), ts) && cap >= 1
    ensures Admitted(Expires(at), cap, ts) <= 2 * cap
    ensures ts != [] && ts[|ts| - 1] <= at - SECOND ==> Admitted(Expires(at), cap, ts) == Min(|ts|, cap)
  {
    if ts != [] {
      FirstDeadlineInLastSecond(Expires(at), ts[0]);
      AdmittedExactly(Expires(at), cap, ts);
      var d := FirstDeadline(Expires(at), ts[0]);
      if d.At? { UpToBounds(ts, d.t); }
    }
  }

  lemma {:induction false} UpToSplit(first: int, last: int, k: nat, t: int)
    requires first <= t < last
    ensures Ordered([first] + Repeat(last, k))
    ensures UpTo([first] + Repeat(last, k), t) == 1
  {
    var ts := [first] + Repeat(last, k);
    if k == 0 {
      assert ts == [first] && ts[..0] == [];
      assert UpTo(ts[..0], t) == 0;
    } else {
      assert ts[..|ts| - 1] == [first] + Repeat(last, k - 1);
      UpToSplit(first, last, k - 1, t);
    }
  }

  /** The documented promise (never more than `cap` admissions) holds for all runs
      that begin at `first` exactly when that first view leaves less than a second,
      or a whole number of seconds, before the expiry. */
  lemma CapHoldsIffWholeSeconds(at: int, cap: int, first: int)
    requires cap >= 1 && first <= at
    ensures (forall ts :: Attempts(Expires(at), ts) && ts != [] && ts[0] == first
                          ==> Admitted(Expires(at), cap, ts) <= cap)
       <==> (at - first < SECOND || (at - first) % SECOND == 0)
  {
    var expiry := Expires(at);
    var d := FirstDeadline(expiry, first);
    FirstDeadlineInLastSecond(expiry, first);
    if at - first < SECOND || (at - first) % SECOND == 0 {
      forall ts | Attempts(expiry, ts) && ts != [] && ts[0] == first
        ensures Admitted(expiry, cap, ts) <= cap
      {
        AdmittedExactly(expiry, cap, ts);
        if d.At? { UpToBounds(ts, d.t); }
      }
    } else {
      var ts := [first] + Repeat(at, cap);
      UpToSplit(first, at, cap, d.t);
      AdmittedExactly(expiry, cap, ts);
      assert Attempts(expiry, ts) && ts[0] == first && Admitted(expiry, cap, ts) == cap + 1;
    }
  }
}

module RateWindow {
  import opened Arithmetic
  import opened TimedKeys

  // Calls to the limiter on one key, with a limit and a window of w seconds.

  function CellAfter(limit: int, w: int, ts: seq<int>): Cell {
    if ts == [] then Absent
    else RateLimit(CellAfter(limit, w, ts[..|ts| - 1]), ts[|ts| - 1], limit, w).0
  }

  /** The answer to the last call of a run. */
  function LastResult(limit: int, w: int, ts: seq<int>): RateResult
    requires ts != []
  {
    RateLimit(CellAfter(limit, w, ts[..|ts| - 1]), ts[|ts| - 1], limit, w).1
  }

  /** How many calls fall in the closed interval [a, b], and how many of them were allowed. */
  function CallsIn(ts: seq<int>, a: int, b: int): nat {
    if ts == [] then 0
    else CallsIn(ts[..|ts| - 1], a, b) + if a <= ts[|ts| - 1] <= b then 1 else 0
  }

  function AllowedIn(limit: int, w: int, ts: seq<int>, a: int, b: int): nat {
    if ts == [] then 0
    else
      AllowedIn(limit, w, ts[..|ts| - 1], a, b)
        + if a <= ts[|ts| - 1] <= b && LastResult(limit, w, ts).allowed then 1 else 0
  }

  /** When the current window opened. */
  function WindowStart(limit: int, w: int, ts: seq<int>): int
    requires ts != [] && w >= 1
  {
    match CellAfter(limit, w, ts)
    case Held(Entry(_, At(t))) => t - w * SECOND
    case _ => ts[|ts| - 1]
  }

  /** A call opens a new window exactly when it comes after the end of the current
      one; all other calls, allowed or denied, leave the window where it is. */
  lemma WindowMoves(limit: int, w: int, ts: seq<int>, now: int)
    requires w >= 1 && ts != [] && Ordered(ts + [now])
    ensures var s := WindowStart(limit, w, ts);
            && WindowStart(limit, w, ts + [now]) == (if now <= s + w * SECOND then s else now)
            && (now > s + w * SECOND ==> LastResult(limit, w, ts + [now]).allowed == (1 <= limit))
  {
    assert (ts + [now])[..|ts|] == ts;
    assert ts + [now] != [];
    assert forall i, j :: 0 <= i <= j < |ts| ==> (ts + [now])[i] <= (ts + [now])[j];
    WindowExact(limit, w, ts);
    assert CellAfter(limit, w, ts + [now]) == RateLimit(CellAfter(limit, w, ts), now, limit, w).0;
  }

  /** The current window after a run: when it opened, what it counted and allowed, and
      what the last call was told. */
  predicate InWindow(limit: int, w: int, ts: seq<int>, s: int)
    requires w >= 1 && ts != []
  {
    var end := s + w * SECOND;
    var calls := CallsIn(ts, s, end);
    && s <= ts[|ts| - 1] <= end
    && CellAfter(limit, w, ts) == Held(Entry(calls, At(end)))
    && calls >= 1
    && AllowedIn(limit, w, ts, s, end) == Clamp0(Min(calls, limit))
    && LastResult(limit, w, ts).allowed == (calls <= limit)
    && LastResult(limit, w, ts).remaining == Clamp0(limit - calls)
  }

  /** In the window that is current after a run, the number of allowed calls is the
      smaller of the calls and the limit, and the last answer counts down to zero. */
  lemma {:induction false} WindowExact(limit: int, w: int, ts: seq<int>)
    requires w >= 1 && ts != [] && Ordered(ts)
    ensures InWindow(limit, w, ts, WindowStart(limit, w, ts))
  {
    var front := ts[..|ts| - 1];
    if front == [] {
      WindowOpens(limit, w, ts);
    } else {
      WindowExact(limit, w, front);
      var s := WindowStart(limit, w, front);
      if ts[|ts| - 1] > s + w * SECOND {
        WindowOpens(limit, w, ts);
      } else {
        WindowContinues(limit, w, ts, s);
      }
    }
  }

  lemma WindowOpens(limit: int, w: int, ts: seq<int>)
    requires w >= 1 && ts != [] && Ordered(ts)
    requires Read(CellAfter(limit, w, ts[..|ts| - 1]), ts[|ts| - 1]).Absent?
    requires |ts| == 1 || ts[|ts| - 2] < ts[|ts| - 1]
    ensures InWindow(limit, w, ts, ts[|ts| - 1]) && WindowStart(limit, w, ts) == ts[|ts| - 1]
  {
    var now := ts[|ts| - 1];
    NoneLater(limit, w, ts[..|ts| - 1], now, now + w * SECOND);
  }

  lemma WindowContinues(limit: int, w: int, ts: seq<int>, s: int)
    requires w >= 1 && |ts| >= 2 && Ordered(ts) && InWindow(limit, w, ts[..|ts| - 1], s)
    requires ts[|ts| - 1] <= s + w * SECOND
    ensures InWindow(limit, w, ts, s) && WindowStart(limit, w, ts) == s
  {
  }

  lemma {:induction false} NoneLater(limit: int, w: int, ts: seq<int>, a: int, b: int)
    requires Ordered(ts) && (ts != [] ==> ts[|ts| - 1] < a)
    ensures CallsIn(ts, a, b) == 0 && AllowedIn(limit, w, ts, a, b) == 0
  {
    if ts != [] { NoneLater(limit, w, ts[..|ts| - 1], a, b); }
  }

  /** Every interval as long as the window contains at most 2 * limit - 1 allowed
      calls: at most two windows meet it, and the earlier one opened, with an
      allowed call, before it. The count after each prefix depends on whether the
      current window opened before, inside or after the interval. */
  lemma {:induction false} LessThanTwiceTheLimit(limit: int, w: int, ts: seq<int>, a: int)
    requires w >= 1 && Ordered(ts) && limit >= 1
    ensures AllowedIn(limit, w, ts, a, a + w * SECOND) <= 2 * limit - 1
    ensures ts != [] ==>
              var n := CellAfter(limit, w, ts).e.n;
              var s := WindowStart(limit, w, ts);
              && (s < a ==> AllowedIn(limit, w, ts, a, a + w * SECOND) <= Min(n, limit) - 1)
              && (s <= a + w * SECOND ==>
                    AllowedIn(limit, w, ts, a, a + w * SECOND) <= limit - 1 + Min(n, limit))
  {
    if ts != [] {
      var front := ts[..|ts| - 1];
      var now := ts[|ts| - 1];
      WindowExact(limit, w, ts);
      if front == [] {
        assert AllowedIn(limit, w, front, a, a + w * SECOND) == 0;
      } else {
        WindowExact(limit, w, front);
        LessThanTwiceTheLimit(limit, w, front, a);
        NextWindow(limit, w, ts);
        if now < a { NoneLater(limit, w, ts, a, a + w * SECOND); }
      }
    }
  }

  lemma NextWindow(limit: int, w: int, ts: seq<int>)
    requires w >= 1 && |ts| >= 2 && Ordered(ts)
    ensures var front := ts[..|ts| - 1];
            var now := ts[|ts| - 1];
            var s := WindowStart(limit, w, front);
            && WindowStart(limit, w, ts) == (if now <= s + w * SECOND then s else now)
            && CellAfter(limit, w, ts).Held? && CellAfter(limit, w, front).Held?
            && CellAfter(limit, w, ts).e.n == (if now <= s + w * SECOND then CellAfter(limit, w, front).e.n + 1 else 1)
  {
    WindowExact(limit, w, ts[..|ts| - 1]);
  }

  // ---- When the limit itself holds ----

  /** A run followed by k calls at one instant. */
  function Then(ts: seq<int>, t: int, k: nat): seq<int> { if k == 0 then ts else Then(ts, t, k - 1) + [t] }

  predicate OrderedUpTo(ts: seq<int>, t: int) { Ordered(ts) && forall i :: 0 <= i < |ts| ==> ts[i] <= t }

  lemma {:induction false} ThenIsOrdered(ts: seq<int>, s: int, t: int, k: nat)
    requires OrderedUpTo(ts, s) && s <= t
    ensures OrderedUpTo(Then(ts, t, k), t)
  {
    if k > 0 { ThenIsOrdered(ts, s, t, k - 1); }
  }

  /** How many of the calls in [a, b] are allowed, given the key after the run. */
  predicate Stands(limit: int, w: int, ts: seq<int>, n: int, end: int, a: int, b: int, allowed: int) {
    CellAfter(limit, w, ts) == Held(Entry(n, At(end))) && AllowedIn(limit, w, ts, a, b) == allowed
  }

  /** One call more, in the current window ... */
  lemma CallInWindow(limit: int, w: int, ts: seq<int>, t: int, n: int, end: int, a: int, b: int, allowed: int)
    requires Stands(limit, w, ts, n, end, a, b, allowed) && n >= 1 && t <= end
    ensures Stands(limit, w, ts + [t], n + 1, end, a, b, allowed + if a <= t <= b && n + 1 <= limit then 1 else 0)
  {
    assert (ts + [t])[..|ts|] == ts;
  }

  /** ... or after it, or as the first one. */
  lemma CallAfterWindow(limit: int, w: int, ts: seq<int>, t: int, a: int, b: int)
    requires Read(CellAfter(limit, w, ts), t).Absent? && limit >= 1
    ensures Stands(limit, w, ts + [t], 1, t + w * SECOND, a, b,
                   AllowedIn(limit, w, ts, a, b) + if a <= t <= b then 1 else 0)
  {
    assert (ts + [t])[..|ts|] == ts;
  }

  /** k more calls that stay within the limit. */
  lemma {:induction false} MoreCalls(limit: int, w: int, ts: seq<int>, t: int, k: nat, n: int, end: int,
                                     a: int, b: int, allowed: int)
    requires Stands(limit, w, ts, n, end, a, b, allowed) && n >= 1 && t <= end && n + k <= limit && a <= t <= b
    ensures Stands(limit, w, Then(ts, t, k), n + k, end, a, b, allowed + k)
  {
    if k > 0 {
      MoreCalls(limit, w, ts, t, k - 1, n, end, a, b, allowed);
      CallInWindow(limit, w, Then(ts, t, k - 1), t, n + k - 1, end, a, b, allowed + k - 1);
    }
  }

  /** One call, and the rest of its window's calls in the last instant of it. */
  function LateCalls(limit: int, w: int): seq<int>
    requires limit >= 1
  {
    Then([0], w * SECOND, limit - 1)
  }

  /** Then a whole window's calls right after it. */
  function Burst(limit: int, w: int): seq<int>
    requires limit >= 1
  {
    Then(LateCalls(limit, w) + [w * SECOND + 1], w * SECOND + 1, limit - 1)
  }

  lemma BurstIsOrdered(limit: int, w: int)
    requires w >= 1 && limit >= 1
    ensures Ordered(Burst(limit, w))
  {
    ThenIsOrdered([0], 0, w * SECOND, limit - 1);
    ThenIsOrdered(LateCalls(limit, w) + [w * SECOND + 1], w * SECOND + 1, w * SECOND + 1, limit - 1);
  }

  lemma LateCallsAllowed(limit: int, w: int, end: int)
    requires w >= 1 && limit >= 1 && end == w * SECOND
    ensures Stands(limit, w, LateCalls(limit, w), limit, end, 1, 1 + end, limit - 1)
  {
    CallAfterWindow(limit, w, [], 0, 1, 1 + end);
    assert [] + [0] == [0];
    MoreCalls(limit, w, [0], end, limit - 1, 1, end, 1, 1 + end, 0);
  }

  /** A whole window's calls at the instant t, after the current window. */
  lemma FullWindow(limit: int, w: int, ts: seq<int>, t: int, a: int, b: int, allowed: int)
    requires w >= 1 && limit >= 1 && a <= t <= b
    requires Read(CellAfter(limit, w, ts), t).Absent? && AllowedIn(limit, w, ts, a, b) == allowed
    ensures AllowedIn(limit, w, Then(ts + [t], t, limit - 1), a, b) == allowed + limit
  {
    CallAfterWindow(limit, w, ts, t, a, b);
    MoreCalls(limit, w, ts + [t], t, limit - 1, 1, t + w * SECOND, a, b, allowed + 1);
  }

  /** For every limit and window the bound is reached. */
  lemma BoundIsReached(limit: int, w: int)
    requires w >= 1 && limit >= 1
    ensures Ordered(Burst(limit, w))
    ensures AllowedIn(limit, w, Burst(limit, w), 1, 1 + w * SECOND) == 2 * limit - 1
  {
    var end := w * SECOND;
    BurstIsOrdered(limit, w);
    LateCallsAllowed(limit, w, end);
    FullWindow(limit, w, LateCalls(limit, w), end + 1, 1, 1 + end, limit - 1);
  }

  ghost predicate WithinLimit(limit: int, w: int, ts: seq<int>, a: int) {
    AllowedIn(limit, w, ts, a, a + w * SECOND) <= limit
  }

  /** No run allows more than the limit in any interval as long as the window exactly
      when the limit is one. */
  lemma LimitHoldsIffOne(limit: int, w: int)
    requires w >= 1 && limit >= 1
    ensures (forall ts, a :: Ordered(ts) ==> WithinLimit(limit, w, ts, a)) <==> limit == 1
  {
    if limit == 1 {
      forall ts, a | Ordered(ts) ensures WithinLimit(limit, w, ts, a) { LessThanTwiceTheLimit(limit, w, ts, a); }
    } else {
      BoundIsReached(limit, w);
      assert !WithinLimit(limit, w, Burst(limit, w), 1);
    }
  }

  /** With a limit of zero or less nothing is ever allowed. */
  lemma {:induction false} NoLimitNoCalls(limit: int, w: int, ts: seq<int>, a: int, b: int)
    requires w >= 1 && Ordered(ts) && limit <= 0
    ensures AllowedIn(limit, w, ts, a, b) == 0
  {
    if ts != [] {
      WindowExact(limit, w, ts);
      NoLimitNoCalls(limit, w, ts[..|ts| - 1], a, b);
    }
  }

  /** The reset instant sent to the client is within 1.5 s of the window's end. */
  lemma ResetIsWindowEnd(limit: int, w: int, ts: seq<int>)
    requires w >= 1 && ts != [] && Ordered(ts)
    ensures var end := WindowStart(limit, w, ts) + w * SECOND;
            2 * end - 3 * SECOND <= 2 * LastResult(limit, w, ts).reset * SECOND <= 2 * end + SECOND
  {
    WindowExact(limit, w, ts);
    var end := WindowStart(limit, w, ts) + w * SECOND;
    var now := ts[|ts| - 1];
    assert LastResult(limit, w, ts).reset == now / SECOND + ((end - now) / 1_000_000 + 500) / 1000;
  }
}
