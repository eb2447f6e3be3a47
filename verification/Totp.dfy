// Admin MFA: RFC 6238 codes and the one-use-per-step nonce.
module Totp {
  import opened Arithmetic
  import opened TimedKeys
  import opened Decimal
  import opened Splitting

  const PERIOD: int := 30
  const NONCE_SECONDS: int := 120

  // ---- Dynamic truncation (section 5.3 of RFC 4226) ----

  /** The 31-bit number taken from a 20-byte MAC. */
  function Truncate(sum: seq<bv32>): (val: bv32)
    requires |sum| == 20 && forall i :: 0 <= i < 20 ==> sum[i] < 256
  {
    var off := (sum[19] & 0x0f) as int;
    ((sum[off] & 0x7f) << 24) | (sum[off + 1] << 16) | (sum[off + 2] << 8) | sum[off + 3]
  }

  lemma TruncateBits(a: bv32, b: bv32, c: bv32, d: bv32)
    requires a < 256 && b < 256 && c < 256 && d < 256
    ensures ((a & 0x7f) << 24) | (b << 16) | (c << 8) | d
         == (a & 0x7f) * 0x100_0000 + b * 0x1_0000 + c * 0x100 + d
    ensures ((a & 0x7f) << 24) | (b << 16) | (c << 8) | d < 0x8000_0000
  {
  }

  /** The offset stays inside the MAC, and the shifts and ors write the four bytes
      as one big-endian number without its sign bit. */
  lemma TruncateIsBigEndian(sum: seq<bv32>)
    requires |sum| == 20 && forall i :: 0 <= i < 20 ==> sum[i] < 256
    ensures var off := (sum[19] & 0x0f) as int;
            && 0 <= off <= 16
            && Truncate(sum) == (sum[off] & 0x7f) * 0x100_0000 + sum[off + 1] * 0x1_0000
                                  + sum[off + 2] * 0x100 + sum[off + 3]
            && Truncate(sum) < 0x8000_0000
  {
    var off := (sum[19] & 0x0f) as int;
    TruncateBits(sum[off], sum[off + 1], sum[off + 2], sum[off + 3]);
  }

  /** fmt "%06d" on a number below a million. */
  function Pad(n: nat, width: nat): (s: string)
    ensures |s| == width && AllDigits(s)
  {
    if width == 0 then "" else Pad(n / 10, width - 1) + [Digit(n % 10)]
  }

  function Pow10(k: nat): nat { if k == 0 then 1 else 10 * Pow10(k - 1) }

  lemma {:induction false} PadValue(n: nat, width: nat)
    requires n < Pow10(width)
    ensures Value(Pad(n, width)) == n
  {
    if width > 0 {
      PadValue(n / 10, width - 1);
      assert Pad(n, width)[..width - 1] == Pad(n / 10, width - 1);
    }
  }

  function CodeOf(val: nat): string { Pad(val % 1_000_000, 6) }

  /** A code is six digits that read as the MAC value modulo a million, so two values
      give the same code exactly when they agree modulo a million. */
  lemma SixDigits(v: nat, w: nat)
    ensures |CodeOf(v)| == 6 && AllDigits(CodeOf(v)) && Value(CodeOf(v)) == v % 1_000_000
    ensures CodeOf(v) == CodeOf(w) <==> v % 1_000_000 == w % 1_000_000
  {
    assert Pow10(6) == 1_000_000;
    PadValue(v % 1_000_000, 6);
    PadValue(w % 1_000_000, 6);
  }

  // ---- VerifyStep ----

  datatype Match = NoMatch | Step(k: int)

  function StepAt(now: int): int { now / SECOND / PERIOD }

  /** totp.VerifyStep with the codes of one secret given per time step: the current
      step first, then the one before, then the one after. */
  function VerifyStep(otp: int -> string, code: string, now: int): (m: Match)
    ensures m.Step? ==> otp(m.k) == code && StepAt(now) - 1 <= m.k <= StepAt(now) + 1
  {
    if otp(StepAt(now)) == code then Step(StepAt(now))
    else if otp(StepAt(now - PERIOD * SECOND)) == code then Step(StepAt(now - PERIOD * SECOND))
    else if otp(StepAt(now + PERIOD * SECOND)) == code then Step(StepAt(now + PERIOD * SECOND))
    else NoMatch
  }

  /** It matches exactly the codes of the three steps around now, and the matched
      step pins the clock to a 90-second span. */
  lemma VerifyStepWindow(otp: int -> string, code: string, now: int)
    ensures var m := VerifyStep(otp, code, now);
            && (m.Step? <==> exists k :: StepAt(now) - 1 <= k <= StepAt(now) + 1 && otp(k) == code)
            && (m.Step? ==> 30 * SECOND * (m.k - 1) <= now < 30 * SECOND * (m.k + 2))
  {
    assert StepAt(now - PERIOD * SECOND) == StepAt(now) - 1;
    assert StepAt(now + PERIOD * SECOND) == StepAt(now) + 1;
    forall k | StepAt(now) - 1 <= k <= StepAt(now) + 1 && otp(k) == code
      ensures VerifyStep(otp, code, now).Step?
    {
      assert k == StepAt(now) - 1 || k == StepAt(now) || k == StepAt(now) + 1;
    }
  }

  /** Which of them when a code fits several: the current step, then the one before. */
  lemma VerifyStepPrefers(otp: int -> string, code: string, now: int)
    ensures var step := now / (30 * SECOND);
            VerifyStep(otp, code, now) ==
              if otp(step) == code then Step(step)
              else if otp(step - 1) == code then Step(step - 1)
              else if otp(step + 1) == code then Step(step + 1)
              else NoMatch
  {
    assert StepAt(now) == now / (30 * SECOND);
    assert StepAt(now - PERIOD * SECOND) == StepAt(now) - 1;
    assert StepAt(now + PERIOD * SECOND) == StepAt(now) + 1;
  }

  // ---- The nonce ----

  function NonceKey(admin: string, k: int): string { "adminmfastep:" + admin + ":" + Itoa(k) }

  /** Different admins or steps never share a nonce, whatever the admin id. */
  lemma NonceKeysDistinct(a: string, j: int, b: string, k: int)
    ensures NonceKey(a, j) == NonceKey(b, k) <==> a == b && j == k
  {
    if NonceKey(a, j) == NonceKey(b, k) {
      assert a + ":" + Itoa(j) == NonceKey(a, j)[13..] == NonceKey(b, k)[13..] == b + ":" + Itoa(k);
      SplitAtLast(a, Itoa(j), ':');
      SplitAtLast(b, Itoa(k), ':');
      ItoaInjective(j, k);
    }
  }

  /** One request: otp gives the codes of the admin's secret at that time. The code is
      checked at verifyAt, the nonce is set at setAt. */
  datatype Submission = Submission(admin: string, otp: int -> string, code: string, verifyAt: int, setAt: int)

  /** A request after its code check. */
  datatype Checked = Checked(admin: string, m: Match, setAt: int)

  function Check(sub: Submission): Checked {
    Checked(sub.admin, VerifyStep(sub.otp, sub.code, sub.verifyAt), sub.setAt)
  }

  type Cells = map<string, Cell>

  /** handleAdminMFA after the code check: the keyspace, and the verdict. */
  function Submit(cells: Cells, c: Checked): (Cells, bool) {
    match c.m
    case NoMatch => (cells, false)
    case Step(k) =>
      var key := NonceKey(c.admin, k);
      var (cell, created) := SetNX(CellIn(cells, key), c.setAt, NONCE_SECONDS);
      (if created then cells[key := cell] else cells, created)
  }

  method SubmitCode(rdb: Client, sub: Submission) returns (accepted: bool)
    modifies rdb
    ensures (rdb.cells, accepted) == Submit(old(rdb.cells), Check(sub))
  {
    var m := VerifyStep(sub.otp, sub.code, sub.verifyAt);
    match m
    case NoMatch => accepted := false;
    case Step(k) => accepted := rdb.SetNXOf(NonceKey(sub.admin, k), NONCE_SECONDS, sub.setAt);
  }

  /** A request without a matching step sets nothing; one with a step sets its nonce, for
      two minutes, exactly when it is not set. */
  lemma SubmitExactly(cells: Cells, c: Checked)
    ensures c.m == NoMatch ==> Submit(cells, c) == (cells, false)
    ensures c.m != NoMatch ==>
              var key := "adminmfastep:" + c.admin + ":" + Itoa(c.m.k);
              var unset := || key !in cells || cells[key] == Absent
                           || (cells[key].e.deadline != Never && cells[key].e.deadline.t < c.setAt);
              Submit(cells, c)
                == if unset then (cells[key := Held(Entry(1, At(c.setAt + 120 * SECOND)))], true) else (cells, false)
  {
  }

  // ---- Runs of requests, by any admins with any secrets, over one keyspace ----

  function CellsAfter(cs: seq<Checked>): Cells {
    if cs == [] then map[] else Submit(CellsAfter(cs[..|cs| - 1]), cs[|cs| - 1]).0
  }

  /** SETNX commands happen in the order listed. */
  predicate InOrder(cs: seq<Checked>) { forall i, j :: 0 <= i <= j < |cs| ==> cs[i].setAt <= cs[j].setAt }

  /** Request i of the run is accepted, for time step k of this admin. */
  predicate Accepted(cs: seq<Checked>, i: nat, admin: string, k: int)
    requires i < |cs|
  {
    cs[i].admin == admin && cs[i].m == Step(k) && Submit(CellsAfter(cs[..i]), cs[i]).1
  }

  /** What one request does to the nonce of this admin and step. */
  lemma NonceAfterStep(cells: Cells, c: Checked, admin: string, k: int)
    ensures var before := CellIn(cells, NonceKey(admin, k));
            CellIn(Submit(cells, c).0, NonceKey(admin, k)) ==
              if c.admin == admin && c.m == Step(k) then SetNX(before, c.setAt, NONCE_SECONDS).0 else before
  {
    match c.m
    case NoMatch =>
    case Step(j) => NonceKeysDistinct(c.admin, j, admin, k);
  }

  predicate KeptUntil(cells: Cells, admin: string, k: int, t: int) {
    var c := CellIn(cells, NonceKey(admin, k));
    c.Held? && c.e.deadline.At? && c.e.deadline.t >= t
  }

  lemma NonceKept(cells: Cells, c: Checked, admin: string, k: int, t: int)
    requires KeptUntil(cells, admin, k, t) && t <= c.setAt + NONCE_SECONDS * SECOND
    ensures KeptUntil(Submit(cells, c).0, admin, k, t)
  {
    NonceAfterStep(cells, c, admin, k);
  }

  lemma NonceIsSet(cs: seq<Checked>, i: nat, admin: string, k: int)
    requires i < |cs| && Accepted(cs, i, admin, k)
    ensures CellIn(CellsAfter(cs[..i + 1]), NonceKey(admin, k))
         == Held(Entry(1, At(cs[i].setAt + NONCE_SECONDS * SECOND)))
  {
    assert cs[..i + 1][..i] == cs[..i];
  }

  /** Once set, a nonce stays readable for its two minutes ... */
  lemma {:induction false} NonceStays(cs: seq<Checked>, i: nat, j: nat, admin: string, k: int)
    requires i < j <= |cs| && InOrder(cs) && Accepted(cs, i, admin, k)
    ensures KeptUntil(CellsAfter(cs[..j]), admin, k, cs[i].setAt + NONCE_SECONDS * SECOND)
    decreases j
  {
    if j > i + 1 {
      NonceStays(cs, i, j - 1, admin, k);
      assert cs[..j][..j - 1] == cs[..j - 1];
      NonceKept(CellsAfter(cs[..j - 1]), cs[j - 1], admin, k, cs[i].setAt + NONCE_SECONDS * SECOND);
    } else {
      NonceIsSet(cs, i, admin, k);
    }
  }

  /** ... and a nonce in the keyspace was set by an accepted request of that very
      admin and step. */
  lemma {:induction false} NonceTraces(cs: seq<Checked>, j: nat, admin: string, k: int)
    requires j <= |cs| && CellIn(CellsAfter(cs[..j]), NonceKey(admin, k)).Held?
    ensures exists i: nat :: i < j && Accepted(cs, i, admin, k)
              && CellIn(CellsAfter(cs[..j]), NonceKey(admin, k))
                   == Held(Entry(1, At(cs[i].setAt + NONCE_SECONDS * SECOND)))
  {
    if j > 0 {
      assert cs[..j][..j - 1] == cs[..j - 1];
      if Accepted(cs, j - 1, admin, k) {
        NonceIsSet(cs, j - 1, admin, k);
      } else {
        NonceAfterStep(CellsAfter(cs[..j - 1]), cs[j - 1], admin, k);
        NonceTraces(cs, j - 1, admin, k);
      }
    }
  }

  /** Exactly when a request is accepted: its code matches, and none of the same
      admin and step was accepted in the last two minutes. What other admins submit
      and which secrets were used before does not matter. */
  lemma AcceptedIff(cs: seq<Checked>, j: nat, admin: string, k: int)
    requires j < |cs| && InOrder(cs)
    ensures Accepted(cs, j, admin, k) <==>
              && cs[j].admin == admin && cs[j].m == Step(k)
              && forall i: nat :: i < j && Accepted(cs, i, admin, k) ==>
                   cs[j].setAt > cs[i].setAt + NONCE_SECONDS * SECOND
  {
    if cs[j].admin == admin && cs[j].m == Step(k) {
      if Accepted(cs, j, admin, k) {
        forall i: nat | i < j && Accepted(cs, i, admin, k)
          ensures cs[j].setAt > cs[i].setAt + NONCE_SECONDS * SECOND
        {
          NonceStays(cs, i, j, admin, k);
        }
      } else {
        NonceTraces(cs, j, admin, k);
      }
    }
  }

  function Checks(subs: seq<Submission>): (cs: seq<Checked>)
    ensures |cs| == |subs| && forall i :: 0 <= i < |subs| ==> cs[i] == Check(subs[i])
  {
    seq(|subs|, i requires 0 <= i < |subs| => Check(subs[i]))
  }

  /** Each SETNX comes at most `delay` after its check. */
  predicate Timed(subs: seq<Submission>, delay: int) {
    && InOrder(Checks(subs))
    && forall i :: 0 <= i < |subs| ==> subs[i].verifyAt <= subs[i].setAt <= subs[i].verifyAt + delay
  }

  /** No time step of an admin is accepted twice when a code check is followed by its
      SETNX within 30 seconds. */
  lemma StepAcceptedOnce(subs: seq<Submission>, admin: string, k: int, i: nat, j: nat)
    requires Timed(subs, 30 * SECOND) && i < |subs| && j < |subs|
    requires Accepted(Checks(subs), i, admin, k) && Accepted(Checks(subs), j, admin, k)
    ensures i == j
  {
    AcceptedOnceWithin(subs, admin, k, i, j, 30 * SECOND);
  }

  /** The span of the clock in which a request can match step k and set its nonce. */
  lemma SetWithinSpan(sub: Submission, k: int, delay: int)
    requires Check(sub).m == Step(k) && sub.verifyAt <= sub.setAt <= sub.verifyAt + delay
    ensures PERIOD * SECOND * (k - 1) <= sub.setAt < PERIOD * SECOND * (k + 2) + delay
  {
    VerifyStepWindow(sub.otp, sub.code, sub.verifyAt);
  }

  lemma AcceptedOnceWithin(subs: seq<Submission>, admin: string, k: int, i: nat, j: nat, delay: int)
    requires Timed(subs, delay) && delay <= 30 * SECOND + 1 && i < |subs| && j < |subs|
    requires Accepted(Checks(subs), i, admin, k) && Accepted(Checks(subs), j, admin, k)
    ensures i == j
  {
    if i != j {
      var a, b := if i < j then i else j, if i < j then j else i;
      SetWithinSpan(subs[a], k, delay);
      SetWithinSpan(subs[b], k, delay);
      AcceptedIff(Checks(subs), b, admin, k);
      assert false;
    }
  }

  ghost predicate SingleUse(admin: string, k: int, delay: int) {
    forall subs, i: nat, j: nat ::
      (&& Timed(subs, delay) && i < |subs| && j < |subs|
       && Accepted(Checks(subs), i, admin, k) && Accepted(Checks(subs), j, admin, k)) ==> i == j
  }

  /** The two-minute nonce covers the 90-second acceptance span exactly up to that
      delay (clock ticks are whole nanoseconds): with any longer one, a code sent at
      the start and at the end of its span is accepted twice. */
  lemma SingleUseIffDelayBounded(admin: string, k: int, delay: int)
    requires delay >= 0
    ensures SingleUse(admin, k, delay) <==> delay <= 30 * SECOND + 1
  {
    if delay <= 30 * SECOND + 1 {
      forall subs, i: nat, j: nat | && Timed(subs, delay) && i < |subs| && j < |subs|
                                    && Accepted(Checks(subs), i, admin, k) && Accepted(Checks(subs), j, admin, k)
        ensures i == j
      {
        AcceptedOnceWithin(subs, admin, k, i, j, delay);
      }
    } else {
      TwiceWithDelay(admin, k, delay);
    }
  }

  lemma TwiceWithDelay(admin: string, k: int, delay: int)
    requires delay > 30 * SECOND + 1
    ensures !SingleUse(admin, k, delay)
  {
    var subs := EarlyAndLate(admin, k, delay);
    AcceptedIff(Checks(subs), 0, admin, k);
    AcceptedIff(Checks(subs), 1, admin, k);
  }

  /** The code of step k, sent at the first and at the last instant of its span. */
  lemma EarlyAndLate(admin: string, k: int, delay: int) returns (subs: seq<Submission>)
    requires delay > 30 * SECOND + 1
    ensures |subs| == 2 && Timed(subs, delay)
    ensures forall i :: 0 <= i < 2 ==> Checks(subs)[i].admin == admin && Checks(subs)[i].m == Step(k)
    ensures subs[1].setAt > subs[0].setAt + NONCE_SECONDS * SECOND
  {
    var otp := (s: int) => if s == k then "000001" else "000000";
    var first := PERIOD * SECOND * (k - 1);
    var last := PERIOD * SECOND * (k + 2) - 1;
    EdgesOfSpan(otp, k);
    subs := [Submission(admin, otp, otp(k), first, first), Submission(admin, otp, otp(k), last, last + delay)];
  }

  /** The code of step k is accepted from one step before to the end of the one after. */
  lemma EdgesOfSpan(otp: int -> string, k: int)
    requires otp(k - 2) != otp(k) && otp(k - 1) != otp(k) && otp(k + 1) != otp(k)
    ensures VerifyStep(otp, otp(k), PERIOD * SECOND * (k - 1)) == Step(k)
    ensures VerifyStep(otp, otp(k), PERIOD * SECOND * (k + 2) - 1) == Step(k)
  {
    var first, last := PERIOD * SECOND * (k - 1), PERIOD * SECOND * (k + 2) - 1;
    assert StepAt(first) == k - 1 && StepAt(last) == k + 1;
    assert StepAt(first + PERIOD * SECOND) == k && StepAt(last - PERIOD * SECOND) == k;
    assert StepAt(first - PERIOD * SECOND) == k - 2;
  }
}
