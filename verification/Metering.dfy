// The usage-metering buffer: producers add increments to Redis counters, the
// worker drains them into the database. Every Redis command and every database
// statement is one atomic step; any number of processes interleave.

module UsageBuffer {
  import opened Splitting

  /** A (tenant, dimension) pair, the identity behind a counter and its set member. */
  datatype Meter = Meter(tenant: string, dim: string)

  datatype Delta = Delta(meter: Meter, n: int)

  /** The Redis side: counters under "usagebuf:t:d" and the member set "usagebuf:keys". */
  datatype Buffer = Buffer(counters: map<Meter, int>, members: set<Meter>)

  function Get(m: map<Meter, int>, k: Meter): int { if k in m then m[k] else 0 }

  function Add(m: map<Meter, int>, k: Meter, n: int): map<Meter, int> { m[k := Get(m, k) + n] }

  // The four Redis commands used.

  function IncrBy(b: Buffer, m: Meter, n: int): Buffer { b.(counters := Add(b.counters, m, n)) }

  function SAdd(b: Buffer, m: Meter): Buffer { b.(members := b.members + {m}) }

  function SRem(b: Buffer, m: Meter): Buffer { b.(members := b.members - {m}) }

  function GetDel(b: Buffer, m: Meter): Buffer { b.(counters := b.counters - {m}) }

  /** What the drainer appends after GETDEL: absent and zero counters are skipped. */
  function Collected(b: Buffer, m: Meter): seq<Delta> {
    if Get(b.counters, m) == 0 then [] else [Delta(m, b.counters[m])]
  }

  /** Total recorded for one meter in a list of deltas. */
  function SumFor(ds: seq<Delta>, m: Meter): int {
    if ds == [] then 0 else (if ds[0].meter == m then ds[0].n else 0) + SumFor(ds[1..], m)
  }

  lemma {:induction false} SumForAppend(a: seq<Delta>, b: seq<Delta>, m: Meter)
    ensures SumFor(a + b, m) == SumFor(a, m) + SumFor(b, m)
  {
    if a == [] {
      assert a + b == b;
    } else {
      assert (a + b)[1..] == a[1..] + b;
      SumForAppend(a[1..], b, m);
    }
  }

  lemma CollectedSum(b: Buffer, m: Meter, k: Meter)
    ensures SumFor(Collected(b, m), k) == if m == k then Get(b.counters, m) else 0
  {
  }

  /** Every meter is reported at most once, and never with zero. */
  predicate OnePerMeter(ds: seq<Delta>) {
    && (forall i :: 0 <= i < |ds| ==> ds[i].n != 0)
    && (forall i, j :: 0 <= i < j < |ds| ==> ds[i].meter != ds[j].meter)
  }

  predicate Enumerates(order: seq<Meter>, s: set<Meter>) {
    && (forall i, j :: 0 <= i < j < |order| ==> order[i] != order[j])
    && (forall m :: m in order ==> m in s)
    && (forall m :: m in s ==> m in order)
  }

  /** redisx.Client as far as metering is concerned. */
  class Client {
    var counters: map<Meter, int>
    var members: set<Meter>

    ghost function View(): Buffer
      reads this
    {
      Buffer(counters, members)
    }

    constructor ()
      ensures View() == Buffer(map[], {})
    {
      counters, members := map[], {};
    }

    method AddUsage(m: Meter, n: int)
      modifies this
      ensures View() == if n == 0 then old(View()) else SAdd(IncrBy(old(View()), m, n), m)
    {
      if n == 0 { return; }
      counters := Add(counters, m, n);
      members := members + {m};
    }

    /** A drain that nothing interleaves with: it empties the member set, takes
        exactly the counters that were announced, and reports each one's value. */
    method DrainUsage() returns (out: seq<Delta>)
      modifies this
      ensures members == {}
      ensures counters == old(counters) - old(members)
      ensures forall m :: SumFor(out, m) == if m in old(members) then Get(old(counters), m) else 0
      ensures OnePerMeter(out)
    {
      out := [];
      var rest := members;
      while rest != {}
        invariant rest <= old(members)
        invariant members == rest
        invariant counters == old(counters) - (old(members) - rest)
        invariant forall m :: SumFor(out, m) == if m in old(members) - rest then Get(old(counters), m) else 0
        invariant OnePerMeter(out) && forall i :: 0 <= i < |out| ==> out[i].meter !in rest
        decreases rest
      {
        var m :| m in rest;
        ghost var before := View();
        ghost var was := out;
        members := members - {m};
        if m in counters && counters[m] != 0 {
          out := out + [Delta(m, counters[m])];
        }
        assert out == was + Collected(before, m) by {
          if Get(before.counters, m) == 0 { assert was + [] == was; }
        }
        forall k ensures SumFor(out, k) == SumFor(was, k) + if m == k then Get(before.counters, m) else 0 {
          SumForAppend(was, Collected(before, m), k);
          CollectedSum(before, m, k);
        }
        counters := counters - {m};
        rest := rest - {m};
      }
    }
  }

  // String encodings of a meter.

  function MemberName(m: Meter): string { m.tenant + "|" + m.dim }

  function CounterName(m: Meter): string { "usagebuf:" + m.tenant + ":" + m.dim }

  /** The worker decodes a member back to its meter exactly when the tenant id
      has no '|' in it (generated ids are base62 after a "tnt_" prefix). */
  lemma MemberDecodes(m: Meter)
    ensures SplitFirst(MemberName(m), '|') == [m.tenant, m.dim] <==> '|' !in m.tenant
  {
    if '|' !in m.tenant {
      SplitAtFirst(m.tenant, m.dim, '|');
    }
  }

  /** Two meters share a counter only if they are equal, for tenants without ':'. */
  lemma CounterNamesDistinct(a: Meter, b: Meter)
    requires ':' !in a.tenant && ':' !in b.tenant
    requires CounterName(a) == CounterName(b)
    ensures a == b
  {
    assert a.tenant + ":" + a.dim == CounterName(a)[9..] == CounterName(b)[9..] == b.tenant + ":" + b.dim;
    SplitAtFirst(a.tenant, a.dim, ':');
    SplitAtFirst(b.tenant, b.dim, ':');
  }
}

module Metering {
  import opened Arithmetic
  import opened Sums
  import opened UsageBuffer

  /** Where one process is, between two commands. */
  datatype Proc =
    | Idle
    | OwesSAdd(m: Meter)                                            // AddUsage after INCRBY
    | Draining(todo: seq<Meter>, out: seq<Delta>)                   // before the next SREM
    | OwesGetDel(m: Meter, todo: seq<Meter>, out: seq<Delta>)       // between SREM and GETDEL
    | Flushing(deltas: seq<Delta>)                                  // before the next quota UPDATE
    | OwesDaily(d: Delta, deltas: seq<Delta>)                       // between quota UPDATE and rollup

  /** quota: the cumulative columns (one entry per tenant row and known
      dimension); daily: the usage_daily rollups by day. The last four fields
      are bookkeeping: everything ever added, applied, dropped by a failed quota
      write, or left out of the rollups by a failed rollup write. */
  datatype State = State(
    buf: Buffer,
    procs: map<nat, Proc>,
    quota: map<Meter, int>,
    daily: map<Meter, map<int, int>>,
    added: map<Meter, int>,
    flushed: map<Meter, int>,
    dropped: map<Meter, int>,
    unrolled: map<Meter, int>)

  datatype Event =
    | DoIncrBy(p: nat, m: Meter, n: int)
    | DoSAdd(p: nat)
    | DoSMembers(p: nat, order: seq<Meter>)
    | DoSRem(p: nat)
    | DoGetDel(p: nat)
    | DoEndDrain(p: nat)
    | DoQuota(p: nat, dbOk: bool)
    | DoDaily(p: nat, day: int, dbOk: bool)

  function ProcOf(s: State, p: nat): Proc { if p in s.procs then s.procs[p] else Idle }

  /** The command e is the next one of process e.p. */
  predicate Enabled(s: State, e: Event) {
    var q := ProcOf(s, e.p);
    match e
    case DoIncrBy(_, _, n) => q == Idle && n != 0
    case DoSAdd(_) => q.OwesSAdd?
    case DoSMembers(_, order) => q == Idle && Enumerates(order, s.buf.members)
    case DoSRem(_) => q.Draining? && q.todo != []
    case DoGetDel(_) => q.OwesGetDel?
    case DoEndDrain(_) => q.Draining? && q.todo == []
    case DoQuota(_, _) => q.Flushing? && q.deltas != []
    case DoDaily(_, _, _) => q.OwesDaily?
  }

  function AddDaily(daily: map<Meter, map<int, int>>, d: Delta, day: int): map<Meter, map<int, int>> {
    var rows := if d.meter in daily then daily[d.meter] else map[];
    daily[d.meter := rows[day := (if day in rows then rows[day] else 0) + d.n]]
  }

  /** Flushing an empty list is being done. */
  function Flush(deltas: seq<Delta>): Proc { if deltas == [] then Idle else Flushing(deltas) }

  /** The delta a database command is about. */
  function DeltaOf(s: State, e: Event): Delta
    requires Enabled(s, e) && (e.DoQuota? || e.DoDaily?)
  {
    if e.DoQuota? then ProcOf(s, e.p).deltas[0] else ProcOf(s, e.p).d
  }

  /** The quota UPDATE hits a row: a failed statement, an unknown dimension and an
      absent row record nothing. */
  predicate Records(s: State, e: Event)
    requires Enabled(s, e)
  {
    e.DoQuota? && e.dbOk && DeltaOf(s, e).meter in s.quota
  }

  // What a command does to Redis ...

  function BufAfter(s: State, e: Event): Buffer
    requires Enabled(s, e)
  {
    match e
    case DoIncrBy(_, m, n) => IncrBy(s.buf, m, n)
    case DoSAdd(p) => SAdd(s.buf, ProcOf(s, p).m)
    case DoSRem(p) => SRem(s.buf, ProcOf(s, p).todo[0])
    case DoGetDel(p) => GetDel(s.buf, ProcOf(s, p).m)
    case _ => s.buf
  }

  // ... to its own process ...

  function ProcAfter(s: State, e: Event): Proc
    requires Enabled(s, e)
  {
    var q := ProcOf(s, e.p);
    match e
    case DoIncrBy(_, m, _) => OwesSAdd(m)
    case DoSAdd(_) => Idle
    case DoSMembers(_, order) => Draining(order, [])
    case DoSRem(_) => OwesGetDel(q.todo[0], q.todo[1..], q.out)
    case DoGetDel(_) => Draining(q.todo, q.out + Collected(s.buf, q.m))
    case DoEndDrain(_) => Flush(q.out)
    case DoQuota(_, _) => if Records(s, e) then OwesDaily(q.deltas[0], q.deltas[1..]) else Flush(q.deltas[1..])
    case DoDaily(_, _, _) => Flush(q.deltas)
  }

  // ... and to the database and the books.

  function QuotaAfter(s: State, e: Event): map<Meter, int>
    requires Enabled(s, e)
  {
    if Records(s, e) then
      var d := DeltaOf(s, e);
      s.quota[d.meter := Clamp0(s.quota[d.meter] + d.n)]
    else s.quota
  }

  function RollupsAfter(s: State, e: Event): map<Meter, map<int, int>>
    requires Enabled(s, e)
  {
    if e.DoDaily? && e.dbOk then AddDaily(s.daily, DeltaOf(s, e), e.day) else s.daily
  }

  function AddDelta(books: map<Meter, int>, d: Delta): map<Meter, int> { Add(books, d.meter, d.n) }

  /** One step. A disabled event leaves the state as it is. */
  function Apply(s: State, e: Event): State {
    if !Enabled(s, e) then s else
    State(
      BufAfter(s, e),
      s.procs[e.p := ProcAfter(s, e)],
      QuotaAfter(s, e),
      RollupsAfter(s, e),
      if e.DoIncrBy? then Add(s.added, e.m, e.n) else s.added,
      if Records(s, e) then AddDelta(s.flushed, DeltaOf(s, e)) else s.flushed,
      if e.DoQuota? && !Records(s, e) then AddDelta(s.dropped, DeltaOf(s, e)) else s.dropped,
      if e.DoDaily? && !e.dbOk then AddDelta(s.unrolled, DeltaOf(s, e)) else s.unrolled)
  }

  /** A fresh system whose quota rows are all zero. */
  function Init(rows: set<Meter>): State {
    State(Buffer(map[], {}), map[], map m | m in rows :: 0, map[], map[], map[], map[], map[])
  }

  function Run(rows: set<Meter>, es: seq<Event>): State {
    if es == [] then Init(rows) else Apply(Run(rows, es[..|es| - 1]), es[|es| - 1])
  }

  // ---- No usage is stranded ----

  predicate Owes(q: Proc, m: Meter) { q == OwesSAdd(m) || (q.OwesGetDel? && q.m == m) }

  ghost predicate Owed(s: State, m: Meter) { exists p :: p in s.procs && Owes(s.procs[p], m) }

  ghost predicate Announced(s: State, m: Meter) {
    Get(s.buf.counters, m) != 0 ==> m in s.buf.members || Owed(s, m)
  }

  lemma StepKeepsAnnounced(s: State, e: Event, m: Meter)
    requires Announced(s, m)
    ensures Announced(Apply(s, e), m)
  {
    if Enabled(s, e) {
      var s' := Apply(s, e);
      if Owes(s'.procs[e.p], m) {
        assert Owed(s', m);
      } else if Owed(s, m) {
        var p :| p in s.procs && Owes(s.procs[p], m);
        assert p != e.p ==> s'.procs[p] == s.procs[p];
        assert p == e.p ==> m in s'.buf.members || Get(s'.buf.counters, m) == 0;
      }
    }
  }

  /** Whatever the interleaving, a non-zero counter is announced in the member
      set, or a producer still owes its SADD, or a drainer still owes its GETDEL. */
  lemma {:induction false} NothingStranded(rows: set<Meter>, es: seq<Event>, m: Meter)
    ensures Announced(Run(rows, es), m)
  {
    if es != [] {
      NothingStranded(rows, es[..|es| - 1], m);
      StepKeepsAnnounced(Run(rows, es[..|es| - 1]), es[|es| - 1], m);
    }
  }

  /** Once every process has finished, one undisturbed drain takes everything. */
  lemma QuietBufferIsAnnounced(rows: set<Meter>, es: seq<Event>, m: Meter)
    requires forall p :: p in Run(rows, es).procs ==> Run(rows, es).procs[p] == Idle
    ensures var b := Run(rows, es).buf; Get(b.counters, m) != 0 ==> m in b.members
  {
    NothingStranded(rows, es, m);
  }

  /** Why the order of the two pairs of commands matters: with either pair
      swapped, one increment ends up in a counter nobody will look at. */
  lemma SwappedOrdersStrand(m: Meter)
    ensures var announced := Buffer(map[m := 5], {m});
            var drainSwapped := SRem(SAdd(IncrBy(GetDel(announced, m), m, 1), m), m);
            var addSwapped := IncrBy(GetDel(SRem(SAdd(Buffer(map[], {}), m), m), m), m, 1);
            && Get(drainSwapped.counters, m) == 1 && m !in drainSwapped.members
            && Get(addSwapped.counters, m) == 1 && m !in addSwapped.members
  {
  }

  // ---- Conservation ----

  /** Usage of meter m held by a process: taken out of Redis, not yet in the database. */
  function Carried(q: Proc, m: Meter): int {
    match q
    case Draining(_, out) => SumFor(out, m)
    case OwesGetDel(_, _, out) => SumFor(out, m)
    case Flushing(deltas) => SumFor(deltas, m)
    case OwesDaily(_, deltas) => SumFor(deltas, m)
    case _ => 0
  }

  ghost function InFlight(s: State, m: Meter): int {
    MapSum(map p | p in s.procs :: Carried(s.procs[p], m))
  }

  lemma GotoInFlight(s: State, s': State, p: nat, q: Proc, m: Meter)
    requires s'.procs == s.procs[p := q]
    ensures InFlight(s', m) == InFlight(s, m) + Carried(q, m) - Carried(ProcOf(s, p), m)
  {
    var before := map r | r in s.procs :: Carried(s.procs[r], m);
    var after := map r | r in s'.procs :: Carried(s'.procs[r], m);
    assert after == before[p := Carried(q, m)];
    MapSumUpdate(before, p, Carried(q, m));
  }

  lemma NothingInFlight(s: State, m: Meter)
    requires forall p :: p in s.procs ==> Carried(s.procs[p], m) == 0
    ensures InFlight(s, m) == 0
  {
    MapSumZero(map p | p in s.procs :: Carried(s.procs[p], m));
  }

  ghost predicate Conserved(s: State, m: Meter) {
    Get(s.added, m) == Get(s.buf.counters, m) + InFlight(s, m) + Get(s.flushed, m) + Get(s.dropped, m)
  }

  lemma FlushCarries(ds: seq<Delta>, m: Meter)
    requires ds != []
    ensures Carried(Flush(ds[1..]), m) == SumFor(ds[1..], m)
    ensures SumFor(ds, m) == (if ds[0].meter == m then ds[0].n else 0) + SumFor(ds[1..], m)
  {
  }

  /** How a step changes what its own process carries. */
  lemma CarriedAfter(s: State, e: Event, m: Meter)
    requires Enabled(s, e)
    ensures var q := ProcOf(s, e.p);
            Carried(ProcAfter(s, e), m) == Carried(q, m)
              + (if e.DoGetDel? && q.m == m then Get(s.buf.counters, m) else 0)
              - (if e.DoQuota? && q.deltas[0].meter == m then q.deltas[0].n else 0)
  {
    var q := ProcOf(s, e.p);
    if e.DoGetDel? {
      SumForAppend(q.out, Collected(s.buf, q.m), m);
      CollectedSum(s.buf, q.m, m);
    }
    if e.DoQuota? {
      FlushCarries(q.deltas, m);
    }
  }

  /** How a step moves usage of m into and out of Redis ... */
  lemma RedisBooks(s: State, e: Event, m: Meter)
    requires Enabled(s, e)
    ensures var q := ProcOf(s, e.p); var s' := Apply(s, e);
            var incoming := if e.DoIncrBy? && e.m == m then e.n else 0;
            && Get(s'.added, m) == Get(s.added, m) + incoming
            && Get(s'.buf.counters, m) == Get(s.buf.counters, m) + incoming
                 - (if e.DoGetDel? && q.m == m then Get(s.buf.counters, m) else 0)
  {
    match e
    case DoIncrBy(_, _, _) =>
    case DoGetDel(_) =>
    case _ => assert Apply(s, e).added == s.added && Apply(s, e).buf.counters == s.buf.counters;
  }

  /** ... and into the database or the losses. */
  lemma DatabaseBooks(s: State, e: Event, m: Meter)
    requires Enabled(s, e)
    ensures var q := ProcOf(s, e.p); var s' := Apply(s, e);
            Get(s'.flushed, m) + Get(s'.dropped, m) == Get(s.flushed, m) + Get(s.dropped, m)
              + (if e.DoQuota? && q.deltas[0].meter == m then q.deltas[0].n else 0)
  {
  }

  lemma InFlightAfter(s: State, e: Event, m: Meter)
    requires Enabled(s, e)
    ensures var q := ProcOf(s, e.p);
            InFlight(Apply(s, e), m) == InFlight(s, m)
              + (if e.DoGetDel? && q.m == m then Get(s.buf.counters, m) else 0)
              - (if e.DoQuota? && q.deltas[0].meter == m then q.deltas[0].n else 0)
  {
    var s' := Apply(s, e);
    CarriedAfter(s, e, m);
    GotoInFlight(s, s', e.p, s'.procs[e.p], m);
  }

  lemma StepConserves(s: State, e: Event, m: Meter)
    requires Conserved(s, m)
    ensures Conserved(Apply(s, e), m)
  {
    if Enabled(s, e) {
      RedisBooks(s, e, m);
      DatabaseBooks(s, e, m);
      InFlightAfter(s, e, m);
    }
  }

  /** Nothing is lost or counted twice: all that was ever added is in a counter,
      carried by a process, recorded in the database, or dropped by a failed write. */
  lemma {:induction false} UsageConserved(rows: set<Meter>, es: seq<Event>, m: Meter)
    ensures Conserved(Run(rows, es), m)
  {
    if es != [] {
      UsageConserved(rows, es[..|es| - 1], m);
      StepConserves(Run(rows, es[..|es| - 1]), es[|es| - 1], m);
    } else {
      NothingInFlight(Init(rows), m);
    }
  }

  // ---- The two database records agree ----

  /** Usage is positive: it counts bytes served. */
  predicate Positive(e: Event) { e.DoIncrBy? ==> e.n > 0 }

  ghost function DailyTotal(s: State, m: Meter): int { if m in s.daily then MapSum(s.daily[m]) else 0 }

  function PendingRollup(q: Proc, m: Meter): int { if q.OwesDaily? && q.d.meter == m then q.d.n else 0 }

  ghost function AwaitingRollup(s: State, m: Meter): int {
    MapSum(map p | p in s.procs :: PendingRollup(s.procs[p], m))
  }

  lemma GotoAwaiting(s: State, s': State, p: nat, q: Proc, m: Meter)
    requires s'.procs == s.procs[p := q]
    ensures AwaitingRollup(s', m) == AwaitingRollup(s, m) + PendingRollup(q, m) - PendingRollup(ProcOf(s, p), m)
  {
    var before := map r | r in s.procs :: PendingRollup(s.procs[r], m);
    var after := map r | r in s'.procs :: PendingRollup(s'.procs[r], m);
    assert after == before[p := PendingRollup(q, m)];
    MapSumUpdate(before, p, PendingRollup(q, m));
  }

  lemma NothingAwaiting(s: State, m: Meter)
    requires forall p :: p in s.procs ==> PendingRollup(s.procs[p], m) == 0
    ensures AwaitingRollup(s, m) == 0
  {
    MapSumZero(map p | p in s.procs :: PendingRollup(s.procs[p], m));
  }

  predicate AllPositive(ds: seq<Delta>) { forall i :: 0 <= i < |ds| ==> ds[i].n > 0 }

  predicate ProcPositive(q: Proc) {
    match q
    case Draining(_, out) => AllPositive(out)
    case OwesGetDel(_, _, out) => AllPositive(out)
    case Flushing(deltas) => AllPositive(deltas)
    case OwesDaily(d, deltas) => d.n > 0 && AllPositive(deltas)
    case _ => true
  }

  /** All that is in motion is positive, and the columns are not negative. */
  ghost predicate PositiveFlow(s: State) {
    && (forall m :: m in s.quota ==> s.quota[m] >= 0)
    && (forall m :: m in s.buf.counters ==> s.buf.counters[m] > 0)
    && (forall p :: p in s.procs ==> ProcPositive(s.procs[p]))
    && (forall m :: m in s.unrolled ==> s.unrolled[m] > 0)
  }

  /** The column of a meter is what was recorded in it, and the rollups have all of it
      but what is still to come and what a failed rollup write left out. */
  ghost predicate Reconciled(s: State, m: Meter) {
    Get(s.quota, m) == Get(s.flushed, m) == DailyTotal(s, m) + AwaitingRollup(s, m) + Get(s.unrolled, m)
  }

  /** The next command finds positive amounts. */
  lemma NextIsPositive(s: State, e: Event)
    requires PositiveFlow(s) && Enabled(s, e)
    ensures ProcPositive(ProcOf(s, e.p))
    ensures e.DoQuota? || e.DoDaily? ==> DeltaOf(s, e).n > 0
  {
  }

  lemma StepKeepsProcPositive(s: State, e: Event)
    requires PositiveFlow(s) && Positive(e) && Enabled(s, e)
    ensures ProcPositive(ProcAfter(s, e))
  {
    NextIsPositive(s, e);
  }

  lemma StepKeepsCountersPositive(s: State, e: Event)
    requires PositiveFlow(s) && Positive(e) && Enabled(s, e)
    ensures forall m :: m in BufAfter(s, e).counters ==> BufAfter(s, e).counters[m] > 0
  {
  }

  lemma StepKeepsPositive(s: State, e: Event)
    requires PositiveFlow(s) && Positive(e)
    ensures PositiveFlow(Apply(s, e))
  {
    if Enabled(s, e) {
        NextIsPositive(s, e);
      StepKeepsProcPositive(s, e);
      StepKeepsCountersPositive(s, e);
    }
  }

  lemma RollupAdds(s: State, d: Delta, day: int, m: Meter)
    ensures DailyTotal(s.(daily := AddDaily(s.daily, d, day)), m)
         == DailyTotal(s, m) + if d.meter == m then d.n else 0
  {
    var rows := if d.meter in s.daily then s.daily[d.meter] else map[];
    MapSumZero<int>(map[]);
    MapSumUpdate(rows, day, (if day in rows then rows[day] else 0) + d.n);
  }

  /** The amount of m that a quota write records, that a rollup records, and that a
      failed rollup leaves out. */
  function Recorded(s: State, e: Event, m: Meter): int
    requires Enabled(s, e)
  {
    if e.DoQuota? && e.dbOk && ProcOf(s, e.p).deltas[0].meter == m && m in s.quota
    then ProcOf(s, e.p).deltas[0].n else 0
  }

  function RolledUp(s: State, e: Event, m: Meter): int
    requires Enabled(s, e)
  {
    if e.DoDaily? && e.dbOk && ProcOf(s, e.p).d.meter == m then ProcOf(s, e.p).d.n else 0
  }

  function LeftOut(s: State, e: Event, m: Meter): int
    requires Enabled(s, e)
  {
    if e.DoDaily? && !e.dbOk && ProcOf(s, e.p).d.meter == m then ProcOf(s, e.p).d.n else 0
  }

  lemma PendingAfter(s: State, e: Event, m: Meter)
    requires Enabled(s, e)
    ensures PendingRollup(ProcAfter(s, e), m)
         == PendingRollup(ProcOf(s, e.p), m) + Recorded(s, e, m) - RolledUp(s, e, m) - LeftOut(s, e, m)
  {
  }

  lemma AwaitingAfter(s: State, e: Event, m: Meter)
    requires Enabled(s, e)
    ensures AwaitingRollup(Apply(s, e), m)
         == AwaitingRollup(s, m) + Recorded(s, e, m) - RolledUp(s, e, m) - LeftOut(s, e, m)
  {
    var s' := Apply(s, e);
    PendingAfter(s, e, m);
    GotoAwaiting(s, s', e.p, s'.procs[e.p], m);
  }

  lemma ColumnsAfter(s: State, e: Event, m: Meter)
    requires PositiveFlow(s) && Enabled(s, e)
    ensures var s' := Apply(s, e);
            && Get(s'.quota, m) == Get(s.quota, m) + Recorded(s, e, m)
            && Get(s'.flushed, m) == Get(s.flushed, m) + Recorded(s, e, m)
  {
    if e.DoQuota? {
      NextIsPositive(s, e);
    } else {
      assert Apply(s, e).quota == s.quota && Apply(s, e).flushed == s.flushed;
    }
  }

  lemma DailyAfter(s: State, e: Event, m: Meter)
    requires Enabled(s, e)
    ensures DailyTotal(Apply(s, e), m) == DailyTotal(s, m) + RolledUp(s, e, m)
    ensures Get(Apply(s, e).unrolled, m) == Get(s.unrolled, m) + LeftOut(s, e, m)
  {
    if e.DoDaily? && e.dbOk {
      var d := ProcOf(s, e.p).d;
      RollupAdds(s, d, e.day, m);
      assert Apply(s, e).daily == s.(daily := AddDaily(s.daily, d, e.day)).daily;
    } else {
      assert Apply(s, e).daily == s.daily;
    }
  }

  lemma StepReconciles(s: State, e: Event, m: Meter)
    requires PositiveFlow(s) && Reconciled(s, m)
    ensures Reconciled(Apply(s, e), m)
  {
    if Enabled(s, e) {
      AwaitingAfter(s, e, m);
      ColumnsAfter(s, e, m);
      DailyAfter(s, e, m);
    }
  }

  predicate PositiveRun(es: seq<Event>) { forall i :: 0 <= i < |es| ==> Positive(es[i]) }

  /** Over every run with positive usage, with any failures of either write: the column
      is the rollups, the rollups still to come, and those that failed. */
  lemma {:induction false} RunReconciles(rows: set<Meter>, es: seq<Event>, m: Meter)
    requires PositiveRun(es)
    ensures PositiveFlow(Run(rows, es)) && Reconciled(Run(rows, es), m)
  {
    if es == [] {
      NothingAwaiting(Init(rows), m);
    } else {
      var front := es[..|es| - 1];
      RunReconciles(rows, front, m);
      StepKeepsPositive(Run(rows, front), es[|es| - 1]);
      StepReconciles(Run(rows, front), es[|es| - 1], m);
    }
  }

  /** Step i of the run is a rollup of m that fails. */
  predicate RollupFails(rows: set<Meter>, es: seq<Event>, i: nat, m: Meter)
    requires i < |es|
  {
    var s := Run(rows, es[..i]);
    Enabled(s, es[i]) && es[i].DoDaily? && !es[i].dbOk && DeltaOf(s, es[i]).meter == m
  }

  lemma {:induction false} UnrolledIffFailed(rows: set<Meter>, es: seq<Event>, m: Meter)
    ensures m in Run(rows, es).unrolled <==> exists i: nat :: i < |es| && RollupFails(rows, es, i, m)
  {
    if es != [] {
      var last := |es| - 1;
      UnrolledIffFailed(rows, es[..last], m);
      forall i: nat | i < last ensures RollupFails(rows, es, i, m) == RollupFails(rows, es[..last], i, m) {
        assert es[..last][..i] == es[..i];
      }
      assert m in Run(rows, es).unrolled <==> m in Run(rows, es[..last]).unrolled || RollupFails(rows, es, last, m);
    }
  }

  /** While no flush sits between its two writes, the daily rows of a meter add up to
      its column exactly when no rollup of it has failed; a failed quota write, which
      skips both, does not matter. Once nothing is buffered or carried either, the
      column is all that was added but what failed quota writes dropped. */
  lemma DailyRowsMatchQuotaIff(rows: set<Meter>, es: seq<Event>, m: Meter)
    requires PositiveRun(es)
    ensures var s := Run(rows, es);
            (forall p :: p in s.procs ==> !s.procs[p].OwesDaily?) ==>
              && (DailyTotal(s, m) == Get(s.quota, m) <==> forall i: nat :: i < |es| ==> !RollupFails(rows, es, i, m))
              && DailyTotal(s, m) <= Get(s.quota, m)
              && (Get(s.buf.counters, m) == 0 == InFlight(s, m) ==>
                    Get(s.quota, m) == Get(s.added, m) - Get(s.dropped, m))
  {
    var s := Run(rows, es);
    RunReconciles(rows, es, m);
    UnrolledIffFailed(rows, es, m);
    UsageConserved(rows, es, m);
    if forall p :: p in s.procs ==> !s.procs[p].OwesDaily? {
      NothingAwaiting(s, m);
    }
  }

  /** An event without a database error, for a tenant that has a quota row. */
  predicate Healthy(rows: set<Meter>, e: Event) {
    match e
    case DoIncrBy(_, m, n) => n > 0 && m in rows
    case DoQuota(_, dbOk) => dbOk
    case DoDaily(_, _, dbOk) => dbOk
    case _ => true
  }

  ghost predicate NothingFailed(s: State, rows: set<Meter>) {
    && s.quota.Keys == rows && s.unrolled == map[] && s.dropped == map[]
    && (forall m :: m in s.buf.counters ==> m in rows)
    && (forall p :: p in s.procs ==> ProcInRows(s.procs[p], rows))
  }

  predicate InRows(ds: seq<Delta>, rows: set<Meter>) { forall i :: 0 <= i < |ds| ==> ds[i].meter in rows }

  predicate ProcInRows(q: Proc, rows: set<Meter>) {
    match q
    case Draining(_, out) => InRows(out, rows)
    case OwesGetDel(_, _, out) => InRows(out, rows)
    case Flushing(deltas) => InRows(deltas, rows)
    case OwesDaily(_, deltas) => InRows(deltas, rows)
    case _ => true
  }

  lemma StepFailsNothing(s: State, e: Event, rows: set<Meter>)
    requires NothingFailed(s, rows) && Healthy(rows, e)
    ensures NothingFailed(Apply(s, e), rows)
  {
    if Enabled(s, e) {
        assert ProcInRows(ProcOf(s, e.p), rows);
      assert ProcInRows(ProcAfter(s, e), rows);
    }
  }

  lemma {:induction false} HealthyRunFailsNothing(rows: set<Meter>, es: seq<Event>)
    requires forall i :: 0 <= i < |es| ==> Healthy(rows, es[i])
    ensures NothingFailed(Run(rows, es), rows)
  {
    if es != [] {
      HealthyRunFailsNothing(rows, es[..|es| - 1]);
      StepFailsNothing(Run(rows, es[..|es| - 1]), es[|es| - 1], rows);
    }
  }

  /** So on a run without database errors the two records always agree between flushes,
      and end at all that was added. */
  lemma DailyRowsMatchQuota(rows: set<Meter>, es: seq<Event>, m: Meter)
    requires forall i :: 0 <= i < |es| ==> Healthy(rows, es[i])
    ensures var s := Run(rows, es);
            (forall p :: p in s.procs ==> !s.procs[p].OwesDaily?) ==>
              && DailyTotal(s, m) == Get(s.quota, m)
              && (Get(s.buf.counters, m) == 0 == InFlight(s, m) ==> Get(s.quota, m) == Get(s.added, m))
  {
    forall i | 0 <= i < |es| ensures Positive(es[i]) { assert Healthy(rows, es[i]); }
    HealthyRunFailsNothing(rows, es);
    UnrolledIffFailed(rows, es, m);
    DailyRowsMatchQuotaIff(rows, es, m);
  }

  /** The two writes of one flush move the column and the rollups by the same amount
      exactly when the zero clamp of the column does not bite. */
  lemma RollupMatchesIffNoClamp(s: State, p: nat, day: int)
    requires Enabled(s, DoQuota(p, true)) && ProcOf(s, p).deltas[0].meter in s.quota
    ensures var d := ProcOf(s, p).deltas[0];
            var s1 := Apply(s, DoQuota(p, true));
            var s2 := Apply(s1, DoDaily(p, day, true));
            DailyTotal(s2, d.meter) - DailyTotal(s, d.meter) == Get(s2.quota, d.meter) - Get(s.quota, d.meter)
            <==> s.quota[d.meter] + d.n >= 0
  {
    var d := ProcOf(s, p).deltas[0];
    var s1 := Apply(s, DoQuota(p, true));
    var s2 := Apply(s1, DoDaily(p, day, true));
    RollupAdds(s1, d, day, d.meter);
    assert s2.daily == AddDaily(s1.daily, d, day);
  }
}

/** What each command does, and what a process does that nobody interrupts. */
module MeterEffects {
  import opened Arithmetic
  import opened UsageBuffer
  import opened Metering

  /** The step of process p leaves everyone else's place as it was. */
  predicate OwnStep(s: State, s': State, p: nat, q: Proc) { s'.procs == s.procs[p := q] }

  predicate SameDatabase(s: State, s': State) { s'.quota == s.quota && s'.daily == s.daily }

  /** A producer adds to its counter first and announces the counter after. */
  lemma AddExactly(s: State, p: nat, m: Meter, n: int)
    requires ProcOf(s, p) == Idle && n != 0
    ensures var s1 := Apply(s, DoIncrBy(p, m, n));
            var s2 := Apply(s1, DoSAdd(p));
            && OwnStep(s, s1, p, OwesSAdd(m)) && OwnStep(s1, s2, p, Idle)
            && SameDatabase(s, s1) && SameDatabase(s, s2)
            && s1.buf.counters == s.buf.counters[m := n + if m in s.buf.counters then s.buf.counters[m] else 0]
            && s1.buf.members == s.buf.members
            && s2.buf.counters == s1.buf.counters && s2.buf.members == s.buf.members + {m}
            && s1.added == s.added[m := n + if m in s.added then s.added[m] else 0] && s2.added == s1.added
  {
  }

  /** A drainer takes a counter off the set first and its value after. */
  lemma TakeExactly(s: State, p: nat, m: Meter, todo: seq<Meter>, out: seq<Delta>)
    requires ProcOf(s, p) == Draining([m] + todo, out)
    ensures var s1 := Apply(s, DoSRem(p));
            var s2 := Apply(s1, DoGetDel(p));
            var n := if m in s.buf.counters then s.buf.counters[m] else 0;
            && OwnStep(s, s1, p, OwesGetDel(m, todo, out))
            && OwnStep(s1, s2, p, Draining(todo, if n == 0 then out else out + [Delta(m, n)]))
            && SameDatabase(s, s1) && SameDatabase(s, s2)
            && s1.buf.counters == s.buf.counters && s1.buf.members == s.buf.members - {m}
            && s2.buf.counters == s.buf.counters - {m} && s2.buf.members == s1.buf.members
  {
    assert ([m] + todo)[1..] == todo;
    assert out + [] == out;
  }

  /** A drain starts with the announced counters and ends with what it found. */
  lemma DrainEndsExactly(s: State, p: nat, order: seq<Meter>, out: seq<Delta>)
    ensures ProcOf(s, p) == Idle && Enumerates(order, s.buf.members) ==>
              var s' := Apply(s, DoSMembers(p, order));
              OwnStep(s, s', p, Draining(order, [])) && s'.buf == s.buf && SameDatabase(s, s')
    ensures ProcOf(s, p) == Draining([], out) ==>
              var s' := Apply(s, DoEndDrain(p));
              && OwnStep(s, s', p, if out == [] then Idle else Flushing(out))
              && s'.buf == s.buf && SameDatabase(s, s')
  {
  }

  /** A flush writes the column of a delta first, if its row exists, and the rollup of
      the day after; a failed or empty first write skips the second. */
  lemma FlushExactly(s: State, p: nat, d: Delta, rest: seq<Delta>, dbOk: bool, day: int)
    requires ProcOf(s, p) == Flushing([d] + rest)
    ensures var s1 := Apply(s, DoQuota(p, dbOk));
            var s2 := Apply(s1, DoDaily(p, day, true));
            var next := if rest == [] then Idle else Flushing(rest);
            && s1.buf == s.buf && s1.daily == s.daily
            && if dbOk && d.meter in s.quota then
                 && OwnStep(s, s1, p, OwesDaily(d, rest)) && OwnStep(s1, s2, p, next)
                 && s1.quota == s.quota[d.meter := Clamp0(s.quota[d.meter] + d.n)]
                 && s2.quota == s1.quota && s2.buf == s.buf && OnlyRolledUp(s.daily, s2.daily, d, day)
               else OwnStep(s, s1, p, next) && s1.quota == s.quota
  {
    assert ([d] + rest)[1..] == rest;
  }

  /** The rollup of this meter and day grew by the delta, and no other changed. */
  ghost predicate OnlyRolledUp(before: map<Meter, map<int, int>>, after: map<Meter, map<int, int>>,
                               d: Delta, day: int)
  {
    forall m, t ::
      (if m in after && t in after[m] then after[m][t] else 0)
        == (if m in before && t in before[m] then before[m][t] else 0) + if m == d.meter && t == day then d.n else 0
  }

  /** The drain of a process that nobody interrupts. */
  function Drained(s: State, p: nat, todo: seq<Meter>): State
    decreases |todo|
  {
    if todo == [] then s else Drained(Apply(Apply(s, DoSRem(p)), DoGetDel(p)), p, todo[1..])
  }

  predicate Distinct(todo: seq<Meter>) { forall i, j :: 0 <= i < j < |todo| ==> todo[i] != todo[j] }

  /** What is left to take has been taken, once, with its whole value. */
  ghost predicate TookAll(s: State, s': State, p: nat, todo: seq<Meter>, out: seq<Delta>) {
    && s'.buf.members == s.buf.members - (set m | m in todo)
    && s'.buf.counters == s.buf.counters - (set m | m in todo)
    && SameDatabase(s, s')
    && ProcOf(s', p).Draining? && ProcOf(s', p).todo == []
    && forall m :: SumFor(ProcOf(s', p).out, m)
                     == SumFor(out, m) + if m in todo then Get(s.buf.counters, m) else 0
  }

  lemma TookOneMore(s: State, s1: State, s': State, p: nat, m: Meter, todo: seq<Meter>, out: seq<Delta>)
    requires Distinct([m] + todo) && SameDatabase(s, s1)
    requires s1.buf.members == s.buf.members - {m} && s1.buf.counters == s.buf.counters - {m}
    requires TookAll(s1, s', p, todo, out + Collected(s.buf, m))
    ensures TookAll(s, s', p, [m] + todo, out)
  {
    var all := [m] + todo;
    assert (set x | x in all) == {m} + set x | x in todo;
    forall j | 0 <= j < |todo| ensures todo[j] != m { assert all[j + 1] == todo[j] && all[0] == m; }
    forall x ensures SumFor(ProcOf(s', p).out, x) == SumFor(out, x) + if x in all then Get(s.buf.counters, x) else 0 {
      SumForAppend(out, Collected(s.buf, m), x);
      CollectedSum(s.buf, m, x);
    }
  }

  lemma {:induction false} DrainTakesAll(s: State, p: nat, todo: seq<Meter>, out: seq<Delta>)
    requires ProcOf(s, p) == Draining(todo, out) && Distinct(todo)
    ensures TookAll(s, Drained(s, p, todo), p, todo, out)
    decreases |todo|
  {
    if todo != [] {
      var m := todo[0];
      var s1 := Apply(Apply(s, DoSRem(p)), DoGetDel(p));
      assert todo == [m] + todo[1..];
      TakeExactly(s, p, m, todo[1..], out);
      assert out + [] == out;
      DrainTakesAll(s1, p, todo[1..], out + Collected(s.buf, m));
      TookOneMore(s, s1, Drained(s1, p, todo[1..]), p, m, todo[1..], out);
    }
  }

  /** Command by command and undisturbed, a drain does what DrainUsage promises: no
      counter is announced any more, the announced ones are gone, and the process holds
      the whole value of each, once. */
  lemma SoloDrain(s: State, p: nat, order: seq<Meter>)
    requires ProcOf(s, p) == Idle && Enumerates(order, s.buf.members)
    ensures var s' := Drained(Apply(s, DoSMembers(p, order)), p, order);
            && s'.buf.members == {} && s'.buf.counters == s.buf.counters - s.buf.members
            && ProcOf(s', p).Draining? && ProcOf(s', p).todo == []
            && forall m :: SumFor(ProcOf(s', p).out, m)
                             == if m in s.buf.members then Get(s.buf.counters, m) else 0
  {
    DrainEndsExactly(s, p, order, []);
    assert (set m | m in order) == s.buf.members;
    DrainTakesAll(Apply(s, DoSMembers(p, order)), p, order, []);
  }
}

module MeterFlush {
  import opened Arithmetic
  import opened UsageBuffer

  type Rollups = map<Meter, map<int, int>>

  function DailyOn(daily: Rollups, m: Meter, day: int): int {
    if m in daily && day in daily[m] then daily[m][day] else 0
  }

  lemma {:induction false} SumForAbsent(ds: seq<Delta>, m: Meter)
    requires forall i :: 0 <= i < |ds| ==> ds[i].meter != m
    ensures SumFor(ds, m) == 0
  {
    if ds != [] { SumForAbsent(ds[1..], m); }
  }

  lemma SumForNext(ds: seq<Delta>, k: nat)
    requires OnePerMeter(ds) && k < |ds|
    ensures SumFor(ds[..k], ds[k].meter) == 0
    ensures forall m :: SumFor(ds[..k + 1], m) == SumFor(ds[..k], m) + if ds[k].meter == m then ds[k].n else 0
  {
    SumForAbsent(ds[..k], ds[k].meter);
    forall m ensures SumFor(ds[..k + 1], m) == SumFor(ds[..k], m) + if ds[k].meter == m then ds[k].n else 0 {
      assert ds[..k + 1] == ds[..k] + [ds[k]];
      SumForAppend(ds[..k], [ds[k]], m);
      assert [ds[k]][1..] == [];
    }
  }

  /** The first k deltas are in the columns ... */
  predicate ColumnsDone(before: map<Meter, int>, quota: map<Meter, int>, ds: seq<Delta>) {
    && quota.Keys == before.Keys
    && forall m :: m in quota ==> quota[m] == ColumnAfter(before[m], SumFor(ds, m))
  }

  /** ... and in the rollups of this day, for the meters that have a row. */
  ghost predicate RollupsDone(before: Rollups, daily: Rollups, rows: set<Meter>, ds: seq<Delta>, day: int) {
    forall m, t :: DailyOn(daily, m, t)
      == DailyOn(before, m, t) + if t == day && m in rows then SumFor(ds, m) else 0
  }

  lemma NextColumn(before: map<Meter, int>, quota: map<Meter, int>, ds: seq<Delta>, k: nat)
    requires OnePerMeter(ds) && k < |ds| && ColumnsDone(before, quota, ds[..k])
    ensures var d := ds[k];
            ColumnsDone(before, if d.meter in quota then quota[d.meter := Clamp0(quota[d.meter] + d.n)] else quota,
                        ds[..k + 1])
  {
    SumForNext(ds, k);
  }

  lemma NextRollup(before: Rollups, daily: Rollups, daily': Rollups, rows: set<Meter>, ds: seq<Delta>, day: int, k: nat)
    requires OnePerMeter(ds) && k < |ds| && RollupsDone(before, daily, rows, ds[..k], day)
    requires forall m, t :: DailyOn(daily', m, t)
               == DailyOn(daily, m, t) + if m == ds[k].meter && t == day && m in rows then ds[k].n else 0
    ensures RollupsDone(before, daily', rows, ds[..k + 1], day)
  {
    SumForNext(ds, k);
    forall m, t
      ensures DailyOn(daily', m, t)
           == DailyOn(before, m, t) + if t == day && m in rows then SumFor(ds[..k + 1], m) else 0
    {
      assert DailyOn(daily, m, t) == DailyOn(before, m, t) + if t == day && m in rows then SumFor(ds[..k], m) else 0;
    }
  }

  /** What the UPDATE leaves of a column after n was drained. */
  function ColumnAfter(column: int, n: int): int { if n == 0 then column else Clamp0(column + n) }

  /** worker.Worker with its quota columns and daily rollups; no statement fails. */
  class Worker {
    const redis: Client
    var quota: map<Meter, int>
    var daily: Rollups

    constructor (redis: Client, rows: set<Meter>)
      ensures this.redis == redis && quota == (map m | m in rows :: 0) && daily == map[]
    {
      this.redis := redis;
      quota := map m | m in rows :: 0;
      daily := map[];
    }

    method AddUsageDaily(d: Delta, day: int)
      modifies this`daily
      ensures forall m, t :: DailyOn(daily, m, t)
                == DailyOn(old(daily), m, t) + if m == d.meter && t == day then d.n else 0
    {
      var rows := if d.meter in daily then daily[d.meter] else map[];
      daily := daily[d.meter := rows[day := (if day in rows then rows[day] else 0) + d.n]];
    }

    /** A flush that nothing interleaves with: every announced counter leaves Redis, and
        its whole value, once, reaches both the column and the day's rollup of a meter
        that has a row; no other column, rollup, day or counter changes. */
    method FlushUsage(day: int)
      modifies this, redis
      ensures redis.members == {} && redis.counters == old(redis.counters) - old(redis.members)
      ensures quota.Keys == old(quota).Keys
      ensures forall m :: var n := if m in old(redis.members) then Get(old(redis.counters), m) else 0;
                && (m in quota ==> quota[m] == ColumnAfter(old(quota)[m], n))
                && DailyOn(daily, m, day) == DailyOn(old(daily), m, day) + if m in quota then n else 0
      ensures forall m, t :: t != day ==> DailyOn(daily, m, t) == DailyOn(old(daily), m, t)
    {
      var deltas := redis.DrainUsage();
      ghost var rows := quota.Keys;
      assert deltas[..0] == [];
      for k := 0 to |deltas|
        invariant redis.members == {} && redis.counters == old(redis.counters) - old(redis.members)
        invariant quota.Keys == rows && ColumnsDone(old(quota), quota, deltas[..k])
        invariant RollupsDone(old(daily), daily, rows, deltas[..k], day)
      {
        ghost var daily0 := daily;
        NextColumn(old(quota), quota, deltas, k);
        if deltas[k].meter in quota {
          quota := quota[deltas[k].meter := Clamp0(quota[deltas[k].meter] + deltas[k].n)];
          AddUsageDaily(deltas[k], day);
        }
        NextRollup(old(daily), daily0, daily, rows, deltas, day, k);
      }
      assert deltas[..|deltas|] == deltas;
    }
  }
}
