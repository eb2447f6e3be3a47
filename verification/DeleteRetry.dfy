// Object deletion with retries: tagged queue messages, capped exponential
// backoff, and a dead-letter list.

module RetryTag {
  import opened Arithmetic
  import opened Decimal
  import opened ObjectKeys
  import opened Splitting

  /** The message for attempt n of a key. */
  function Tagged(key: string, n: int): string { key + "|" + Itoa(n) }

  /** parseRetry: key and attempt of a queue message. */
  function ParseRetry(p: string): (string, int) {
    match SplitLast(p, '|')
    case NoCut => (p, 0)
    case Cut(front, back) =>
      match Atoi(back)
      case NotANumber => (p, 0)
      case Number(n) => (front, n)
  }

  /** Reading a tag back gives the key and the attempt exactly for attempts that fit
      an int, whatever the key contains. */
  lemma TagRoundTrip(key: string, n: int)
    ensures ParseRetry(Tagged(key, n)) == (key, n) <==> MIN_INT <= n <= MAX_INT
  {
    SplitAtLast(key, Itoa(n), '|');
    AtoiOfItoa(n);
    if Atoi(Itoa(n)).NotANumber? {
      assert |Tagged(key, n)| > |key|;
    }
  }

  /** An untagged key is read as itself at attempt 0 exactly when nothing that looks
      like a number follows its last bar. */
  lemma UntaggedKey(key: string)
    ensures ParseRetry(key) == (key, 0)
       <==> SplitLast(key, '|').NoCut? || Atoi(SplitLast(key, '|').back).NotANumber?
  {
    match SplitLast(key, '|')
    case NoCut =>
    case Cut(front, back) => assert |front| < |key|;
  }

  lemma {:induction false} CutAfterBar(s: string, t: string, sep: char)
    requires sep !in t
    ensures SplitLast(s + t, sep) == match SplitLast(s, sep) case NoCut => NoCut case Cut(f, b) => Cut(f, b + t)
  {
    match SplitLast(s, sep)
    case NoCut => assert sep !in s + t;
    case Cut(f, b) =>
      assert s + t == f + [sep] + (b + t);
      SplitAtLast(f, b + t, sep);
  }

  /** Every key the service stores objects under is read untagged, even with bars in
      the ids: what follows a bar ends in "/original". */
  lemma StorageKeysAreUntagged(tenant: string, instance: string, file: string)
    ensures var key := StorageKey(tenant, instance, file); ParseRetry(key) == (key, 0)
  {
    var key := StorageKey(tenant, instance, file);
    var head := tenant + "/" + instance + "/" + file;
    assert key == head + "/original";
    CutAfterBar(head, "/original", '|');
    UntaggedKey(key);
    match SplitLast(key, '|')
    case NoCut =>
    case Cut(front, back) =>
      assert back[|back| - 1] == 'l';
      var body := if back != "" && (back[0] == '-' || back[0] == '+') then back[1..] else back;
      assert !IsDigit(body[|body| - 1]);
      assert !AllDigits(body);
  }

  // ---- retryBackoff ----

  function Pow2(a: nat): nat { if a == 0 then 1 else 2 * Pow2(a - 1) }

  /** The delay in nanoseconds: each operation wraps as int64, and a shift by a
      negative attempt (a huge unsigned count) gives zero. */
  function RetryBackoff(attempt: int): int {
    var shifted := if attempt < 0 then 0 else Wrap64(Pow2(attempt));
    var d := Wrap64(Wrap64(shifted * 10) * SECOND);
    if d > 600 * SECOND then 600 * SECOND else d
  }

  function IdealBackoff(attempt: nat): int {
    if 10 * Pow2(attempt) > 600 then 600 * SECOND else 10 * Pow2(attempt) * SECOND
  }

  lemma {:induction false} Pow2Monotone(a: nat, b: nat)
    requires a <= b
    ensures 1 <= Pow2(a) <= Pow2(b)
    decreases b
  {
    if b > a { Pow2Monotone(a, b - 1); }
    else if a > 0 { Pow2Monotone(a - 1, a - 1); }
  }

  lemma Pow2At29()
    ensures Pow2(29) == 536_870_912
  {
    assert Pow2(10) == 1024;
    assert Pow2(20) == 1_048_576;
  }

  /** The product fits 64 bits exactly up to attempt 29 ... */
  lemma BackoffFitsIffAtMost29(a: nat)
    ensures Pow2(a) * 10 * SECOND <= 0x7fff_ffff_ffff_ffff <==> a <= 29
  {
    Pow2At29();
    if a <= 29 { Pow2Monotone(a, 29); } else { Pow2Monotone(30, a); }
  }

  lemma WrapFits(n: int)
    requires 0 <= n <= 0x7fff_ffff_ffff_ffff
    ensures Wrap64(n) == n
  {
  }

  lemma BackoffUpTo29(a: nat)
    requires a <= 29
    ensures RetryBackoff(a) == IdealBackoff(a)
  {
    BackoffFitsIffAtMost29(a);
    Pow2Monotone(0, a);
    WrapFits(Pow2(a));
    WrapFits(Pow2(a) * 10);
    WrapFits(Pow2(a) * 10 * SECOND);
  }

  /** ... where it is the capped exponential, never decreasing ... */
  lemma BackoffIsCappedExponential(a: nat, b: nat)
    requires a <= b <= 29
    ensures RetryBackoff(a) == IdealBackoff(a)
    ensures 10 * SECOND <= RetryBackoff(a) <= RetryBackoff(b) <= 600 * SECOND
  {
    BackoffUpTo29(a);
    BackoffUpTo29(b);
    Pow2Monotone(0, a);
    Pow2Monotone(a, b);
  }

  /** ... and the next attempt would already wrap to a negative delay. */
  lemma BackoffWrapsAt30()
    ensures RetryBackoff(30) < 0
  {
    Pow2At29();
  }
}

module DeleteRetry {
  import opened Arithmetic
  import opened Decimal
  import opened ObjectKeys
  import opened RetryTag

  const MAX_ATTEMPTS: int := 6

  /** Messages carry an identity so that each can be followed through the system. */
  datatype Msg = Msg(id: nat, payload: string)

  datatype Timer = Timer(id: nat, key: string, attempt: int, delay: int)

  datatype Dead = Dead(id: nat, key: string)

  datatype State = State(
    queue: seq<Msg>,        // pushed at the head, popped at the tail
    timers: seq<Timer>,     // requeueAfter goroutines
    deleted: seq<nat>,
    dead: seq<Dead>,        // the "delete:dead" list
    keys: seq<string>,      // the key each message was submitted for, by identity
    tries: map<nat, nat>,   // how often the object store was asked, by identity
    waited: map<nat, int>)  // total backoff given, by identity

  datatype Event =
    | Submit(tenant: string, instance: string, file: string)  // a handler enqueues an object key
    | Process(ok: bool)                                       // pop a message; the object store answers
    | Fire(i: nat)                                            // a timer runs out

  function Init(): State { State([], [], [], [], [], map[], map[]) }

  function TriesOf(s: State, id: nat): nat { if id in s.tries then s.tries[id] else 0 }

  function WaitedOf(s: State, id: nat): int { if id in s.waited then s.waited[id] else 0 }

  /** handleDelete on one message, with object storage configured. */
  function Handle(s: State, m: Msg, ok: bool): State {
    var (key, attempt) := ParseRetry(m.payload);
    Settle(s, m.id, key, attempt, ok)
  }

  function Settle(s: State, id: nat, key: string, attempt: int, ok: bool): State {
    var tried := s.(tries := s.tries[id := TriesOf(s, id) + 1]);
    var again := Wrap64(attempt + 1);
    if ok then tried.(deleted := tried.deleted + [id])
    else if again >= MAX_ATTEMPTS then tried.(dead := [Dead(id, key)] + tried.dead)
    else
      tried.(timers := tried.timers + [Timer(id, key, again, RetryBackoff(again))],
             waited := tried.waited[id := WaitedOf(s, id) + RetryBackoff(again)])
  }

  function Apply(s: State, e: Event): State {
    match e
    case Submit(tenant, instance, file) =>
      var key := StorageKey(tenant, instance, file);
      s.(queue := [Msg(|s.keys|, key)] + s.queue, keys := s.keys + [key])
    case Process(ok) =>
      if s.queue == [] then s
      else
        var last := |s.queue| - 1;
        Handle(s.(queue := s.queue[..last]), s.queue[last], ok)
    case Fire(i) =>
      if i >= |s.timers| then s
      else
        Requeue(s, i, Tagged(s.timers[i].key, s.timers[i].attempt))
  }

  function Requeue(s: State, i: nat, payload: string): State
    requires i < |s.timers|
  {
    s.(timers := s.timers[..i] + s.timers[i + 1..], queue := [Msg(s.timers[i].id, payload)] + s.queue)
  }

  function Run(es: seq<Event>): State {
    if es == [] then Init() else Apply(Run(es[..|es| - 1]), es[|es| - 1])
  }

  /** The delete consumer, its timers and its queue as the worker holds them. */
  class Worker {
    var queue: seq<Msg>
    var timers: seq<Timer>
    var deleted: seq<nat>
    var dead: seq<Dead>
    ghost var keys: seq<string>
    ghost var tries: map<nat, nat>
    ghost var waited: map<nat, int>

    ghost function View(): State
      reads this
    {
      State(queue, timers, deleted, dead, keys, tries, waited)
    }

    constructor ()
      ensures View() == Init()
    {
      queue, timers, deleted, dead := [], [], [], [];
      keys, tries, waited := [], map[], map[];
    }

    /** consume: one message, if there is one. */
    method ConsumeOne(ok: bool)
      modifies this
      ensures View() == Apply(old(View()), Process(ok))
    {
      if |queue| == 0 { return; }
      var m := queue[|queue| - 1];
      queue := queue[..|queue| - 1];
      HandleDelete(m, ok);
    }

    method HandleDelete(m: Msg, ok: bool)
      modifies this
      ensures View() == Handle(old(View()), m, ok)
    {
      tries := tries[m.id := TriesOf(View(), m.id) + 1];
      if ok {
        deleted := deleted + [m.id];
        return;
      }
      var (key, attempt) := ParseRetry(m.payload);
      if Wrap64(attempt + 1) >= MAX_ATTEMPTS {
        dead := [Dead(m.id, key)] + dead;
        return;
      }
      attempt := Wrap64(attempt + 1);
      ScheduleRetry(m.id, key, attempt);
    }

    method ScheduleRetry(id: nat, key: string, attempt: int)
      modifies this
      ensures View() == old(View()).(
                timers := old(timers) + [Timer(id, key, attempt, RetryBackoff(attempt))],
                waited := old(waited)[id := WaitedOf(old(View()), id) + RetryBackoff(attempt)])
    {
      var delay := RetryBackoff(attempt);
      waited := waited[id := WaitedOf(View(), id) + delay];
      timers := timers + [Timer(id, key, attempt, delay)];
    }

    /** requeueAfter, when its delay is over. */
    method RequeueAfter(i: nat)
      requires i < |timers|
      modifies this
      ensures View() == Apply(old(View()), Fire(i))
    {
      var t := timers[i];
      timers := timers[..i] + timers[i + 1..];
      queue := [Msg(t.id, t.key + "|" + Itoa(t.attempt))] + queue;
    }
  }

  // ---- Each message is in exactly one place ----

  function MsgId(m: Msg): nat { m.id }

  function TimerId(t: Timer): nat { t.id }

  function DeadId(d: Dead): nat { d.id }

  function Self(id: nat): nat { id }

  /** How many entries of a list belong to a message. */
  function Count<T>(xs: seq<T>, idOf: T -> nat, id: nat): nat {
    if xs == [] then 0 else (if idOf(xs[0]) == id then 1 else 0) + Count(xs[1..], idOf, id)
  }

  lemma {:induction false} CountConcat<T>(xs: seq<T>, ys: seq<T>, idOf: T -> nat, id: nat)
    ensures Count(xs + ys, idOf, id) == Count(xs, idOf, id) + Count(ys, idOf, id)
  {
    if xs == [] {
      assert xs + ys == ys;
    } else {
      assert (xs + ys)[1..] == xs[1..] + ys;
      CountConcat(xs[1..], ys, idOf, id);
    }
  }

  lemma {:induction false} CountZero<T>(xs: seq<T>, idOf: T -> nat, id: nat)
    ensures Count(xs, idOf, id) == 0 <==> forall x :: x in xs ==> idOf(x) != id
  {
    if xs != [] {
      CountZero(xs[1..], idOf, id);
      assert forall x :: x in xs <==> x == xs[0] || x in xs[1..];
    }
  }

  function Places(s: State, id: nat): nat {
    Count(s.queue, MsgId, id) + Count(s.timers, TimerId, id)
      + Count(s.deleted, Self, id) + Count(s.dead, DeadId, id)
  }

  /** Settling a popped message puts it in exactly one place. */
  lemma PlacesAfterSettle(s: State, settled: nat, key: string, a: int, ok: bool, id: nat)
    ensures Places(Settle(s, settled, key, a, ok), id) == Places(s, id) + if settled == id then 1 else 0
  {
    var again := Wrap64(a + 1);
    CountConcat(s.deleted, [settled], Self, id);
    CountConcat(s.timers, [Timer(settled, key, again, RetryBackoff(again))], TimerId, id);
    CountConcat([Dead(settled, key)], s.dead, DeadId, id);
  }

  lemma PlacesAfterProcess(s: State, ok: bool, id: nat)
    ensures Places(Apply(s, Process(ok)), id) == Places(s, id)
  {
    if s.queue != [] {
      var front, m := s.queue[..|s.queue| - 1], s.queue[|s.queue| - 1];
      var (key, a) := ParseRetry(m.payload);
      assert s.queue == front + [m];
      CountConcat(front, [m], MsgId, id);
      PlacesAfterSettle(s.(queue := front), m.id, key, a, ok, id);
    }
  }

  lemma PlacesAfterFire(s: State, i: nat, id: nat)
    ensures Places(Apply(s, Fire(i)), id) == Places(s, id)
  {
    if i < |s.timers| {
      var t := s.timers[i];
      assert s.timers == s.timers[..i] + ([t] + s.timers[i + 1..]);
      CountConcat(s.timers[..i], [t] + s.timers[i + 1..], TimerId, id);
      CountConcat([t], s.timers[i + 1..], TimerId, id);
      CountConcat(s.timers[..i], s.timers[i + 1..], TimerId, id);
      CountConcat([Msg(t.id, Tagged(t.key, t.attempt))], s.queue, MsgId, id);
    }
  }

  lemma {:induction false} ExactlyOnePlace(es: seq<Event>, id: nat)
    ensures Places(Run(es), id) == if id < |Run(es).keys| then 1 else 0
  {
    if es != [] {
      var s := Run(es[..|es| - 1]);
      ExactlyOnePlace(es[..|es| - 1], id);
      match es[|es| - 1]
      case Submit(tenant, instance, file) =>
        CountConcat([Msg(|s.keys|, StorageKey(tenant, instance, file))], s.queue, MsgId, id);
      case Process(ok) => PlacesAfterProcess(s, ok, id);
      case Fire(i) => PlacesAfterFire(s, i, id);
    }
  }

  // ---- Budgets: attempts, backoff, and the key ----

  function TotalBackoff(a: nat): int { if a == 0 then 0 else TotalBackoff(a - 1) + RetryBackoff(a) }

  const LONGEST_WAIT: int := 620 * SECOND

  lemma {:induction false} TotalBackoffBound(a: nat)
    requires a <= 5
    ensures 0 <= TotalBackoff(a) <= LONGEST_WAIT
    ensures a == 5 ==> TotalBackoff(a) == LONGEST_WAIT
  {
    BackoffUpTo29(1);
    BackoffUpTo29(2);
    BackoffUpTo29(3);
    BackoffUpTo29(4);
    BackoffUpTo29(5);
    assert TotalBackoff(2) == 60 * SECOND;
    assert TotalBackoff(4) == 300 * SECOND;
  }

  /** Key and attempt fit what is recorded about the message: it has been tried a
      times and has waited for all the backoffs before this attempt. */
  predicate Stands(s: State, id: nat, key: string, a: int) {
    && id < |s.keys| && key == s.keys[id]
    && 0 <= a < MAX_ATTEMPTS && TriesOf(s, id) == a && WaitedOf(s, id) == TotalBackoff(a)
  }

  predicate QueuedOk(s: State, m: Msg) {
    var (key, a) := ParseRetry(m.payload);
    Stands(s, m.id, key, a)
  }

  predicate TimerOk(s: State, t: Timer) {
    && t.id < |s.keys| && t.key == s.keys[t.id]
    && 1 <= t.attempt < MAX_ATTEMPTS && t.delay == RetryBackoff(t.attempt)
    && TriesOf(s, t.id) == t.attempt && WaitedOf(s, t.id) == TotalBackoff(t.attempt)
  }

  predicate DeletedOk(s: State, id: nat) {
    id < |s.keys| && 1 <= TriesOf(s, id) <= MAX_ATTEMPTS && 0 <= WaitedOf(s, id) <= LONGEST_WAIT
  }

  predicate DeadOk(s: State, d: Dead) {
    d.id < |s.keys| && d.key == s.keys[d.id] && TriesOf(s, d.id) == MAX_ATTEMPTS && WaitedOf(s, d.id) == LONGEST_WAIT
  }

  ghost predicate Budgeted(s: State) {
    && (forall m :: m in s.queue ==> QueuedOk(s, m))
    && (forall t :: t in s.timers ==> TimerOk(s, t))
    && (forall id :: id in s.deleted ==> DeletedOk(s, id))
    && (forall d :: d in s.dead ==> DeadOk(s, d))
    && (forall id :: id in s.tries || id in s.waited ==> id < |s.keys|)
  }

  /** In the state without a popped message nothing else belongs to it. */
  ghost predicate NoneFor(s: State, id: nat) {
    && (forall m :: m in s.queue ==> m.id != id)
    && (forall t :: t in s.timers ==> t.id != id)
    && id !in s.deleted
    && (forall d :: d in s.dead ==> d.id != id)
  }

  lemma PoppedIsAlone(s: State)
    requires s.queue != [] && Places(s, s.queue[|s.queue| - 1].id) == 1
    ensures NoneFor(s.(queue := s.queue[..|s.queue| - 1]), s.queue[|s.queue| - 1].id)
  {
    var m := s.queue[|s.queue| - 1];
    var front := s.queue[..|s.queue| - 1];
    assert s.queue == front + [m];
    CountConcat(front, [m], MsgId, m.id);
    CountZero(front, MsgId, m.id);
    CountZero(s.timers, TimerId, m.id);
    CountZero(s.deleted, Self, m.id);
    CountZero(s.dead, DeadId, m.id);
  }

  /** The two states agree on everything recorded about a message. */
  predicate SameFor(s: State, s': State, id: nat) {
    s'.keys == s.keys && TriesOf(s', id) == TriesOf(s, id) && WaitedOf(s', id) == WaitedOf(s, id)
  }

  lemma OthersKeepBudget(s: State, s': State, id: nat)
    requires Budgeted(s) && NoneFor(s, id)
    requires forall i :: i != id ==> SameFor(s, s', i)
    ensures forall m :: m in s.queue ==> QueuedOk(s', m)
    ensures forall t :: t in s.timers ==> TimerOk(s', t)
    ensures forall i :: i in s.deleted ==> DeletedOk(s', i)
    ensures forall d :: d in s.dead ==> DeadOk(s', d)
  {
    forall m | m in s.queue ensures QueuedOk(s', m) { assert QueuedOk(s, m) && SameFor(s, s', m.id); }
    forall t | t in s.timers ensures TimerOk(s', t) { assert TimerOk(s, t) && SameFor(s, s', t.id); }
    forall i | i in s.deleted ensures DeletedOk(s', i) { assert DeletedOk(s, i) && SameFor(s, s', i); }
    forall d | d in s.dead ensures DeadOk(s', d) { assert DeadOk(s, d) && SameFor(s, s', d.id); }
  }

  lemma WrapSmall(a: int)
    requires 0 <= a <= MAX_ATTEMPTS
    ensures Wrap64(a) == a
  {
  }

  /** Only what is recorded about one message changes, and it gets one valid entry. */
  lemma EntryKeepsBudget(s: State, s': State, id: nat)
    requires Budgeted(s) && NoneFor(s, id) && id < |s.keys|
    requires forall i :: i != id ==> SameFor(s, s', i)
    requires s'.queue == s.queue && s'.keys == s.keys
    requires forall t :: t in s'.timers ==> t in s.timers || TimerOk(s', t)
    requires forall i :: i in s'.deleted ==> i in s.deleted || DeletedOk(s', i)
    requires forall d :: d in s'.dead ==> d in s.dead || DeadOk(s', d)
    requires forall i :: i in s'.tries || i in s'.waited ==> i == id || i in s.tries || i in s.waited
    ensures Budgeted(s')
  {
    OthersKeepBudget(s, s', id);
  }

  lemma DeletedKeepsBudget(s: State, id: nat)
    requires Budgeted(s) && NoneFor(s, id) && id < |s.keys|
    requires TriesOf(s, id) < MAX_ATTEMPTS && 0 <= WaitedOf(s, id) <= LONGEST_WAIT
    ensures Budgeted(s.(tries := s.tries[id := TriesOf(s, id) + 1], deleted := s.deleted + [id]))
  {
    var s' := s.(tries := s.tries[id := TriesOf(s, id) + 1], deleted := s.deleted + [id]);
    assert DeletedOk(s', id);
    EntryKeepsBudget(s, s', id);
  }

  lemma DeadKeepsBudget(s: State, id: nat)
    requires Budgeted(s) && NoneFor(s, id) && id < |s.keys|
    requires TriesOf(s, id) == MAX_ATTEMPTS - 1 && WaitedOf(s, id) == LONGEST_WAIT
    ensures Budgeted(s.(tries := s.tries[id := MAX_ATTEMPTS], dead := [Dead(id, s.keys[id])] + s.dead))
  {
    var s' := s.(tries := s.tries[id := MAX_ATTEMPTS], dead := [Dead(id, s.keys[id])] + s.dead);
    assert DeadOk(s', Dead(id, s.keys[id]));
    EntryKeepsBudget(s, s', id);
  }

  lemma TimerKeepsBudget(s: State, s': State, t: Timer)
    requires Budgeted(s) && NoneFor(s, t.id) && t.id < |s.keys| && TimerOk(s', t)
    requires s' == s.(tries := s.tries[t.id := TriesOf(s', t.id)], waited := s.waited[t.id := WaitedOf(s', t.id)],
                      timers := s.timers + [t])
    ensures Budgeted(s')
  {
    EntryKeepsBudget(s, s', t.id);
  }

  lemma SettleKeepsBudget(s: State, id: nat, key: string, a: int, ok: bool)
    requires Budgeted(s) && Stands(s, id, key, a) && NoneFor(s, id)
    ensures Budgeted(Settle(s, id, key, a, ok))
  {
    TotalBackoffBound(a);
    WrapSmall(a + 1);
    if ok {
      DeletedKeepsBudget(s, id);
    } else if a == MAX_ATTEMPTS - 1 {
      DeadKeepsBudget(s, id);
    } else {
      TimerKeepsBudget(s, Settle(s, id, key, a, ok), Timer(id, key, a + 1, RetryBackoff(a + 1)));
    }
  }

  lemma HandleKeepsBudget(s: State, m: Msg, ok: bool)
    requires Budgeted(s) && QueuedOk(s, m) && NoneFor(s, m.id)
    ensures Budgeted(Handle(s, m, ok))
  {
    var (key, a) := ParseRetry(m.payload);
    SettleKeepsBudget(s, m.id, key, a, ok);
  }

  lemma FiredMessageOk(s: State, t: Timer)
    requires TimerOk(s, t)
    ensures QueuedOk(s, Msg(t.id, Tagged(t.key, t.attempt)))
  {
    TagRoundTrip(t.key, t.attempt);
  }

  /** Moving messages around without touching the records. */
  lemma RegroupKeepsBudget(s: State, s': State, m: Msg)
    requires Budgeted(s) && QueuedOk(s, m)
    requires s'.(queue := s.queue, timers := s.timers) == s
    requires forall x :: x in s'.queue ==> x == m || x in s.queue
    requires forall t :: t in s'.timers ==> t in s.timers
    ensures Budgeted(s') && QueuedOk(s', m)
  {
    forall id ensures SameFor(s, s', id) {}
    forall x | x in s'.queue ensures QueuedOk(s', x) { assert QueuedOk(s, x); }
    forall t | t in s'.timers ensures TimerOk(s', t) { assert TimerOk(s, t); }
    forall id | id in s.deleted ensures DeletedOk(s', id) { assert DeletedOk(s, id); }
    forall d | d in s.dead ensures DeadOk(s', d) { assert DeadOk(s, d); }
  }

  lemma RequeueKeepsBudget(s: State, i: nat, payload: string)
    requires Budgeted(s) && i < |s.timers| && QueuedOk(s, Msg(s.timers[i].id, payload))
    ensures Budgeted(Requeue(s, i, payload))
  {
    RegroupKeepsBudget(s, Requeue(s, i, payload), Msg(s.timers[i].id, payload));
  }

  lemma FireKeepsBudget(s: State, i: nat)
    requires Budgeted(s) && i < |s.timers|
    ensures Budgeted(Apply(s, Fire(i)))
  {
    var t := s.timers[i];
    FiredMessageOk(s, t);
    RequeueKeepsBudget(s, i, Tagged(t.key, t.attempt));
  }

  lemma SubmitKeepsBudget(s: State, tenant: string, instance: string, file: string)
    requires Budgeted(s)
    ensures Budgeted(Apply(s, Submit(tenant, instance, file)))
  {
    var s' := Apply(s, Submit(tenant, instance, file));
    StorageKeysAreUntagged(tenant, instance, file);
    assert QueuedOk(s', s'.queue[0]);
    forall m | m in s.queue ensures QueuedOk(s', m) { assert QueuedOk(s, m); }
    forall t | t in s.timers ensures TimerOk(s', t) { assert TimerOk(s, t); }
    forall id | id in s.deleted ensures DeletedOk(s', id) { assert DeletedOk(s, id); }
    forall d | d in s.dead ensures DeadOk(s', d) { assert DeadOk(s, d); }
  }

  lemma StepKeepsBudget(es: seq<Event>, e: Event)
    requires Budgeted(Run(es))
    ensures Budgeted(Apply(Run(es), e))
  {
    var s := Run(es);
    match e
    case Submit(tenant, instance, file) => SubmitKeepsBudget(s, tenant, instance, file);
    case Process(ok) =>
      if s.queue != [] {
        var last := |s.queue| - 1;
        var popped := s.(queue := s.queue[..last]);
        ExactlyOnePlace(es, s.queue[last].id);
        assert QueuedOk(s, s.queue[last]);
        PoppedIsAlone(s);
        PoppedKeepsBudget(s);
        HandleKeepsBudget(popped, s.queue[last], ok);
      }
    case Fire(i) => if i < |s.timers| { FireKeepsBudget(s, i); }
  }

  lemma PoppedKeepsBudget(s: State)
    requires Budgeted(s) && s.queue != []
    ensures var last := |s.queue| - 1; var popped := s.(queue := s.queue[..last]);
            Budgeted(popped) && QueuedOk(popped, s.queue[last])
  {
    var last := |s.queue| - 1;
    RegroupKeepsBudget(s, s.(queue := s.queue[..last]), s.queue[last]);
  }

  lemma {:induction false} RunsAreBudgeted(es: seq<Event>)
    ensures Budgeted(Run(es))
  {
    if es != [] {
      RunsAreBudgeted(es[..|es| - 1]);
      StepKeepsBudget(es[..|es| - 1], es[|es| - 1]);
    }
  }

  /** Over every run: a message is tried at most six times and waits at most 620 s in
      all, and it is given up, under the key it was submitted with, only after the
      sixth failure: tags never nest. */
  lemma RunsStayInBudget(es: seq<Event>)
    ensures forall id :: TriesOf(Run(es), id) <= MAX_ATTEMPTS && WaitedOf(Run(es), id) <= LONGEST_WAIT
    ensures forall d :: d in Run(es).dead ==>
              d.id < |Run(es).keys| && d.key == Run(es).keys[d.id] && TriesOf(Run(es), d.id) == MAX_ATTEMPTS
  {
    RunsAreBudgeted(es);
    forall id ensures TriesOf(Run(es), id) <= MAX_ATTEMPTS && WaitedOf(Run(es), id) <= LONGEST_WAIT {
      ExactlyOnePlace(es, id);
      BudgetBounds(Run(es), id);
    }
    forall d | d in Run(es).dead
      ensures d.id < |Run(es).keys| && d.key == Run(es).keys[d.id] && TriesOf(Run(es), d.id) == MAX_ATTEMPTS
    {
      assert DeadOk(Run(es), d);
    }
  }

  lemma BudgetBounds(s: State, id: nat)
    requires Budgeted(s) && Places(s, id) == if id < |s.keys| then 1 else 0
    ensures TriesOf(s, id) <= MAX_ATTEMPTS && WaitedOf(s, id) <= LONGEST_WAIT
  {
    CountZero(s.queue, MsgId, id);
    CountZero(s.timers, TimerId, id);
    CountZero(s.deleted, Self, id);
    CountZero(s.dead, DeadId, id);
    if m :| m in s.queue && m.id == id {
      TotalBackoffBound(ParseRetry(m.payload).1);
    } else if t :| t in s.timers && t.id == id {
      TotalBackoffBound(t.attempt);
    }
  }

  // ---- Progress ----

  function QueueWork(q: seq<Msg>): int {
    if q == [] then 0 else 12 - 2 * ParseRetry(q[0].payload).1 + QueueWork(q[1..])
  }

  function TimerWork(ts: seq<Timer>): int {
    if ts == [] then 0 else 13 - 2 * ts[0].attempt + TimerWork(ts[1..])
  }

  lemma {:induction false} QueueWorkConcat(a: seq<Msg>, b: seq<Msg>)
    ensures QueueWork(a + b) == QueueWork(a) + QueueWork(b)
  {
    if a == [] { assert a + b == b; }
    else {
      assert (a + b)[1..] == a[1..] + b;
      QueueWorkConcat(a[1..], b);
    }
  }

  lemma {:induction false} TimerWorkConcat(a: seq<Timer>, b: seq<Timer>)
    ensures TimerWork(a + b) == TimerWork(a) + TimerWork(b)
  {
    if a == [] { assert a + b == b; }
    else {
      assert (a + b)[1..] == a[1..] + b;
      TimerWorkConcat(a[1..], b);
    }
  }

  /** An upper bound on the worker steps still to come. */
  function Measure(s: State): int { QueueWork(s.queue) + TimerWork(s.timers) }

  lemma {:induction false} QueueWorkPositive(s: State, q: seq<Msg>)
    requires forall m :: m in q ==> QueuedOk(s, m)
    ensures QueueWork(q) >= 2 * |q|
  {
    if q != [] {
      assert QueuedOk(s, q[0]);
      QueueWorkPositive(s, q[1..]);
    }
  }

  lemma {:induction false} TimerWorkPositive(s: State, ts: seq<Timer>)
    requires forall t :: t in ts ==> TimerOk(s, t)
    ensures TimerWork(ts) >= 3 * |ts|
  {
    if ts != [] {
      assert TimerOk(s, ts[0]);
      TimerWorkPositive(s, ts[1..]);
    }
  }

  /** A worker step that finds something to do. */
  predicate Works(s: State, e: Event) {
    (e.Process? && s.queue != []) || (e.Fire? && e.i < |s.timers|)
  }

  lemma OneTimer(t: Timer)
    ensures TimerWork([t]) == 13 - 2 * t.attempt
  {
    assert [t][1..] == [];
  }

  lemma SettleWork(s: State, id: nat, key: string, a: int, ok: bool)
    requires 0 <= a < MAX_ATTEMPTS
    ensures TimerWork(Settle(s, id, key, a, ok).timers) <= TimerWork(s.timers) + 11 - 2 * a
    ensures Settle(s, id, key, a, ok).queue == s.queue
  {
    WrapSmall(a + 1);
    var t := Timer(id, key, a + 1, RetryBackoff(a + 1));
    TimerWorkConcat(s.timers, [t]);
    OneTimer(t);
  }

  lemma HandleWork(s: State, m: Msg, ok: bool)
    requires QueuedOk(s, m)
    ensures TimerWork(Handle(s, m, ok).timers) <= TimerWork(s.timers) + 11 - 2 * ParseRetry(m.payload).1
    ensures Handle(s, m, ok).queue == s.queue
  {
    var (key, a) := ParseRetry(m.payload);
    SettleWork(s, m.id, key, a, ok);
  }

  lemma ProcessWork(s: State, ok: bool)
    requires Budgeted(s) && s.queue != []
    ensures Measure(Apply(s, Process(ok))) < Measure(s)
  {
    var last := |s.queue| - 1;
    var m := s.queue[last];
    var popped := s.(queue := s.queue[..last]);
    assert s.queue == s.queue[..last] + [m];
    QueueWorkConcat(s.queue[..last], [m]);
    PoppedKeepsBudget(s);
    HandleWork(popped, m, ok);
  }

  lemma RequeueWork(s: State, i: nat, payload: string)
    requires i < |s.timers| && ParseRetry(payload).1 == s.timers[i].attempt
    ensures Measure(Requeue(s, i, payload)) < Measure(s)
  {
    var t := s.timers[i];
    assert s.timers == s.timers[..i] + ([t] + s.timers[i + 1..]);
    TimerWorkConcat(s.timers[..i], [t] + s.timers[i + 1..]);
    TimerWorkConcat([t], s.timers[i + 1..]);
    TimerWorkConcat(s.timers[..i], s.timers[i + 1..]);
    OneTimer(t);
    QueueWorkConcat([Msg(t.id, payload)], s.queue);
    assert [Msg(t.id, payload)][1..] == [];
  }

  lemma FireWork(s: State, i: nat)
    requires Budgeted(s) && i < |s.timers|
    ensures Measure(Apply(s, Fire(i))) < Measure(s)
  {
    var t := s.timers[i];
    assert TimerOk(s, t);
    TagRoundTrip(t.key, t.attempt);
    RequeueWork(s, i, Tagged(t.key, t.attempt));
  }

  /** Each such step strictly decreases the measure, which is zero only when every
      message has been deleted or given up. So without new submissions the worker
      comes to rest after at most Measure steps. */
  lemma WorkDecreases(es: seq<Event>, e: Event)
    requires Works(Run(es), e)
    ensures 0 <= Measure(Apply(Run(es), e)) < Measure(Run(es))
  {
    RunsAreBudgeted(es);
    StepKeepsBudget(es, e);
    var s' := Apply(Run(es), e);
    QueueWorkPositive(s', s'.queue);
    TimerWorkPositive(s', s'.timers);
    match e
    case Process(ok) => ProcessWork(Run(es), ok);
    case Fire(i) => FireWork(Run(es), i);
  }

  lemma RestMeansSettled(es: seq<Event>, id: nat)
    requires Measure(Run(es)) == 0 && id < |Run(es).keys|
    ensures Count(Run(es).deleted, Self, id) + Count(Run(es).dead, DeadId, id) == 1
  {
    var s := Run(es);
    RunsAreBudgeted(es);
    QueueWorkPositive(s, s.queue);
    TimerWorkPositive(s, s.timers);
    ExactlyOnePlace(es, id);
  }
}

/** What each step does, and which steps put a message where it ends. */
module DeleteEffects {
  import opened Arithmetic
  import opened Decimal
  import opened RetryTag
  import opened DeleteRetry

  /** A handler's key goes to the head of the queue, untagged. */
  lemma SubmitExactly(s: State, tenant: string, instance: string, file: string)
    ensures var s' := Apply(s, Submit(tenant, instance, file));
            var key := tenant + "/" + instance + "/" + file + "/original";
            && s'.queue == [Msg(|s.keys|, key)] + s.queue && s'.keys == s.keys + [key]
            && s'.timers == s.timers && s'.deleted == s.deleted && s'.dead == s.dead
  {
  }

  /** An object that could be deleted is done with: its message is neither retried nor
      given up. */
  lemma SuccessExactly(s: State)
    requires s.queue != []
    ensures var s' := Apply(s, Process(true));
            && s'.queue == s.queue[..|s.queue| - 1] && s'.timers == s.timers && s'.dead == s.dead
            && s'.deleted == s.deleted + [s.queue[|s.queue| - 1].id] && s'.keys == s.keys
  {
  }

  /** A failure deletes nothing: from the sixth on the key goes to the dead-letter list,
      and before that it waits 20, 40, 80, 160 or 320 seconds with its next attempt. */
  lemma FailureExactly(s: State)
    requires s.queue != []
    requires 0 <= ParseRetry(s.queue[|s.queue| - 1].payload).1 < MAX_INT
    ensures var s' := Apply(s, Process(false));
            var m := s.queue[|s.queue| - 1];
            var (key, a) := ParseRetry(m.payload);
            && s'.queue == s.queue[..|s.queue| - 1] && s'.deleted == s.deleted && s'.keys == s.keys
            && if a < 5 then
                 && s'.dead == s.dead
                 && s'.timers == s.timers + [Timer(m.id, key, a + 1, [20, 40, 80, 160, 320][a] * SECOND)]
               else s'.timers == s.timers && s'.dead == [Dead(m.id, key)] + s.dead
  {
    var m := s.queue[|s.queue| - 1];
    var (key, a) := ParseRetry(m.payload);
    var popped := s.(queue := s.queue[..|s.queue| - 1]);
    FailedExactly(popped, m.id, key, a);
  }

  lemma FailedExactly(s: State, id: nat, key: string, a: int)
    requires 0 <= a < MAX_INT
    ensures var s' := Settle(s, id, key, a, false);
            && s'.queue == s.queue && s'.deleted == s.deleted && s'.keys == s.keys
            && if a < 5 then
                 && s'.dead == s.dead
                 && s'.timers == s.timers + [Timer(id, key, a + 1, [20, 40, 80, 160, 320][a] * SECOND)]
               else s'.timers == s.timers && s'.dead == [Dead(id, key)] + s.dead
  {
    if a < 5 { BackoffTable(a); }
  }

  lemma BackoffTable(a: int)
    requires 0 <= a < 5
    ensures RetryBackoff(a + 1) == [20, 40, 80, 160, 320][a] * SECOND
  {
    BackoffUpTo29(a + 1);
    assert Pow2(2) == 4 && Pow2(3) == 8 && Pow2(4) == 16 && Pow2(5) == 32;
  }

  /** A timer puts its own key and attempt back at the head of the queue. */
  lemma FireExactly(s: State, i: nat)
    requires i < |s.timers|
    ensures var s' := Apply(s, Fire(i)); var t := s.timers[i];
            && s'.queue == [Msg(t.id, t.key + "|" + Itoa(t.attempt))] + s.queue
            && s'.timers == s.timers[..i] + s.timers[i + 1..]
            && s'.deleted == s.deleted && s'.dead == s.dead && s'.keys == s.keys
  {
  }

  // ---- Over whole runs ----

  /** Step i of the run asks the object store for this message, with this answer. */
  predicate Processed(es: seq<Event>, i: nat, id: nat, ok: bool)
    requires i < |es|
  {
    var q := Run(es[..i]).queue;
    es[i] == Process(ok) && q != [] && q[|q| - 1].id == id
  }

  /** How often the object store gave this answer for the message. */
  function Answers(es: seq<Event>, id: nat, ok: bool): nat {
    if es == [] then 0
    else Answers(es[..|es| - 1], id, ok) + if Processed(es, |es| - 1, id, ok) then 1 else 0
  }

  lemma SettledBooks(s: State, settled: nat, key: string, a: int, ok: bool, id: nat)
    ensures var s' := Settle(s, settled, key, a, ok);
            && TriesOf(s', id) == TriesOf(s, id) + (if settled == id then 1 else 0)
            && Count(s'.deleted, Self, id) == Count(s.deleted, Self, id) + if ok && settled == id then 1 else 0
  {
    CountConcat(s.deleted, [settled], Self, id);
  }

  lemma {:induction false} AnswersCounted(es: seq<Event>, id: nat)
    ensures TriesOf(Run(es), id) == Answers(es, id, true) + Answers(es, id, false)
    ensures Count(Run(es).deleted, Self, id) == Answers(es, id, true)
  {
    if es != [] {
      var s := Run(es[..|es| - 1]);
      var e := es[|es| - 1];
      AnswersCounted(es[..|es| - 1], id);
      if e.Process? && s.queue != [] {
        var m := s.queue[|s.queue| - 1];
        var popped := s.(queue := s.queue[..|s.queue| - 1]);
        SettledBooks(popped, m.id, ParseRetry(m.payload).0, ParseRetry(m.payload).1, e.ok, id);
      } else {
        OtherStepsKeepBooks(s, e, id);
      }
    }
  }

  lemma OtherStepsKeepBooks(s: State, e: Event, id: nat)
    requires e.Process? ==> s.queue == []
    ensures TriesOf(Apply(s, e), id) == TriesOf(s, id) && Apply(s, e).deleted == s.deleted
  {
  }

  lemma ProcessedBefore(es: seq<Event>, n: nat, i: nat, id: nat, ok: bool)
    requires i < n <= |es|
    ensures Processed(es[..n], i, id, ok) == Processed(es, i, id, ok)
  {
    assert es[..n][..i] == es[..i];
  }

  ghost predicate Once(es: seq<Event>, id: nat, ok: bool) {
    exists i: nat :: i < |es| && Processed(es, i, id, ok)
  }

  lemma OnceMore(es: seq<Event>, id: nat, ok: bool)
    requires es != []
    ensures Once(es, id, ok) <==> Once(es[..|es| - 1], id, ok) || Processed(es, |es| - 1, id, ok)
  {
    var last := |es| - 1;
    if Once(es[..last], id, ok) {
      var i: nat :| i < last && Processed(es[..last], i, id, ok);
      ProcessedBefore(es, last, i, id, ok);
    }
    if Once(es, id, ok) {
      var i: nat :| i < |es| && Processed(es, i, id, ok);
      if i < last { ProcessedBefore(es, last, i, id, ok); }
    }
  }

  lemma {:induction false} AnswersIff(es: seq<Event>, id: nat, ok: bool)
    ensures Answers(es, id, ok) > 0 <==> Once(es, id, ok)
  {
    if es != [] {
      AnswersIff(es[..|es| - 1], id, ok);
      OnceMore(es, id, ok);
    }
  }

  /** A message counts as deleted exactly when the object store once deleted its object. */
  lemma DeletedIffSucceeded(es: seq<Event>, id: nat)
    ensures id in Run(es).deleted <==> exists i: nat :: i < |es| && Processed(es, i, id, true)
  {
    AnswersCounted(es, id);
    AnswersIff(es, id, true);
    CountZero(Run(es).deleted, Self, id);
  }

  /** The message is on the dead-letter list. */
  predicate GivenUpOn(s: State, id: nat) { exists d :: d in s.dead && d.id == id }

  /** A message is given up exactly when the object store has failed it six times; it has
      then never succeeded, and it succeeds at most once in any case. */
  lemma DeadIffSixFailures(es: seq<Event>, id: nat)
    ensures GivenUpOn(Run(es), id) <==> Answers(es, id, false) == MAX_ATTEMPTS
    ensures GivenUpOn(Run(es), id) ==> Answers(es, id, true) == 0
    ensures Answers(es, id, true) <= 1 && Answers(es, id, false) <= MAX_ATTEMPTS
  {
    var s := Run(es);
    AnswersCounted(es, id);
    ExactlyOnePlace(es, id);
    RunsStayInBudget(es);
    RunsAreBudgeted(es);
    CountZero(s.dead, DeadId, id);
    if GivenUpOn(s, id) {
      var d :| d in s.dead && d.id == id;
      assert DeadOk(s, d);
    } else if Answers(es, id, false) == MAX_ATTEMPTS {
      LiveIsShort(s, id);
      assert false;
    }
  }

  /** A message that is neither deleted nor given up has been tried less than six times. */
  lemma LiveIsShort(s: State, id: nat)
    requires Budgeted(s) && Places(s, id) <= 1 && TriesOf(s, id) > 0
    requires Places(s, id) == (if id < |s.keys| then 1 else 0)
    requires Count(s.deleted, Self, id) == 0 && Count(s.dead, DeadId, id) == 0
    ensures TriesOf(s, id) < MAX_ATTEMPTS
  {
    CountZero(s.queue, MsgId, id);
    CountZero(s.timers, TimerId, id);
    if m :| m in s.queue && m.id == id {
      assert QueuedOk(s, m);
    } else if t :| t in s.timers && t.id == id {
      assert TimerOk(s, t);
    }
  }
}

/** What the budget rests on: any text can be pushed onto the delete queue by hand, with
    any attempt number behind a bar. */
module RawMessages {
  import opened Arithmetic
  import opened Decimal
  import opened RetryTag
  import opened DeleteRetry

  function RunFrom(s: State, es: seq<Event>): State {
    if es == [] then s else Apply(RunFrom(s, es[..|es| - 1]), es[|es| - 1])
  }

  /** The attempt number that a payload is read with. */
  function StartOf(payload: string): int { ParseRetry(payload).1 }

  /** The state holds this message in its queue and nowhere else, not yet tried. */
  predicate Queued(s: State, id: nat, payload: string) {
    && id < |s.keys| && Msg(id, payload) in s.queue && Places(s, id) == 1 && id !in s.tries
  }

  // ---- From 0 to MAX_INT - 1: never more than six attempts ----

  /** What holds of a message that started at n in every state after. */
  predicate QueuedOn(s: State, m: Msg, n: int) {
    var a := StartOf(m.payload);
    a == n + TriesOf(s, m.id) && (TriesOf(s, m.id) == 0 || a < MAX_ATTEMPTS)
  }

  predicate WaitingOn(s: State, t: Timer, n: int) {
    t.attempt == n + TriesOf(s, t.id) && 1 <= t.attempt < MAX_ATTEMPTS && TriesOf(s, t.id) >= 1
  }

  ghost predicate OnTrack(s: State, id: nat, n: int) {
    && id < |s.keys| && Places(s, id) == 1 && TriesOf(s, id) <= MAX_ATTEMPTS
    && (forall m :: m in s.queue && m.id == id ==> QueuedOn(s, m, n))
    && (forall t :: t in s.timers && t.id == id ==> WaitingOn(s, t, n))
  }

  lemma SubmitOnTrack(s: State, tenant: string, instance: string, file: string, id: nat, n: int)
    requires OnTrack(s, id, n)
    ensures OnTrack(Apply(s, Submit(tenant, instance, file)), id, n)
  {
    var s' := Apply(s, Submit(tenant, instance, file));
    CountConcat([s'.queue[0]], s.queue, MsgId, id);
    forall m | m in s'.queue && m.id == id ensures QueuedOn(s', m, n) { assert m in s.queue; }
    forall t | t in s'.timers && t.id == id ensures WaitingOn(s', t, n) { assert WaitingOn(s, t, n); }
  }

  lemma FireOnTrack(s: State, i: nat, id: nat, n: int)
    requires OnTrack(s, id, n) && i < |s.timers|
    ensures OnTrack(Apply(s, Fire(i)), id, n)
  {
    var t := s.timers[i];
    var s' := Requeue(s, i, Tagged(t.key, t.attempt));
    PlacesAfterFire(s, i, id);
    if t.id == id {
      assert WaitingOn(s, t, n);
      TagRoundTrip(t.key, t.attempt);
    }
    RequeueOnTrack(s, i, Tagged(t.key, t.attempt), id, n);
  }

  lemma RequeueOnTrack(s: State, i: nat, payload: string, id: nat, n: int)
    requires OnTrack(s, id, n) && i < |s.timers| && Places(Requeue(s, i, payload), id) == 1
    requires s.timers[i].id == id ==> QueuedOn(s, Msg(id, payload), n)
    ensures OnTrack(Requeue(s, i, payload), id, n)
  {
    var s' := Requeue(s, i, payload);
    forall m | m in s'.queue && m.id == id ensures QueuedOn(s', m, n) {
      if m in s.queue { assert QueuedOn(s, m, n); }
    }
    forall u | u in s'.timers && u.id == id ensures WaitingOn(s', u, n) { assert WaitingOn(s, u, n); }
  }

  /** Another message is handled: nothing about this one changes. */
  lemma OtherOnTrack(s: State, other: nat, key: string, a: int, ok: bool, id: nat, n: int)
    requires OnTrack(s, id, n) && other != id
    ensures var s' := Settle(s, other, key, a, ok);
            && (forall m :: m in s'.queue && m.id == id ==> QueuedOn(s', m, n))
            && (forall t :: t in s'.timers && t.id == id ==> WaitingOn(s', t, n))
            && TriesOf(s', id) == TriesOf(s, id) && s'.keys == s.keys
  {
    var s' := Settle(s, other, key, a, ok);
    forall m | m in s'.queue && m.id == id ensures QueuedOn(s', m, n) { assert QueuedOn(s, m, n); }
    forall t | t in s'.timers && t.id == id ensures WaitingOn(s', t, n) { assert WaitingOn(s, t, n); }
  }

  lemma WrapInRange(a: int)
    requires MIN_INT <= a < MAX_INT
    ensures Wrap64(a + 1) == a + 1
  {
  }

  /** This message is handled, and it was the only one of its identity. */
  lemma OwnOnTrack(s: State, key: string, a: int, ok: bool, id: nat, n: int)
    requires 0 <= n < MAX_INT && NoneFor(s, id)
    requires a == n + TriesOf(s, id) && (TriesOf(s, id) == 0 || a < MAX_ATTEMPTS)
    ensures var s' := Settle(s, id, key, a, ok);
            && (forall m :: m in s'.queue && m.id == id ==> QueuedOn(s', m, n))
            && (forall t :: t in s'.timers && t.id == id ==> WaitingOn(s', t, n))
            && TriesOf(s', id) <= MAX_ATTEMPTS && s'.keys == s.keys
  {
    WrapInRange(a);
  }

  lemma ProcessOnTrack(s: State, ok: bool, id: nat, n: int)
    requires 0 <= n < MAX_INT && OnTrack(s, id, n) && s.queue != []
    ensures OnTrack(Apply(s, Process(ok)), id, n)
  {
    var last := |s.queue| - 1;
    var m := s.queue[last];
    var popped := s.(queue := s.queue[..last]);
    PlacesAfterProcess(s, ok, id);
    if m.id == id {
      assert QueuedOn(s, m, n);
      PoppedIsAlone(s);
      OwnOnTrack(popped, ParseRetry(m.payload).0, StartOf(m.payload), ok, id, n);
    } else {
      OtherPopped(s, id, n);
      OtherOnTrack(popped, m.id, ParseRetry(m.payload).0, StartOf(m.payload), ok, id, n);
    }
  }

  lemma OtherPopped(s: State, id: nat, n: int)
    requires OnTrack(s, id, n) && s.queue != [] && s.queue[|s.queue| - 1].id != id
    ensures OnTrack(s.(queue := s.queue[..|s.queue| - 1]), id, n)
  {
    var last := |s.queue| - 1;
    var popped := s.(queue := s.queue[..last]);
    assert s.queue == s.queue[..last] + [s.queue[last]];
    CountConcat(s.queue[..last], [s.queue[last]], MsgId, id);
    forall m | m in popped.queue && m.id == id ensures QueuedOn(popped, m, n) { assert QueuedOn(s, m, n); }
    forall t | t in popped.timers && t.id == id ensures WaitingOn(popped, t, n) { assert WaitingOn(s, t, n); }
  }

  lemma {:induction false} StaysOnTrack(s: State, es: seq<Event>, id: nat, n: int)
    requires 0 <= n < MAX_INT && OnTrack(s, id, n)
    ensures OnTrack(RunFrom(s, es), id, n)
  {
    if es != [] {
      var before := RunFrom(s, es[..|es| - 1]);
      StaysOnTrack(s, es[..|es| - 1], id, n);
      match es[|es| - 1]
      case Submit(tenant, instance, file) => SubmitOnTrack(before, tenant, instance, file, id, n);
      case Process(ok) => if before.queue != [] { ProcessOnTrack(before, ok, id, n); }
      case Fire(i) => if i < |before.timers| { FireOnTrack(before, i, id, n); }
    }
  }

  lemma QueuedIsOnTrack(s: State, id: nat, payload: string)
    requires Queued(s, id, payload)
    ensures OnTrack(s, id, StartOf(payload))
  {
    var m := Msg(id, payload);
    var i :| 0 <= i < |s.queue| && s.queue[i] == m;
    assert s.queue == s.queue[..i] + ([m] + s.queue[i + 1..]);
    CountConcat(s.queue[..i], [m] + s.queue[i + 1..], MsgId, id);
    CountConcat([m], s.queue[i + 1..], MsgId, id);
    CountZero(s.queue[..i], MsgId, id);
    CountZero(s.queue[i + 1..], MsgId, id);
    CountZero(s.timers, TimerId, id);
  }

  // ---- Below zero, and at MAX_INT: a seventh attempt ----

  /** A worker that fails every message and lets its timers run out. */
  predicate Failing(es: seq<Event>) { forall i :: 0 <= i < |es| ==> es[i] == Process(false) || es[i] == Fire(0) }

  /** The only message there is, tagged with attempt a and tried k times. */
  predicate Lone(s: State, id: nat, key: string, a: int, k: nat) {
    s.queue == [Msg(id, Tagged(key, a))] && s.timers == [] && TriesOf(s, id) == k
  }

  /** A failure and the end of its timer. */
  lemma OneRound(s: State, m: Msg)
    requires s.queue == [m] && s.timers == [] && Wrap64(StartOf(m.payload) + 1) < MAX_ATTEMPTS
    ensures Lone(Apply(Apply(s, Process(false)), Fire(0)), m.id, ParseRetry(m.payload).0,
                 Wrap64(StartOf(m.payload) + 1), TriesOf(s, m.id) + 1)
  {
    var key := ParseRetry(m.payload).0;
    var next := Wrap64(StartOf(m.payload) + 1);
    var s1 := Apply(s, Process(false));
    assert s1.queue == [] && s1.timers == [Timer(m.id, key, next, RetryBackoff(next))];
    assert Apply(s1, Fire(0)).queue == [Msg(m.id, Tagged(key, next))];
  }

  lemma NextRound(s: State, id: nat, key: string, a: int, k: nat)
    requires Lone(s, id, key, a, k) && MIN_INT <= a && a + 1 < MAX_ATTEMPTS
    ensures Lone(Apply(Apply(s, Process(false)), Fire(0)), id, key, a + 1, k + 1)
  {
    TagRoundTrip(key, a);
    WrapInRange(a);
    OneRound(s, s.queue[0]);
  }

  /** After this run the message stands alone. */
  predicate Stays(s: State, es: seq<Event>, id: nat, key: string, a: int, k: nat) {
    Failing(es) && Lone(RunFrom(s, es), id, key, a, k)
  }

  lemma OneMoreRound(s: State, es: seq<Event>, id: nat, key: string, a: int, k: nat) returns (more: seq<Event>)
    requires Stays(s, es, id, key, a, k) && MIN_INT <= a && a + 1 < MAX_ATTEMPTS
    ensures Stays(s, more, id, key, a + 1, k + 1)
  {
    more := es + [Process(false)] + [Fire(0)];
    NextRound(RunFrom(s, es), id, key, a, k);
    OneMore(s, es, Process(false));
    OneMore(s, es + [Process(false)], Fire(0));
  }

  /** n more failures that do not reach the sixth attempt. */
  lemma {:induction false} MoreRounds(s: State, es: seq<Event>, id: nat, key: string, a: int, k: nat, n: nat)
      returns (more: seq<Event>)
    requires Stays(s, es, id, key, a, k) && MIN_INT <= a && a + n < MAX_ATTEMPTS
    ensures Stays(s, more, id, key, a + n, k + n)
  {
    more := es;
    if n > 0 {
      more := MoreRounds(s, es, id, key, a, k, n - 1);
      more := OneMoreRound(s, more, id, key, a + n - 1, k + n - 1);
    }
  }

  lemma OneMore(s: State, es: seq<Event>, e: Event)
    ensures RunFrom(s, es + [e]) == Apply(RunFrom(s, es), e)
  {
    assert (es + [e])[..|es|] == es;
  }

  lemma StartInRange(payload: string)
    ensures MIN_INT <= StartOf(payload) <= MAX_INT
  {
  }

  function Alone(payload: string): State { State([Msg(0, payload)], [], [], [], [payload], map[], map[]) }

  lemma AloneIsQueued(payload: string)
    ensures Queued(Alone(payload), 0, payload)
  {
    var s := Alone(payload);
    assert s.queue[1..] == [];
    CountZero(s.queue[1..], MsgId, 0);
    CountZero(s.timers, TimerId, 0);
    CountZero(s.deleted, Self, 0);
    CountZero(s.dead, DeadId, 0);
  }

  /** The only message there is, as it was pushed and not yet tried. */
  predicate Pushed(s: State, id: nat, payload: string) {
    s.queue == [Msg(id, payload)] && s.timers == [] && TriesOf(s, id) == 0
  }

  /** The first round leaves a tag that counts on from the number read. */
  lemma FirstRound(s: State, id: nat, payload: string, key: string, next: int) returns (es: seq<Event>)
    requires Pushed(s, id, payload) && key == ParseRetry(payload).0 && next == Wrap64(StartOf(payload) + 1)
    requires next < MAX_ATTEMPTS
    ensures Stays(s, es, id, key, next, 1)
  {
    es := [] + [Process(false)] + [Fire(0)];
    OneRound(s, Msg(id, payload));
    OneMore(s, [], Process(false));
    OneMore(s, [] + [Process(false)], Fire(0));
  }

  lemma OneMoreTry(s: State, es: seq<Event>, id: nat, key: string, a: int, k: nat) returns (more: seq<Event>)
    requires Stays(s, es, id, key, a, k)
    ensures TriesOf(RunFrom(s, more), id) == k + 1
  {
    more := es + [Process(false)];
    OneMore(s, es, Process(false));
    FailureCounts(RunFrom(s, es));
  }

  lemma FailureCounts(s: State)
    requires s.queue != []
    ensures var id := s.queue[|s.queue| - 1].id; TriesOf(Apply(s, Process(false)), id) == TriesOf(s, id) + 1
  {
  }

  lemma SixMoreTries(s: State, first: seq<Event>, id: nat, key: string, a: int) returns (es: seq<Event>)
    requires Stays(s, first, id, key, a, 1) && MIN_INT <= a <= 0
    ensures TriesOf(RunFrom(s, es), id) == 7
  {
    es := MoreRounds(s, first, id, key, a, 1, 5);
    es := OneMoreTry(s, es, id, key, a + 5, 6);
  }

  lemma WrapOutside(n: int)
    requires MIN_INT <= n < 0 || n == MAX_INT
    ensures MIN_INT <= Wrap64(n + 1) <= 0
  {
  }

  lemma SeventhAttempt(s: State, id: nat, payload: string) returns (es: seq<Event>)
    requires Pushed(s, id, payload) && (StartOf(payload) < 0 || StartOf(payload) == MAX_INT)
    ensures TriesOf(RunFrom(s, es), id) == 7
  {
    var key, next := ParseRetry(payload).0, Wrap64(StartOf(payload) + 1);
    StartInRange(payload);
    WrapOutside(StartOf(payload));
    es := SevenTries(s, id, payload, key, next);
  }

  lemma SevenTries(s: State, id: nat, payload: string, key: string, next: int) returns (es: seq<Event>)
    requires Pushed(s, id, payload) && key == ParseRetry(payload).0 && next == Wrap64(StartOf(payload) + 1)
    requires MIN_INT <= next <= 0
    ensures TriesOf(RunFrom(s, es), id) == 7
  {
    var first := FirstRound(s, id, payload, key, next);
    es := SixMoreTries(s, first, id, key, next);
  }

  // ---- The exact condition ----

  ghost predicate SixAtMost(payload: string) {
    forall s, id, es :: Queued(s, id, payload) ==> TriesOf(RunFrom(s, es), id) <= MAX_ATTEMPTS
  }

  /** A message pushed by hand is tried at most six times, in every state and every
      run, exactly when it is read with an attempt number of at least 0 and below the
      largest int, where counting up wraps around. */
  lemma SixAtMostIff(payload: string)
    ensures SixAtMost(payload) <==> 0 <= StartOf(payload) < MAX_INT
  {
    StartInRange(payload);
    if 0 <= StartOf(payload) < MAX_INT {
      forall s, id, es | Queued(s, id, payload) ensures TriesOf(RunFrom(s, es), id) <= MAX_ATTEMPTS {
        QueuedIsOnTrack(s, id, payload);
        StaysOnTrack(s, es, id, StartOf(payload));
      }
    } else {
      AloneIsQueued(payload);
      var es := SeventhAttempt(Alone(payload), 0, payload);
      assert TriesOf(RunFrom(Alone(payload), es), 0) > MAX_ATTEMPTS;
    }
  }

  lemma LastFailure(s: State, m: Msg)
    requires s.queue == [m] && s.timers == [] && StartOf(m.payload) == MAX_ATTEMPTS - 1
    ensures GivenUp(Apply(s, Process(false)), m.id, TriesOf(s, m.id) + 1)
  {
    var popped := s.(queue := s.queue[..0]);
    assert Apply(s, Process(false)) == Settle(popped, m.id, ParseRetry(m.payload).0, MAX_ATTEMPTS - 1, false);
    SettledDead(popped, m.id, ParseRetry(m.payload).0);
  }

  lemma SettledDead(s: State, id: nat, key: string)
    requires s.queue == [] && s.timers == []
    ensures GivenUp(Settle(s, id, key, MAX_ATTEMPTS - 1, false), id, TriesOf(s, id) + 1)
  {
    WrapInRange(MAX_ATTEMPTS - 1);
  }

  /** The message is on the dead-letter list and nowhere else, after n tries. */
  predicate GivenUp(s: State, id: nat, n: int) {
    s.queue == [] && s.timers == [] && s.dead != [] && s.dead[0].id == id && TriesOf(s, id) == n
  }

  lemma OneLastFailure(s: State, es: seq<Event>, id: nat, key: string, k: nat) returns (more: seq<Event>)
    requires Stays(s, es, id, key, MAX_ATTEMPTS - 1, k)
    ensures Failing(more) && GivenUp(RunFrom(s, more), id, k + 1)
  {
    more := es + [Process(false)];
    TagRoundTrip(key, MAX_ATTEMPTS - 1);
    LastFailure(RunFrom(s, es), Msg(id, Tagged(key, MAX_ATTEMPTS - 1)));
    OneMore(s, es, Process(false));
  }

  lemma FiveIsGivenUp(s: State, id: nat, payload: string) returns (es: seq<Event>)
    requires Pushed(s, id, payload) && StartOf(payload) == MAX_ATTEMPTS - 1
    ensures Failing(es) && GivenUp(RunFrom(s, es), id, 1)
  {
    es := [] + [Process(false)];
    LastFailure(s, Msg(id, payload));
    OneMore(s, [], Process(false));
  }

  /** A message read with an attempt below six that always fails is given up at its
      failure number six less that attempt. */
  lemma GivenUpAtFailure(s: State, id: nat, payload: string) returns (es: seq<Event>)
    requires Pushed(s, id, payload) && StartOf(payload) < MAX_ATTEMPTS
    ensures Failing(es) && GivenUp(RunFrom(s, es), id, MAX_ATTEMPTS - StartOf(payload))
  {
    StartInRange(payload);
    if StartOf(payload) == MAX_ATTEMPTS - 1 {
      es := FiveIsGivenUp(s, id, payload);
    } else {
      WrapInRange(StartOf(payload));
      es := ManyFailures(s, id, payload, ParseRetry(payload).0, StartOf(payload) + 1);
    }
  }

  lemma ManyFailures(s: State, id: nat, payload: string, key: string, next: int) returns (es: seq<Event>)
    requires Pushed(s, id, payload) && key == ParseRetry(payload).0 && next == Wrap64(StartOf(payload) + 1)
    requires MIN_INT <= next < MAX_ATTEMPTS
    ensures Failing(es) && GivenUp(RunFrom(s, es), id, MAX_ATTEMPTS + 1 - next)
  {
    var first := FirstRound(s, id, payload, key, next);
    es := RestOfRounds(s, first, id, key, next);
  }

  lemma RestOfRounds(s: State, first: seq<Event>, id: nat, key: string, a: int) returns (es: seq<Event>)
    requires Stays(s, first, id, key, a, 1) && MIN_INT <= a < MAX_ATTEMPTS
    ensures Failing(es) && GivenUp(RunFrom(s, es), id, MAX_ATTEMPTS + 1 - a)
  {
    es := MoreRounds(s, first, id, key, a, 1, MAX_ATTEMPTS - 1 - a);
    es := OneLastFailure(s, es, id, key, MAX_ATTEMPTS - a);
  }
}
