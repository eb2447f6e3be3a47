// Cloud files: upload, completion, scanning, expiry, deletion and purge, together
// with the tenant storage ledger and the scan queue. Every handler or job is one
// atomic step; no database or Redis statement fails.

module ObjectKeys {

  function StorageKey(tenant: string, instance: string, file: string): string {
    tenant + "/" + instance + "/" + file + "/original"
  }
}

module FileTypes {
  import opened Arithmetic
  import opened Expiries
  import opened ObjectKeys
  import opened Splitting

  datatype Status = Uploading | Uploaded | Scanning | Ready | Rejected | Expired | Deleted

  datatype File = File(tenant: string, status: Status, size: nat, mime: string, key: string, expiry: Expiry)

  /** deleteLog is every key handed to the "delete" queue so far; issued is every
      file id ever generated. */
  datatype State = State(
    files: map<string, File>,
    used: map<string, int>,
    limit: map<string, nat>,
    scanQueue: seq<string>,    // pushed at the head, popped at the tail
    deleteLog: seq<string>,
    issued: set<string>)

  const ALLOWED: set<string> := {
    "application/pdf", "image/png", "image/jpeg", "image/webp", "image/gif",
    "text/plain", "text/markdown", "application/json", "text/csv", "text/html"}

  /** sniffConsistent on a declared type from the allowlist. */
  predicate SniffConsistent(declared: string, sniffed: string) {
    if declared == "application/pdf" then sniffed == "application/pdf"
    else if HasPrefix(declared, "image/") then HasPrefix(sniffed, "image/")
    else if declared == "text/html" then sniffed == "text/html" || sniffed == "text/plain"
    else if HasPrefix(declared, "text/") || declared == "application/json" then HasPrefix(sniffed, "text/")
    else false
  }

  /** What the object store says about an upload at completion. */
  datatype Stored = StorageOff(claimed: int) | Missing | WrongEtag | Object(size: nat)

  /** What sniffing the object's first bytes gives: storage disabled, a read error, or a type. */
  datatype Sniff = NoStorage | ReadError | Sniffed(mime: string)

  datatype Response = Done | QuotaExceeded | Unsupported | BadRequest | NotFound | Conflict | Unavailable

  /** AddStorageUsed: GREATEST(0, used + delta) on an existing quota row. */
  function AddUsed(used: map<string, int>, tenant: string, delta: int): map<string, int> {
    if tenant in used then used[tenant := Clamp0(used[tenant] + delta)] else used
  }

  /** Giving a file's bytes back to its tenant. */
  function Release(used: map<string, int>, f: File): map<string, int> { AddUsed(used, f.tenant, 0 - f.size) }

  function SetStatus(s: State, id: string, status: Status): State
    requires id in s.files
  {
    s.(files := s.files[id := s.files[id].(status := status)])
  }

  // ---- The steps ----

  predicate OverQuota(s: State, tenant: string, size: int) {
    tenant in s.used && tenant in s.limit && s.used[tenant] + size > s.limit[tenant]
  }

  function Upload(s: State, tenant: string, instance: string, id: string, size: nat, mime: string,
                  expiry: Expiry, putOk: bool): (State, Response)
  {
    if mime !in ALLOWED then (s, Unsupported)
    else if OverQuota(s, tenant, size) then (s, QuotaExceeded)
    else
      var key := StorageKey(tenant, instance, id);
      var s1 := s.(files := s.files[id := File(tenant, Uploaded, size, mime, key, expiry)], issued := s.issued + {id});
      if !putOk then (s1, Unavailable)
      else
        (SetStatus(s1, id, Scanning).(used := AddUsed(s1.used, tenant, size), scanQueue := [id] + s1.scanQueue), Done)
  }

  function Presign(s: State, tenant: string, instance: string, id: string, size: int, mime: string,
                   expiry: Expiry): (State, Response)
  {
    if size <= 0 then (s, BadRequest)
    else if mime !in ALLOWED then (s, Unsupported)
    else if (tenant in s.limit && size > s.limit[tenant]) || OverQuota(s, tenant, size) then (s, QuotaExceeded)
    else
      var f := File(tenant, Uploading, size, mime, StorageKey(tenant, instance, id), expiry);
      (s.(files := s.files[id := f], issued := s.issued + {id}), Done)
  }

  function Complete(s: State, tenant: string, id: string, obj: Stored): (State, Response) {
    if id !in s.files || s.files[id].tenant != tenant then (s, NotFound)
    else if s.files[id].status != Uploading then (s, Conflict)
    else if obj.Missing? || obj.WrongEtag? then (s, Conflict)
    else
      var f := s.files[id];
      var size := match obj
                  case StorageOff(claimed) => if claimed <= 0 then f.size else claimed
                  case Object(actual) => actual
                  case _ => 0;
      if OverQuota(s, tenant, size) then
        (SetStatus(s, id, Rejected).(deleteLog := if f.key != "" then [f.key] + s.deleteLog else s.deleteLog),
         QuotaExceeded)
      else
        (s.(files := s.files[id := f.(status := Scanning, size := size)],
            used := AddUsed(s.used, tenant, size),
            scanQueue := [id] + s.scanQueue), Done)
  }

  function Delete(s: State, tenant: string, id: string): (State, Response) {
    if id !in s.files || s.files[id].tenant != tenant then (s, NotFound)
    else
      var f := s.files[id];
      (SetStatus(s, id, Deleted).(used := Release(s.used, f), deleteLog := [f.key] + s.deleteLog), Done)
  }

  function Reject(s: State, id: string): State
    requires id in s.files
  {
    var f := s.files[id];
    var s1 := SetStatus(s, id, Rejected);
    if f.key == "" then s1
    else s1.(used := Release(s1.used, f), deleteLog := [f.key] + s1.deleteLog)
  }

  /** The verdict on a file's type and bytes. */
  datatype Verdict = Pass | Fail | Retry

  function Judge(f: File, sniff: Sniff): Verdict {
    if f.mime !in ALLOWED then Fail
    else if f.key == "" then Pass
    else
      match sniff
      case NoStorage => Pass
      case ReadError => Retry
      case Sniffed(mime) => if SniffConsistent(f.mime, mime) then Pass else Fail
  }

  /** handleScan on the message at the tail of the queue. */
  function Scan(s: State, sniff: Sniff): State {
    if s.scanQueue == [] then s
    else
      var last := |s.scanQueue| - 1;
      var id := s.scanQueue[last];
      var s1 := s.(scanQueue := s.scanQueue[..last]);
      if id !in s.files || s.files[id].status.Deleted? || s.files[id].status.Expired? then s1
      else
        match Judge(s.files[id], sniff)
        case Fail => Reject(s1, id)
        case Retry => s1.(scanQueue := [id] + s1.scanQueue)
        case Pass => SetStatus(s1, id, Ready)
  }

  predicate Terminal(st: Status) { st.Rejected? || st.Expired? || st.Deleted? }

  predicate Due(f: File, now: int) { f.expiry.Expires? && f.expiry.at <= now && !Terminal(f.status) }

  /** order lists the rows of the sweep's SELECT, in whatever order it returns them. */
  predicate DueRows(s: State, now: int, order: seq<string>) {
    && (forall i, j :: 0 <= i < j < |order| ==> order[i] != order[j])
    && (forall id :: id in order ==> id in s.files && Due(s.files[id], now))
    && (forall id :: id in s.files && Due(s.files[id], now) ==> id in order)
  }

  function ExpireRows(files: map<string, File>, order: seq<string>): map<string, File> {
    map id | id in files :: if id in order then files[id].(status := Expired) else files[id]
  }

  function ReleaseRows(files: map<string, File>, used: map<string, int>, order: seq<string>): map<string, int>
    requires forall id :: id in order ==> id in files
  {
    if order == [] then used
    else
      var f := files[order[|order| - 1]];
      Release(ReleaseRows(files, used, order[..|order| - 1]), f)
  }

  function QueueRows(files: map<string, File>, log: seq<string>, order: seq<string>): seq<string>
    requires forall id :: id in order ==> id in files
  {
    if order == [] then log
    else
      var f := files[order[|order| - 1]];
      var rest := QueueRows(files, log, order[..|order| - 1]);
      if f.key != "" then [f.key] + rest else rest
  }

  function Sweep(s: State, now: int, order: seq<string>): State {
    if !DueRows(s, now, order) then s
    else s.(files := ExpireRows(s.files, order),
            used := ReleaseRows(s.files, s.used, order),
            deleteLog := QueueRows(s.files, s.deleteLog, order))
  }

  /** keys are the storage keys of a tenant's rows. */
  predicate KeysOf(files: map<string, File>, tenant: string, keys: seq<string>) {
    && (forall id :: id in files && files[id].tenant == tenant && files[id].key != "" ==> files[id].key in keys)
    && (forall k :: k in keys ==> exists id :: id in files && files[id].tenant == tenant && files[id].key == k)
  }

  /** PurgeTenantData, and the caller's enqueueing of the purged keys. */
  function Purge(s: State, tenant: string, keys: seq<string>): State {
    s.(files := map id | id in s.files && s.files[id].tenant != tenant :: s.files[id],
       used := if tenant in s.used then s.used[tenant := 0] else s.used,
       deleteLog := keys + s.deleteLog)
  }

  datatype Event =
    | DoUpload(tenant: string, instance: string, id: string, size: nat, mime: string, expiry: Expiry, putOk: bool)
    | DoPresign(tenant: string, instance: string, id: string, bytes: int, mime: string, expiry: Expiry)
    | DoComplete(tenant: string, id: string, obj: Stored)
    | DoDelete(tenant: string, id: string)
    | DoScan(sniff: Sniff)
    | DoSweep(now: int, order: seq<string>)
    | DoPurge(tenant: string, keys: seq<string>)

  /** File ids are fresh, uploads come from tenants that have a quota row, and a purge
      collects the keys of the rows it deletes. */
  predicate Allowed(s: State, e: Event) {
    match e
    case DoUpload(tenant, _, id, _, _, _, _) => id !in s.issued && tenant in s.used
    case DoPresign(tenant, _, id, _, _, _) => id !in s.issued && tenant in s.used
    case DoPurge(tenant, keys) => KeysOf(s.files, tenant, keys)
    case _ => true
  }

  function Apply(s: State, e: Event): State {
    if !Allowed(s, e) then s else
    match e
    case DoUpload(tenant, instance, id, size, mime, expiry, putOk) =>
      Upload(s, tenant, instance, id, size, mime, expiry, putOk).0
    case DoPresign(tenant, instance, id, bytes, mime, expiry) =>
      Presign(s, tenant, instance, id, bytes, mime, expiry).0
    case DoComplete(tenant, id, obj) => Complete(s, tenant, id, obj).0
    case DoDelete(tenant, id) => Delete(s, tenant, id).0
    case DoScan(sniff) => Scan(s, sniff)
    case DoSweep(now, order) => Sweep(s, now, order)
    case DoPurge(tenant, keys) => Purge(s, tenant, keys)
  }

  function RunFrom(s: State, es: seq<Event>): State {
    if es == [] then s else Apply(RunFrom(s, es[..|es| - 1]), es[|es| - 1])
  }

  /** Tenants with their storage limits, no file yet. */
  function Init(limit: map<string, nat>): State {
    State(map[], map t | t in limit :: 0, limit, [], [], {})
  }
}

module FileLedger {
  import opened ObjectKeys
  import opened Sums
  import opened Arithmetic
  import opened Expiries
  import opened FileTypes

  /** A file's bytes count against its tenant while it is scanning or ready. */
  predicate Charged(f: File) { f.status.Scanning? || f.status.Ready? }

  function Share(f: File, tenant: string): int { if f.tenant == tenant && Charged(f) then f.size else 0 }

  ghost function ChargedBytes(files: map<string, File>, tenant: string): int {
    MapSum(map id | id in files :: Share(files[id], tenant))
  }

  lemma ChargedBytesUpdate(files: map<string, File>, id: string, f: File, tenant: string)
    ensures ChargedBytes(files[id := f], tenant)
         == ChargedBytes(files, tenant) + Share(f, tenant) - (if id in files then Share(files[id], tenant) else 0)
  {
    var before := map i | i in files :: Share(files[i], tenant);
    var files' := files[id := f];
    var after := map i | i in files' :: Share(files'[i], tenant);
    assert after == before[id := Share(f, tenant)];
    MapSumUpdate(before, id, Share(f, tenant));
  }

  lemma ChargedBytesAtLeast(files: map<string, File>, id: string, tenant: string)
    requires id in files
    ensures 0 <= Share(files[id], tenant) <= ChargedBytes(files, tenant)
  {
    var shares := map i | i in files :: Share(files[i], tenant);
    MapSumTake(shares, id);
    var rest := shares - {id};
    var zeros := map i | i in rest :: 0;
    MapSumZero(zeros);
    MapSumLe(zeros, rest);
  }

  lemma ChargedBytesNonNegative(files: map<string, File>, tenant: string)
    ensures 0 <= ChargedBytes(files, tenant)
  {
    var shares := map i | i in files :: Share(files[i], tenant);
    var zeros := map i | i in files :: 0;
    MapSumZero(zeros);
    MapSumLe(zeros, shares);
  }

  lemma NothingCharged(files: map<string, File>, tenant: string)
    requires forall id :: id in files ==> files[id].tenant != tenant
    ensures ChargedBytes(files, tenant) == 0
  {
    MapSumZero(map i | i in files :: Share(files[i], tenant));
  }

  /** Dropping another tenant's rows does not change a tenant's total. */
  lemma {:induction false} PurgeOthers(files: map<string, File>, gone: string, tenant: string)
    requires tenant != gone
    ensures ChargedBytes(map id | id in files && files[id].tenant != gone :: files[id], tenant)
         == ChargedBytes(files, tenant)
    decreases |files|
  {
    var kept := map id | id in files && files[id].tenant != gone :: files[id];
    if id :| id in files && files[id].tenant == gone {
      var fewer := files - {id};
      assert fewer.Keys == files.Keys - {id};
      PurgeOthers(fewer, gone, tenant);
      assert kept == map i | i in fewer && fewer[i].tenant != gone :: fewer[i];
      assert fewer[id := files[id]] == files;
      ChargedBytesUpdate(fewer, id, files[id], tenant);
    } else {
      assert kept == files;
    }
  }

  /** The ledger never exceeds what is really stored, nor the plan's limit. */
  ghost predicate LedgerSafe(s: State, tenant: string) {
    tenant in s.used ==>
      && tenant in s.limit
      && 0 <= s.used[tenant] <= s.limit[tenant]
      && s.used[tenant] <= ChargedBytes(s.files, tenant)
  }

  /** The ledger is exactly what is really stored. */
  ghost predicate LedgerExact(s: State, tenant: string) {
    tenant in s.used ==> s.used[tenant] == ChargedBytes(s.files, tenant)
  }

  predicate KeysPresent(files: map<string, File>) { forall id :: id in files ==> files[id].key != "" }

  /** Sizes and keys of the rows, and where the ids come from. */
  ghost predicate RowsSafe(s: State) {
    KeysPresent(s.files) && (forall id :: id in s.files ==> id in s.issued)
  }

  /** Releasing a file's bytes, whatever its status, and leaving the charged states. */
  lemma ReleaseOne(files: map<string, File>, used: map<string, int>, id: string, f: File, tenant: string)
    requires id in files && !Charged(f) && tenant in used
    requires 0 <= used[tenant] <= ChargedBytes(files, tenant)
    ensures var used' := Release(used, files[id]);
            && tenant in used' && 0 <= used'[tenant] <= used[tenant]
            && used'[tenant] <= ChargedBytes(files[id := f], tenant)
            && ((used[tenant] == ChargedBytes(files, tenant) && Charged(files[id]))
                ==> used'[tenant] == ChargedBytes(files[id := f], tenant))
  {
    ChargedBytesUpdate(files, id, f, tenant);
    ChargedBytesAtLeast(files, id, tenant);
  }

  lemma UploadLedger(s: State, tenant: string, instance: string, id: string, size: nat, mime: string,
                     expiry: Expiry, putOk: bool, t: string)
    requires id !in s.files && tenant in s.used
    requires LedgerSafe(s, tenant) && LedgerSafe(s, t)
    ensures var s' := Upload(s, tenant, instance, id, size, mime, expiry, putOk).0;
            LedgerSafe(s', t) && (LedgerExact(s, t) ==> LedgerExact(s', t))
  {
    var f := File(tenant, Uploaded, size, mime, StorageKey(tenant, instance, id), expiry);
    ChargedBytesUpdate(s.files, id, f, t);
    ChargedBytesUpdate(s.files, id, f.(status := Scanning), t);
    assert s.files[id := f][id := f.(status := Scanning)] == s.files[id := f.(status := Scanning)];
  }

  lemma PresignLedger(s: State, tenant: string, instance: string, id: string, size: int, mime: string,
                      expiry: Expiry, t: string)
    requires id !in s.files
    requires LedgerSafe(s, t)
    ensures var s' := Presign(s, tenant, instance, id, size, mime, expiry).0;
            LedgerSafe(s', t) && (LedgerExact(s, t) ==> LedgerExact(s', t))
  {
    if size > 0 {
      ChargedBytesUpdate(s.files, id, File(tenant, Uploading, size, mime, StorageKey(tenant, instance, id), expiry), t);
    }
  }

  lemma CompleteLedger(s: State, tenant: string, id: string, obj: Stored, t: string)
    requires LedgerSafe(s, tenant) && LedgerSafe(s, t)
    ensures var s' := Complete(s, tenant, id, obj).0;
            LedgerSafe(s', t) && (LedgerExact(s, t) ==> LedgerExact(s', t))
  {
    var s' := Complete(s, tenant, id, obj).0;
    if id in s.files && s' != s {
      assert s'.files == s.files[id := s'.files[id]];
      ChargedBytesUpdate(s.files, id, s'.files[id], t);
    }
  }

  lemma DeleteLedger(s: State, tenant: string, id: string, t: string)
    requires LedgerSafe(s, t)
    ensures LedgerSafe(Delete(s, tenant, id).0, t)
  {
    if id in s.files && s.files[id].tenant == tenant && t in s.used {
      ReleaseOne(s.files, s.used, id, s.files[id].(status := Deleted), t);
    }
  }

  /** Deleting keeps an exact ledger exact precisely when the file was charged, or
      had no bytes, or there was nothing left to take away. */
  lemma DeleteExactIff(s: State, tenant: string, id: string)
    requires LedgerSafe(s, tenant) && LedgerExact(s, tenant) && tenant in s.used
    requires id in s.files && s.files[id].tenant == tenant
    ensures LedgerExact(Delete(s, tenant, id).0, tenant)
       <==> Charged(s.files[id]) || s.files[id].size == 0 || s.used[tenant] == 0
  {
    ChargedBytesUpdate(s.files, id, s.files[id].(status := Deleted), tenant);
    ChargedBytesAtLeast(s.files, id, tenant);
  }

  /** Why the two writes of a step belong together: when a delete comes between the
      status write and the ledger write of an upload, its subtraction may be clamped,
      and the ledger ends above what is stored exactly when it was below the size. */
  lemma UploadInTwoWrites(s: State, id: string, f: File)
    requires id !in s.files && f.status.Scanning? && f.tenant in s.used
    requires LedgerSafe(s, f.tenant) && LedgerExact(s, f.tenant)
    ensures var statusWritten := s.(files := s.files[id := f]);
            var deleted := Delete(statusWritten, f.tenant, id).0;
            var ledgerWritten := deleted.(used := AddUsed(deleted.used, f.tenant, f.size));
            && ChargedBytes(ledgerWritten.files, f.tenant) == ChargedBytes(s.files, f.tenant)
            && (ledgerWritten.used[f.tenant] > ChargedBytes(ledgerWritten.files, f.tenant)
                <==> s.used[f.tenant] < f.size)
  {
    var files := s.files[id := f];
    ChargedBytesUpdate(s.files, id, f, f.tenant);
    ChargedBytesUpdate(files, id, f.(status := Deleted), f.tenant);
  }

  /** A charged file leaving for good, or staying charged. */
  lemma RejectLedger(s: State, id: string, t: string)
    requires id in s.files && s.files[id].key != "" && Charged(s.files[id]) && LedgerSafe(s, t)
    ensures LedgerSafe(Reject(s, id), t) && (LedgerExact(s, t) ==> LedgerExact(Reject(s, id), t))
  {
    if t in s.used {
      ReleaseOne(s.files, s.used, id, s.files[id].(status := Rejected), t);
    }
  }

  lemma ReadyLedger(s: State, id: string, t: string)
    requires id in s.files && Charged(s.files[id]) && LedgerSafe(s, t)
    ensures var s' := SetStatus(s, id, Ready); LedgerSafe(s', t) && (LedgerExact(s, t) ==> LedgerExact(s', t))
  {
    ChargedBytesUpdate(s.files, id, s.files[id].(status := Ready), t);
  }

  lemma ScanLedger(s: State, sniff: Sniff, t: string)
    requires LedgerSafe(s, t) && KeysPresent(s.files)
    requires s.scanQueue != [] ==>
               var id := s.scanQueue[|s.scanQueue| - 1];
               id in s.files ==> s.files[id].status in {Scanning, Expired, Deleted}
    ensures LedgerSafe(Scan(s, sniff), t)
    ensures LedgerExact(s, t) ==> LedgerExact(Scan(s, sniff), t)
  {
    if s.scanQueue != [] {
      var last := |s.scanQueue| - 1;
      var id := s.scanQueue[last];
      var s1 := s.(scanQueue := s.scanQueue[..last]);
      if id in s.files && s.files[id].status.Scanning? {
        RejectLedger(s1, id, t);
        ReadyLedger(s1, id, t);
      }
    }
  }

  lemma ExpireOneMore(files: map<string, File>, order: seq<string>, id: string)
    requires id in files && id !in order
    ensures ExpireRows(files, order + [id]) == ExpireRows(files, order)[id := files[id].(status := Expired)]
    ensures ExpireRows(files, order)[id] == files[id]
  {
  }

  /** The sweep, row by row: after each prefix of the rows the ledger is safe. */
  lemma {:induction false} SweepRows(s: State, order: seq<string>, t: string)
    requires forall i, j :: 0 <= i < j < |order| ==> order[i] != order[j]
    requires forall id :: id in order ==> id in s.files
    requires t in s.used && LedgerSafe(s, t)
    ensures var files := ExpireRows(s.files, order);
            var used := ReleaseRows(s.files, s.used, order);
            && t in used && 0 <= used[t] <= s.used[t] && used[t] <= ChargedBytes(files, t)
            && ((LedgerExact(s, t) && forall id :: id in order ==> Charged(s.files[id]))
                ==> used[t] == ChargedBytes(files, t))
  {
    if order == [] {
      assert ExpireRows(s.files, order) == s.files;
    } else {
      var front := order[..|order| - 1];
      var id := order[|order| - 1];
      assert order == front + [id];
      SweepRows(s, front, t);
      ExpireOneMore(s.files, front, id);
      ReleaseOne(ExpireRows(s.files, front), ReleaseRows(s.files, s.used, front), id,
                 s.files[id].(status := Expired), t);
    }
  }

  lemma SweepLedger(s: State, now: int, order: seq<string>, t: string)
    requires LedgerSafe(s, t)
    ensures LedgerSafe(Sweep(s, now, order), t)
    ensures (LedgerExact(s, t) && forall id :: id in order && id in s.files ==> Charged(s.files[id]))
            ==> LedgerExact(Sweep(s, now, order), t)
  {
    if DueRows(s, now, order) {
      if t in s.used { SweepRows(s, order, t); }
      else { ReleaseKeepsKeys(s.files, s.used, order); }
    }
  }

  lemma {:induction false} ReleaseKeepsKeys(files: map<string, File>, used: map<string, int>, order: seq<string>)
    requires forall id :: id in order ==> id in files
    ensures ReleaseRows(files, used, order).Keys == used.Keys
  {
    if order != [] { ReleaseKeepsKeys(files, used, order[..|order| - 1]); }
  }

  /** The bytes of tenant's rows among those swept, all of them and the charged ones. */
  function RowBytes(files: map<string, File>, order: seq<string>, tenant: string): nat
    requires forall id :: id in order ==> id in files
  {
    if order == [] then 0
    else
      var f := files[order[|order| - 1]];
      RowBytes(files, order[..|order| - 1], tenant) + if f.tenant == tenant then f.size else 0
  }

  function ChargedRowBytes(files: map<string, File>, order: seq<string>, tenant: string): int
    requires forall id :: id in order ==> id in files
  {
    if order == [] then 0
    else ChargedRowBytes(files, order[..|order| - 1], tenant) + Share(files[order[|order| - 1]], tenant)
  }

  lemma {:induction false} RowBytesBound(files: map<string, File>, order: seq<string>, t: string)
    requires forall id :: id in order ==> id in files
    ensures 0 <= ChargedRowBytes(files, order, t) <= RowBytes(files, order, t)
  {
    if order != [] { RowBytesBound(files, order[..|order| - 1], t); }
  }

  /** The sweep's clamped subtractions, one per row, amount to a single one. */
  lemma {:induction false} ReleasedInOne(files: map<string, File>, used: map<string, int>,
                                         order: seq<string>, t: string)
    requires forall id :: id in order ==> id in files
    requires t in used && used[t] >= 0
    ensures var used' := ReleaseRows(files, used, order);
            t in used' && used'[t] == Clamp0(used[t] - RowBytes(files, order, t))
  {
    if order != [] {
      ReleasedInOne(files, used, order[..|order| - 1], t);
    }
  }

  lemma {:induction false} ExpiredBytes(files: map<string, File>, order: seq<string>, t: string)
    requires forall i, j :: 0 <= i < j < |order| ==> order[i] != order[j]
    requires forall id :: id in order ==> id in files
    ensures ChargedBytes(ExpireRows(files, order), t) == ChargedBytes(files, t) - ChargedRowBytes(files, order, t)
  {
    if order == [] {
      assert ExpireRows(files, order) == files;
    } else {
      var front := order[..|order| - 1];
      var id := order[|order| - 1];
      assert order == front + [id];
      ExpiredBytes(files, front, t);
      ExpireOneMore(files, front, id);
      ChargedBytesUpdate(ExpireRows(files, front), id, files[id].(status := Expired), t);
    }
  }

  /** A sweep keeps an exact ledger exact precisely when no uncharged bytes were among
      the due rows, or the charged ones were all there was. */
  lemma SweepExactIff(s: State, now: int, order: seq<string>, t: string)
    requires LedgerSafe(s, t) && LedgerExact(s, t) && t in s.used && DueRows(s, now, order)
    ensures LedgerExact(Sweep(s, now, order), t)
       <==> || RowBytes(s.files, order, t) == ChargedRowBytes(s.files, order, t)
            || s.used[t] == ChargedRowBytes(s.files, order, t)
  {
    RowBytesBound(s.files, order, t);
    ReleasedInOne(s.files, s.used, order, t);
    ExpiredBytes(s.files, order, t);
    ChargedBytesNonNegative(ExpireRows(s.files, order), t);
  }

  lemma PurgeLedger(s: State, tenant: string, keys: seq<string>, t: string)
    requires LedgerSafe(s, t)
    ensures var s' := Purge(s, tenant, keys); LedgerSafe(s', t) && (LedgerExact(s, t) ==> LedgerExact(s', t))
  {
    if t == tenant {
      NothingCharged(Purge(s, tenant, keys).files, t);
    } else {
      PurgeOthers(s.files, tenant, t);
    }
  }
}

/** The handlers and jobs as code over the tables and queues. */
module FileService {
  import opened Expiries
  import opened ObjectKeys
  import opened FileTypes

  function Ids(due: seq<(string, File)>): (ids: seq<string>)
    ensures |ids| == |due| && forall i :: 0 <= i < |due| ==> ids[i] == due[i].0
  {
    seq(|due|, i requires 0 <= i < |due| => due[i].0)
  }

  lemma ReleaseNext(files: map<string, File>, used: map<string, int>, log: seq<string>, order: seq<string>, k: nat)
    requires k < |order| && forall id :: id in order ==> id in files
    ensures ReleaseRows(files, used, order[..k + 1]) == Release(ReleaseRows(files, used, order[..k]), files[order[k]])
    ensures var rest := QueueRows(files, log, order[..k]); var f := files[order[k]];
            QueueRows(files, log, order[..k + 1]) == if f.key != "" then [f.key] + rest else rest
  {
    assert order[..k + 1][..k] == order[..k] && order[..k + 1][k] == order[k];
  }

  class Service {
    var files: map<string, File>
    var used: map<string, int>
    var limit: map<string, nat>
    var scanQueue: seq<string>
    var deleteLog: seq<string>
    ghost var issued: set<string>

    ghost function View(): State
      reads this
    {
      State(files, used, limit, scanQueue, deleteLog, issued)
    }

    constructor (limits: map<string, nat>)
      ensures View() == Init(limits)
    {
      files, used, limit := map[], map t | t in limits :: 0, limits;
      scanQueue, deleteLog, issued := [], [], {};
    }

    method AddStorageUsed(tenant: string, delta: int)
      modifies this`used
      ensures used == AddUsed(old(used), tenant, delta)
    {
      if tenant in used {
        var n := used[tenant] + delta;
        used := used[tenant := if n > 0 then n else 0];
      }
    }

    method UploadFile(tenant: string, instance: string, id: string, size: nat, mime: string,
                      expiry: Expiry, putOk: bool) returns (r: Response)
      modifies this
      ensures (View(), r) == Upload(old(View()), tenant, instance, id, size, mime, expiry, putOk)
    {
      if mime !in ALLOWED { return Unsupported; }
      if tenant in used && tenant in limit && used[tenant] + size > limit[tenant] { return QuotaExceeded; }
      var key := StorageKey(tenant, instance, id);
      files := files[id := File(tenant, Uploaded, size, mime, key, expiry)];
      issued := issued + {id};
      if !putOk { return Unavailable; }
      files := files[id := files[id].(status := Scanning)];
      AddStorageUsed(tenant, size);
      scanQueue := [id] + scanQueue;
      return Done;
    }

    method PresignUpload(tenant: string, instance: string, id: string, size: int, mime: string,
                         expiry: Expiry) returns (r: Response)
      modifies this
      ensures (View(), r) == Presign(old(View()), tenant, instance, id, size, mime, expiry)
    {
      if size <= 0 { return BadRequest; }
      if mime !in ALLOWED { return Unsupported; }
      if tenant in limit {
        if size > limit[tenant] || (tenant in used && used[tenant] + size > limit[tenant]) { return QuotaExceeded; }
      }
      files := files[id := File(tenant, Uploading, size, mime, StorageKey(tenant, instance, id), expiry)];
      issued := issued + {id};
      return Done;
    }

    method CompleteUpload(tenant: string, id: string, obj: Stored) returns (r: Response)
      modifies this
      ensures (View(), r) == Complete(old(View()), tenant, id, obj)
    {
      if id !in files || files[id].tenant != tenant { return NotFound; }
      var f := files[id];
      if f.status != Uploading { return Conflict; }
      var size: nat;
      match obj {
        case StorageOff(claimed) => size := if claimed <= 0 then f.size else claimed;
        case Object(actual) => size := actual;
        case _ => return Conflict;
      }
      if tenant in used && tenant in limit && used[tenant] + size > limit[tenant] {
        files := files[id := f.(status := Rejected)];
        if f.key != "" { deleteLog := [f.key] + deleteLog; }
        return QuotaExceeded;
      }
      files := files[id := f.(status := Scanning, size := size)];
      AddStorageUsed(tenant, size);
      scanQueue := [id] + scanQueue;
      return Done;
    }

    method DeleteFile(tenant: string, id: string) returns (r: Response)
      modifies this
      ensures (View(), r) == Delete(old(View()), tenant, id)
    {
      if id !in files || files[id].tenant != tenant { return NotFound; }
      var f := files[id];
      files := files[id := f.(status := Deleted)];
      AddStorageUsed(tenant, 0 - f.size);
      deleteLog := [f.key] + deleteLog;
      return Done;
    }

    method HandleScan(sniff: Sniff)
      modifies this
      ensures View() == Scan(old(View()), sniff)
    {
      if |scanQueue| == 0 { return; }
      var id := scanQueue[|scanQueue| - 1];
      scanQueue := scanQueue[..|scanQueue| - 1];
      if id !in files { return; }
      var f := files[id];
      if f.status == Deleted || f.status == Expired { return; }
      if f.mime !in ALLOWED {
        RejectFile(id);
        return;
      }
      if f.key != "" && sniff == ReadError {
        scanQueue := [id] + scanQueue;
        return;
      }
      if f.key != "" && sniff.Sniffed? && !SniffConsistent(f.mime, sniff.mime) {
        RejectFile(id);
        return;
      }
      files := files[id := f.(status := Ready)];
    }

    method RejectFile(id: string)
      requires id in files
      modifies this
      ensures View() == Reject(old(View()), id)
    {
      var f := files[id];
      files := files[id := f.(status := Rejected)];
      if f.key != "" {
        AddStorageUsed(f.tenant, 0 - f.size);
        deleteLog := [f.key] + deleteLog;
      }
    }

    /** The SELECT of ExpireDueFiles: copies of the due rows, in some order. */
    method DueFiles(now: int) returns (due: seq<(string, File)>)
      ensures DueRows(View(), now, Ids(due))
      ensures forall i :: 0 <= i < |due| ==> due[i].1 == files[due[i].0]
    {
      due := [];
      var ids := files.Keys;
      while ids != {}
        invariant ids <= files.Keys
        invariant forall i :: 0 <= i < |due| ==> due[i].0 in files.Keys - ids && due[i].1 == files[due[i].0]
        invariant forall i :: 0 <= i < |due| ==> Due(due[i].1, now)
        invariant forall i, j :: 0 <= i < j < |due| ==> due[i].0 != due[j].0
        invariant forall id :: id in files.Keys - ids && Due(files[id], now) ==> id in Ids(due)
        decreases ids
      {
        var id :| id in ids;
        ids := ids - {id};
        if Due(files[id], now) {
          ghost var before := due;
          due := due + [(id, files[id])];
          assert Ids(due) == Ids(before) + [id];
        }
      }
    }

    /** ExpireDueFiles: all due rows flip to expired. */
    method ExpireDueFiles(now: int) returns (due: seq<(string, File)>)
      modifies this`files
      ensures DueRows(old(View()), now, Ids(due))
      ensures forall i :: 0 <= i < |due| ==> due[i].0 in old(files) && due[i].1 == old(files)[due[i].0]
      ensures files == ExpireRows(old(files), Ids(due))
    {
      due := DueFiles(now);
      ghost var was := files;
      assert ExpireRows(was, Ids(due)[..0]) == was;
      for k := 0 to |due|
        invariant files == ExpireRows(was, Ids(due)[..k])
      {
        var id := due[k].0;
        assert Ids(due)[..k + 1] == Ids(due)[..k] + [id];
        assert id in was && id in Ids(due);
        files := files[id := files[id].(status := Expired)];
      }
      assert Ids(due)[..|due|] == Ids(due);
    }

    /** sweep: the bytes are released one row at a time, from the collected copies. */
    method SweepDue(now: int) returns (ghost order: seq<string>)
      modifies this
      ensures DueRows(old(View()), now, order)
      ensures View() == Sweep(old(View()), now, order)
    {
      ghost var was := files;
      var due := ExpireDueFiles(now);
      order := Ids(due);
      ReleaseDue(due, was);
    }

    method ReleaseDue(due: seq<(string, File)>, ghost was: map<string, File>)
      requires forall i :: 0 <= i < |due| ==> due[i].0 in was && due[i].1 == was[due[i].0]
      modifies this`used, this`deleteLog
      ensures used == ReleaseRows(was, old(used), Ids(due))
      ensures deleteLog == QueueRows(was, old(deleteLog), Ids(due))
    {
      ghost var order := Ids(due);
      for k := 0 to |due|
        invariant used == ReleaseRows(was, old(used), order[..k])
        invariant deleteLog == QueueRows(was, old(deleteLog), order[..k])
      {
        var f := due[k].1;
        ReleaseNext(was, old(used), old(deleteLog), order, k);
        AddStorageUsed(f.tenant, 0 - f.size);
        if f.key != "" { deleteLog := [f.key] + deleteLog; }
      }
      assert order[..|due|] == order;
    }

    method PurgeTenant(tenant: string) returns (keys: seq<string>)
      modifies this
      ensures KeysOf(old(files), tenant, keys)
      ensures View() == Purge(old(View()), tenant, keys)
    {
      keys := [];
      var ids := files.Keys;
      while ids != {}
        invariant ids <= files.Keys
        invariant forall id :: id in files.Keys - ids && files[id].tenant == tenant && files[id].key != "" ==>
                    files[id].key in keys
        invariant forall k :: k in keys ==> exists id :: id in files && files[id].tenant == tenant && files[id].key == k
        decreases ids
      {
        var id :| id in ids;
        ids := ids - {id};
        if files[id].tenant == tenant && files[id].key != "" {
          keys := [files[id].key] + keys;
        }
      }
      files := map id | id in files && files[id].tenant != tenant :: files[id];
      if tenant in used { used := used[tenant := 0]; }
      deleteLog := keys + deleteLog;
    }
  }
}

module FileRuns {
  import opened Expiries
  import opened FileTypes
  import opened FileLedger

  /** One pending scan message per scanning file, none twice, and none for a file in
      any state but scanning, expired, deleted or purged. */
  ghost predicate QueueSafe(s: State) {
    && (forall i, j :: 0 <= i < j < |s.scanQueue| ==> s.scanQueue[i] != s.scanQueue[j])
    && (forall id :: id in s.scanQueue ==> id in s.issued)
    && (forall id :: id in s.scanQueue && id in s.files ==> s.files[id].status in {Scanning, Expired, Deleted})
    && (forall id :: id in s.files && s.files[id].status.Scanning? ==> id in s.scanQueue)
  }

  /** The objects of files that left for good have been handed to the delete queue. */
  ghost predicate ObjectsReleased(s: State) {
    forall id :: id in s.files && Terminal(s.files[id].status) ==> s.files[id].key in s.deleteLog
  }

  ghost predicate BooksSafe(s: State) { RowsSafe(s) && QueueSafe(s) && ObjectsReleased(s) }

  ghost predicate Inv(s: State) {
    BooksSafe(s) && forall t :: LedgerSafe(s, t)
  }

  lemma {:induction false} QueueRowsAdds(files: map<string, File>, log: seq<string>, order: seq<string>)
    requires KeysPresent(files) && forall id :: id in order ==> id in files
    ensures forall k :: k in log ==> k in QueueRows(files, log, order)
    ensures forall id :: id in order ==> files[id].key in QueueRows(files, log, order)
  {
    if order != [] {
      var front := order[..|order| - 1];
      QueueRowsAdds(files, log, front);
      assert order == front + [order[|order| - 1]];
    }
  }

  /** The rest of the queue after the pop holds neither the popped id nor a repeat. */
  lemma PopQueue(s: State)
    requires QueueSafe(s) && s.scanQueue != []
    ensures var last := |s.scanQueue| - 1; var id := s.scanQueue[last];
            && id !in s.scanQueue[..last]
            && (forall x :: x in s.scanQueue ==> x == id || x in s.scanQueue[..last])
  {
    assert s.scanQueue == s.scanQueue[..|s.scanQueue| - 1] + [s.scanQueue[|s.scanQueue| - 1]];
  }

  /** The state with the message of one scanning file taken off the queue. */
  ghost predicate Popped(s: State, id: string) {
    && BooksSafe(s.(scanQueue := [id] + s.scanQueue))
    && id !in s.scanQueue && id in s.files && s.files[id].status.Scanning?
  }

  lemma RejectKeepsRows(s: State, id: string)
    requires Popped(s, id)
    ensures BooksSafe(Reject(s, id))
  {
    var q := [id] + s.scanQueue;
    assert q[1..] == s.scanQueue;
    assert forall i :: 0 <= i < |s.scanQueue| ==> s.scanQueue[i] == q[i + 1];
    assert forall x :: x in s.scanQueue ==> x in q;
  }

  lemma ReadyKeepsRows(s: State, id: string)
    requires Popped(s, id)
    ensures BooksSafe(SetStatus(s, id, Ready))
  {
    var q := [id] + s.scanQueue;
    assert forall i :: 0 <= i < |s.scanQueue| ==> s.scanQueue[i] == q[i + 1];
    assert forall x :: x in s.scanQueue ==> x in q;
  }

  /** Rotating the tail message to the head changes nothing that matters. */
  lemma RotateKeepsRows(s: State)
    requires BooksSafe(s) && s.scanQueue != []
    ensures var last := |s.scanQueue| - 1;
            BooksSafe(s.(scanQueue := [s.scanQueue[last]] + s.scanQueue[..last]))
  {
    PopQueue(s);
    var last := |s.scanQueue| - 1;
    var q := [s.scanQueue[last]] + s.scanQueue[..last];
    assert forall x :: x in q <==> x in s.scanQueue;
  }

  lemma DropKeepsRows(s: State)
    requires BooksSafe(s) && s.scanQueue != []
    requires var id := s.scanQueue[|s.scanQueue| - 1]; id in s.files ==> !s.files[id].status.Scanning?
    ensures BooksSafe(s.(scanQueue := s.scanQueue[..|s.scanQueue| - 1]))
  {
    PopQueue(s);
  }

  function PopTail(s: State): State
    requires s.scanQueue != []
  {
    s.(scanQueue := s.scanQueue[..|s.scanQueue| - 1])
  }

  /** The tail message is for a scanning file: it is the file's only one. */
  lemma PopScanning(s: State)
    requires BooksSafe(s) && s.scanQueue != []
    requires var id := s.scanQueue[|s.scanQueue| - 1]; id in s.files && s.files[id].status.Scanning?
    ensures Popped(PopTail(s), s.scanQueue[|s.scanQueue| - 1])
  {
    RotateKeepsRows(s);
    PopQueue(s);
  }

  lemma ScanningKeepsRows(s: State, sniff: Sniff)
    requires BooksSafe(s) && s.scanQueue != []
    requires var id := s.scanQueue[|s.scanQueue| - 1]; id in s.files && s.files[id].status.Scanning?
    ensures BooksSafe(Scan(s, sniff))
  {
    var id := s.scanQueue[|s.scanQueue| - 1];
    PopScanning(s);
    match Judge(s.files[id], sniff)
    case Fail => RejectKeepsRows(PopTail(s), id);
    case Retry => RotateKeepsRows(s);
    case Pass => ReadyKeepsRows(PopTail(s), id);
  }

  lemma ScanKeepsRows(s: State, sniff: Sniff)
    requires BooksSafe(s)
    ensures BooksSafe(Scan(s, sniff))
  {
    if s.scanQueue != [] {
      var id := s.scanQueue[|s.scanQueue| - 1];
      assert id in s.scanQueue;
      if id in s.files && s.files[id].status.Scanning? {
        ScanningKeepsRows(s, sniff);
      } else {
        DropKeepsRows(s);
      }
    }
  }

  lemma SweepKeepsRows(s: State, now: int, order: seq<string>)
    requires BooksSafe(s)
    ensures BooksSafe(Sweep(s, now, order))
  {
    if DueRows(s, now, order) {
      QueueRowsAdds(s.files, s.deleteLog, order);
    }
  }

  lemma PurgeKeepsRows(s: State, tenant: string, keys: seq<string>)
    requires BooksSafe(s) && KeysOf(s.files, tenant, keys)
    ensures BooksSafe(Purge(s, tenant, keys))
  {
  }

  lemma CompleteKeepsRows(s: State, tenant: string, id: string, obj: Stored)
    requires BooksSafe(s)
    ensures BooksSafe(Complete(s, tenant, id, obj).0)
  {
  }

  lemma UploadKeepsRows(s: State, tenant: string, instance: string, id: string, size: nat, mime: string,
                        expiry: Expiry, putOk: bool)
    requires BooksSafe(s) && id !in s.issued && tenant in s.used
    ensures BooksSafe(Upload(s, tenant, instance, id, size, mime, expiry, putOk).0)
  {
    var s' := Upload(s, tenant, instance, id, size, mime, expiry, putOk).0;
    assert id !in s.files && id !in s.scanQueue;
    if s'.scanQueue != s.scanQueue { assert s'.scanQueue[1..] == s.scanQueue; }
  }

  lemma PresignKeepsRows(s: State, tenant: string, instance: string, id: string, size: int, mime: string,
                         expiry: Expiry)
    requires BooksSafe(s) && id !in s.issued && tenant in s.used
    ensures BooksSafe(Presign(s, tenant, instance, id, size, mime, expiry).0)
  {
  }

  lemma HandlersKeepRows(s: State, e: Event)
    requires Allowed(s, e) && !e.DoScan? && !e.DoSweep?
    requires BooksSafe(s)
    ensures BooksSafe(Apply(s, e))
  {
    match e
    case DoUpload(tenant, instance, id, size, mime, expiry, putOk) =>
      UploadKeepsRows(s, tenant, instance, id, size, mime, expiry, putOk);
    case DoPresign(tenant, instance, id, bytes, mime, expiry) =>
      PresignKeepsRows(s, tenant, instance, id, bytes, mime, expiry);
    case DoComplete(tenant, id, obj) => CompleteKeepsRows(s, tenant, id, obj);
    case DoDelete(tenant, id) => DeleteKeepsRows(s, tenant, id);
    case DoPurge(tenant, keys) => PurgeKeepsRows(s, tenant, keys);
  }

  lemma DeleteKeepsRows(s: State, tenant: string, id: string)
    requires BooksSafe(s)
    ensures BooksSafe(Delete(s, tenant, id).0)
  {
  }

  lemma StepKeepsInv(s: State, e: Event)
    requires Inv(s)
    ensures Inv(Apply(s, e))
  {
    if Allowed(s, e) {
      var s' := Apply(s, e);
      assert BooksSafe(s') by {
        match e
        case DoScan(sniff) => ScanKeepsRows(s, sniff);
        case DoSweep(now, order) => SweepKeepsRows(s, now, order);
        case _ => HandlersKeepRows(s, e);
      }
      forall t ensures LedgerSafe(s', t) {
        StepKeepsLedger(s, e, t);
      }
    }
  }

  /** Delete and expiry hit only charged files. */
  predicate Clean(s: State, e: Event) {
    match e
    case DoDelete(tenant, id) => id in s.files && s.files[id].tenant == tenant ==> Charged(s.files[id])
    case DoSweep(now, order) => forall id :: id in order && id in s.files ==> Charged(s.files[id])
    case _ => true
  }

  lemma StepKeepsLedger(s: State, e: Event, t: string)
    requires Inv(s) && Allowed(s, e)
    ensures LedgerSafe(Apply(s, e), t)
    ensures LedgerExact(s, t) && Clean(s, e) ==> LedgerExact(Apply(s, e), t)
  {
    assert LedgerSafe(s, t);
    match e
    case DoUpload(tenant, instance, id, size, mime, expiry, putOk) =>
      assert LedgerSafe(s, tenant);
      UploadLedger(s, tenant, instance, id, size, mime, expiry, putOk, t);
    case DoPresign(tenant, instance, id, bytes, mime, expiry) =>
      PresignLedger(s, tenant, instance, id, bytes, mime, expiry, t);
    case DoComplete(tenant, id, obj) =>
      assert LedgerSafe(s, tenant);
      CompleteLedger(s, tenant, id, obj, t);
    case DoDelete(tenant, id) =>
      DeleteLedger(s, tenant, id, t);
      if id in s.files && s.files[id].tenant == tenant && t in s.used {
        ReleaseOne(s.files, s.used, id, s.files[id].(status := Deleted), t);
      }
    case DoScan(sniff) =>
      assert s.scanQueue != [] ==> s.scanQueue[|s.scanQueue| - 1] in s.scanQueue;
      ScanLedger(s, sniff, t);
    case DoSweep(now, order) => SweepLedger(s, now, order, t);
    case DoPurge(tenant, keys) => PurgeLedger(s, tenant, keys, t);
  }

  /** Every reachable state: 0 <= used <= stored bytes, used <= limit, one message per
      scanning file, and no object of a finished file forgotten. */
  lemma {:induction false} RunsAreSafe(limit: map<string, nat>, es: seq<Event>)
    ensures Inv(RunFrom(Init(limit), es))
  {
    if es == [] {
      forall t ensures LedgerSafe(Init(limit), t) { NothingCharged(map[], t); }
    } else {
      RunsAreSafe(limit, es[..|es| - 1]);
      StepKeepsInv(RunFrom(Init(limit), es[..|es| - 1]), es[|es| - 1]);
    }
  }

  ghost predicate CleanRun(limit: map<string, nat>, es: seq<Event>) {
    forall i :: 0 <= i < |es| ==> Clean(RunFrom(Init(limit), es[..i]), es[i])
  }

  /** On runs whose deletes and expiries only hit scanning or ready files, the ledger
      is exactly the stored bytes. */
  lemma {:induction false} CleanRunsAreExact(limit: map<string, nat>, es: seq<Event>, t: string)
    requires CleanRun(limit, es)
    ensures LedgerExact(RunFrom(Init(limit), es), t)
  {
    if es == [] {
      NothingCharged(map[], t);
    } else {
      var front := es[..|es| - 1];
      assert forall i :: 0 <= i < |front| ==> front[..i] == es[..i] && front[i] == es[i];
      CleanRunsAreExact(limit, front, t);
      RunsAreSafe(limit, front);
      assert es[..|es| - 1] == front;
      if Allowed(RunFrom(Init(limit), front), es[|es| - 1]) {
        StepKeepsLedger(RunFrom(Init(limit), front), es[|es| - 1], t);
      }
    }
  }

  /** Why the bound is one-sided in general: deleting an upload that was never
      charged takes another file's bytes off the ledger. */
  lemma UnchargedDeleteUndercounts()
    ensures var s1 := Apply(Init(map["t" := 100]), DoUpload("t", "i", "a", 10, "text/csv", NoExpiry, true));
            var s2 := Apply(s1, DoPresign("t", "i", "b", 10, "text/csv", NoExpiry));
            var s3 := Apply(s2, DoDelete("t", "b"));
            s3.used["t"] == 0 && "a" in s3.files && s3.files["a"].status == Scanning && s3.files["a"].size == 10
  {
  }

  // ---- What a status means for the history ----

  /** A rejected, expired or deleted file stays so, until it is purged. */
  lemma TerminalStep(s: State, e: Event, id: string)
    requires Inv(s) && id in s.files && Terminal(s.files[id].status)
    ensures var s' := Apply(s, e); id in s'.files ==> Terminal(s'.files[id].status)
  {
    if e.DoScan? && s.scanQueue != [] {
      assert s.scanQueue[|s.scanQueue| - 1] in s.scanQueue;
    }
  }

  lemma TerminalOrGoneStep(s: State, e: Event, id: string)
    requires Inv(s) && id in s.issued && (id in s.files ==> Terminal(s.files[id].status))
    ensures var s' := Apply(s, e); id in s'.issued && (id in s'.files ==> Terminal(s'.files[id].status))
  {
    if id in s.files {
      TerminalStep(s, e, id);
    } else if e.DoScan? && s.scanQueue != [] {
      assert s.scanQueue[|s.scanQueue| - 1] in s.scanQueue;
    }
  }

  lemma {:induction false} TerminalIsAbsorbing(s: State, more: seq<Event>, id: string)
    requires Inv(s) && id in s.files && Terminal(s.files[id].status)
    ensures var s' := RunFrom(s, more);
            Inv(s') && id in s'.issued && (id in s'.files ==> Terminal(s'.files[id].status))
  {
    if more != [] {
      TerminalIsAbsorbing(s, more[..|more| - 1], id);
      StepKeepsInv(RunFrom(s, more[..|more| - 1]), more[|more| - 1]);
      TerminalOrGoneStep(RunFrom(s, more[..|more| - 1]), more[|more| - 1], id);
    }
  }

  /** The event is a scan of this file that passes both the MIME and the sniff check. */
  predicate PassedScan(s: State, e: Event, id: string) {
    && e.DoScan? && s.scanQueue != [] && s.scanQueue[|s.scanQueue| - 1] == id && id in s.files
    && s.files[id].mime in ALLOWED
    && (e.sniff == NoStorage || (e.sniff.Sniffed? && SniffConsistent(s.files[id].mime, e.sniff.mime)))
  }

  lemma ScanBecomesReady(s: State, sniff: Sniff, id: string)
    requires s.scanQueue != [] && id in Scan(s, sniff).files && Scan(s, sniff).files[id].status.Ready?
    requires KeysPresent(s.files)
    ensures (id in s.files && s.files[id].status.Ready?) || PassedScan(s, DoScan(sniff), id)
  {
  }

  lemma BecomesReady(s: State, e: Event, id: string)
    requires Inv(s)
    requires id in Apply(s, e).files && Apply(s, e).files[id].status.Ready?
    ensures (id in s.files && s.files[id].status.Ready?) || PassedScan(s, e, id)
  {
    if e.DoScan? && s.scanQueue != [] { ScanBecomesReady(s, e.sniff, id); }
  }

  /** A ready file has been scanned: some step of the run checked its declared type
      against the allowlist and its bytes against the declared type. */
  lemma {:induction false} ReadyWasScanned(limit: map<string, nat>, es: seq<Event>, id: string)
    requires var s := RunFrom(Init(limit), es); id in s.files && s.files[id].status.Ready?
    ensures exists i :: 0 <= i < |es| && PassedScan(RunFrom(Init(limit), es[..i]), es[i], id)
  {
    if es != [] {
      var front := es[..|es| - 1];
      var s := RunFrom(Init(limit), front);
      RunsAreSafe(limit, front);
      BecomesReady(s, es[|es| - 1], id);
      if PassedScan(s, es[|es| - 1], id) {
        assert PassedScan(RunFrom(Init(limit), es[..|es| - 1]), es[|es| - 1], id);
      } else {
        ReadyWasScanned(limit, front, id);
        var i :| 0 <= i < |front| && PassedScan(RunFrom(Init(limit), front[..i]), front[i], id);
        assert front[..i] == es[..i] && front[i] == es[i];
      }
    }
  }
}

/** What each step does, in the stored rows, queues and ledger. */
module FileEffects {
  import opened Arithmetic
  import opened Expiries
  import opened ObjectKeys
  import opened FileTypes
  import opened FileLedger
  import opened FileRuns

  /** The types that may be uploaded and previewed. */
  lemma AllowedTypes(mime: string)
    ensures mime in ALLOWED <==>
              || mime == "application/pdf" || mime == "application/json"
              || mime == "image/png" || mime == "image/jpeg" || mime == "image/webp" || mime == "image/gif"
              || mime == "text/plain" || mime == "text/markdown" || mime == "text/csv" || mime == "text/html"
  {
  }

  predicate OneFile(s: State, s': State, id: string) {
    && s'.limit == s.limit && id in s'.files && s'.files.Keys == s.files.Keys + {id}
    && forall other :: other in s.files && other != id ==> s'.files[other] == s.files[other]
  }

  /** The scan of a file that waits for it: ready when its type is allowed and its bytes
      fit, rejected when not, and back in the queue when the bytes could not be read. */
  lemma ScanExactly(s: State, sniff: Sniff)
    requires s.scanQueue != []
    requires var id := s.scanQueue[|s.scanQueue| - 1];
             id in s.files && s.files[id].status == Scanning && s.files[id].key != ""
    ensures var front := s.scanQueue[..|s.scanQueue| - 1];
            var id := s.scanQueue[|s.scanQueue| - 1];
            var f := s.files[id];
            var s' := Apply(s, DoScan(sniff));
            var allowed := f.mime in ALLOWED;
            var fits :=
              sniff == NoStorage
              || (sniff.Sniffed?
                  && var m := sniff.mime;
                  if f.mime == "application/pdf" then m == "application/pdf"
                  else if |f.mime| >= 6 && f.mime[..6] == "image/" then |m| >= 6 && m[..6] == "image/"
                  else if f.mime == "text/html" then m == "text/html" || m == "text/plain"
                  else if f.mime == "application/json" || (|f.mime| >= 5 && f.mime[..5] == "text/") then
                    |m| >= 5 && m[..5] == "text/"
                  else false);
            && OneFile(s, s', id) && s'.issued == s.issued
            && (s'.files[id] == f.(status := Ready) <==> allowed && fits)
            && (s'.files[id] == f.(status := Rejected) <==> !allowed || (sniff != ReadError && !fits))
            && (s'.files[id] == f <==> allowed && sniff == ReadError)
            && s'.scanQueue == (if s'.files[id].status == Scanning then [id] + front else front)
            && s'.deleteLog == (if s'.files[id].status == Rejected then [f.key] + s.deleteLog else s.deleteLog)
            && s'.used == (if s'.files[id].status == Rejected && f.tenant in s.used
                           then s.used[f.tenant := Clamp0(s.used[f.tenant] - f.size)] else s.used)
  {
  }

  /** A message for a file that is deleted, expired or purged is dropped. */
  lemma StaleScanExactly(s: State, sniff: Sniff)
    requires s.scanQueue != []
    requires var id := s.scanQueue[|s.scanQueue| - 1];
             id !in s.files || s.files[id].status == Deleted || s.files[id].status == Expired
    ensures Apply(s, DoScan(sniff)) == s.(scanQueue := s.scanQueue[..|s.scanQueue| - 1])
  {
  }

  /** An upload of an allowed type within the limit is charged and waits for its scan;
      one whose store write fails stays uploaded and is not charged. */
  lemma UploadExactly(s: State, tenant: string, instance: string, id: string, size: nat, mime: string,
                      expiry: Expiry, putOk: bool)
    requires id !in s.issued && id !in s.files && tenant in s.used && tenant in s.limit
    ensures var (s', r) := Upload(s, tenant, instance, id, size, mime, expiry, putOk);
            && Apply(s, DoUpload(tenant, instance, id, size, mime, expiry, putOk)) == s'
            && if mime in ALLOWED && s.used[tenant] + size <= s.limit[tenant] then
                 && OneFile(s, s', id) && s'.issued == s.issued + {id} && s'.deleteLog == s.deleteLog
                 && s'.files[id] == File(tenant, if putOk then Scanning else Uploaded, size, mime,
                                         tenant + "/" + instance + "/" + id + "/original", expiry)
                 && s'.scanQueue == (if putOk then [id] + s.scanQueue else s.scanQueue)
                 && s'.used == (if putOk then s.used[tenant := Clamp0(s.used[tenant] + size)] else s.used)
                 && r == if putOk then Done else Unavailable
               else s' == s && r == if mime !in ALLOWED then Unsupported else QuotaExceeded
  {
  }

  lemma PresignExactly(s: State, tenant: string, instance: string, id: string, bytes: int, mime: string,
                       expiry: Expiry)
    requires id !in s.issued && id !in s.files && tenant in s.used && tenant in s.limit
    ensures var (s', r) := Presign(s, tenant, instance, id, bytes, mime, expiry);
            && Apply(s, DoPresign(tenant, instance, id, bytes, mime, expiry)) == s'
            && if && bytes > 0 && mime in ALLOWED
                  && bytes <= s.limit[tenant] && s.used[tenant] + bytes <= s.limit[tenant]
               then
                 && s' == s.(files := s'.files, issued := s.issued + {id}) && OneFile(s, s', id)
                 && s'.files[id] == File(tenant, Uploading, bytes, mime,
                                         tenant + "/" + instance + "/" + id + "/original", expiry)
                 && r == Done
               else
                 && s' == s
                 && r == if bytes <= 0 then BadRequest else if mime !in ALLOWED then Unsupported else QuotaExceeded
  {
  }

  /** A completion counts the bytes that are really stored, not the promised ones; only
      without storage the claim is taken, and the promise when there is no claim. */
  lemma CompleteExactly(s: State, tenant: string, id: string, obj: Stored)
    requires tenant in s.used && tenant in s.limit
    ensures var (s', r) := Complete(s, tenant, id, obj);
            && Apply(s, DoComplete(tenant, id, obj)) == s'
            && if id !in s.files || s.files[id].tenant != tenant then s' == s && r == NotFound
               else if s.files[id].status != Uploading || obj == Missing || obj == WrongEtag then
                 s' == s && r == Conflict
               else
                 var f := s.files[id];
                 var size := if obj.Object? then obj.size else if obj.claimed > 0 then obj.claimed else f.size;
                 && OneFile(s, s', id) && s'.issued == s.issued
                 && if s.used[tenant] + size <= s.limit[tenant] then
                      && s'.files[id] == f.(status := Scanning, size := size) && s'.deleteLog == s.deleteLog
                      && s'.scanQueue == [id] + s.scanQueue
                      && s'.used == s.used[tenant := Clamp0(s.used[tenant] + size)]
                      && r == Done
                    else
                      && s'.files[id] == f.(status := Rejected)
                      && s'.deleteLog == (if f.key == "" then [] else [f.key]) + s.deleteLog
                      && s'.scanQueue == s.scanQueue && s'.used == s.used
                      && r == QuotaExceeded
  {
    assert [] + s.deleteLog == s.deleteLog;
  }

  lemma DeleteExactly(s: State, tenant: string, id: string)
    requires tenant in s.used
    ensures var (s', r) := Delete(s, tenant, id);
            && Apply(s, DoDelete(tenant, id)) == s'
            && if id in s.files && s.files[id].tenant == tenant then
                 && OneFile(s, s', id) && s'.issued == s.issued && s'.scanQueue == s.scanQueue
                 && s'.files[id] == s.files[id].(status := Deleted)
                 && s'.deleteLog == [s.files[id].key] + s.deleteLog
                 && s'.used == s.used[tenant := Clamp0(s.used[tenant] - s.files[id].size)]
                 && r == Done
               else s' == s && r == NotFound
  {
  }

  function ReversedKeys(files: map<string, File>, order: seq<string>): (keys: seq<string>)
    requires forall id :: id in order ==> id in files
    ensures |keys| == |order| && forall i :: 0 <= i < |order| ==> keys[i] == files[order[|order| - 1 - i]].key
  {
    seq(|order|, i requires 0 <= i < |order| => files[order[|order| - 1 - i]].key)
  }

  lemma ReversedSnoc(files: map<string, File>, front: seq<string>, id: string)
    requires id in files && forall x :: x in front ==> x in files
    ensures forall x :: x in front + [id] ==> x in files
    ensures ReversedKeys(files, front + [id]) == [files[id].key] + ReversedKeys(files, front)
  {
  }

  lemma {:induction false} QueuedKeys(files: map<string, File>, log: seq<string>, order: seq<string>)
    requires forall id :: id in order ==> id in files && files[id].key != ""
    ensures QueueRows(files, log, order) == ReversedKeys(files, order) + log
  {
    if order != [] {
      var front := order[..|order| - 1];
      QueuedKeys(files, log, front);
      assert order == front + [order[|order| - 1]];
      ReversedSnoc(files, front, order[|order| - 1]);
    }
  }

  /** order lists, each once, the files whose time has come and that are not finished. */
  predicate ListsDue(s: State, now: int, order: seq<string>) {
    && (forall i, j :: 0 <= i < j < |order| ==> order[i] != order[j])
    && (forall id :: id in order ==> id in s.files && s.files[id].expiry.Expires? && s.files[id].expiry.at <= now
                                     && s.files[id].status !in {Rejected, Expired, Deleted})
    && (forall id ::
          (id in s.files && s.files[id].expiry.Expires? && s.files[id].expiry.at <= now
           && s.files[id].status !in {Rejected, Expired, Deleted}) ==> id in order)
  }

  lemma SweepFires(s: State, now: int, order: seq<string>)
    ensures ListsDue(s, now, order) <==> DueRows(s, now, order)
  {
  }

  /** A sweep expires exactly these files, ... */
  lemma SweepExpires(s: State, now: int, order: seq<string>)
    requires ListsDue(s, now, order)
    ensures var s' := Apply(s, DoSweep(now, order));
            && s'.files.Keys == s.files.Keys && s'.limit == s.limit && s'.issued == s.issued
            && s'.scanQueue == s.scanQueue
            && forall id :: id in s.files ==>
                 s'.files[id] == if id in order then s.files[id].(status := Expired) else s.files[id]
  {
    SweepFires(s, now, order);
  }

  /** ... queues all their objects, ... */
  lemma SweepQueues(s: State, now: int, order: seq<string>)
    requires ListsDue(s, now, order) && KeysPresent(s.files)
    ensures Apply(s, DoSweep(now, order)).deleteLog == ReversedKeys(s.files, order) + s.deleteLog
  {
    SweepFires(s, now, order);
    QueuedKeys(s.files, s.deleteLog, order);
  }

  /** ... and gives back their bytes, as far as the ledger goes. */
  lemma SweepReleases(s: State, now: int, order: seq<string>, tenant: string)
    requires ListsDue(s, now, order) && tenant in s.used && s.used[tenant] >= 0
    ensures var s' := Apply(s, DoSweep(now, order));
            && s'.used.Keys == s.used.Keys
            && s'.used[tenant] == Clamp0(s.used[tenant] - RowBytes(s.files, order, tenant))
  {
    SweepFires(s, now, order);
    ReleaseKeepsKeys(s.files, s.used, order);
    ReleasedInOne(s.files, s.used, order, tenant);
  }

  /** A purge removes the tenant's files, empties its ledger and queues their objects. */
  lemma PurgeExactly(s: State, tenant: string, keys: seq<string>)
    requires tenant in s.used
    requires forall k :: k in keys <==>
               k != "" && exists id :: id in s.files && s.files[id].tenant == tenant && s.files[id].key == k
    ensures var s' := Apply(s, DoPurge(tenant, keys));
            && (forall id :: id in s'.files <==> id in s.files && s.files[id].tenant != tenant)
            && (forall id :: id in s'.files ==> s'.files[id] == s.files[id])
            && s'.used == s.used[tenant := 0] && s'.limit == s.limit && s'.issued == s.issued
            && s'.scanQueue == s.scanQueue && s'.deleteLog == keys + s.deleteLog
  {
    assert Allowed(s, DoPurge(tenant, keys));
  }

  // ---- No object is forgotten ----

  lemma StepKeepsObject(s: State, e: Event, id: string)
    requires Inv(s) && id in s.files
    ensures var s' := Apply(s, e);
            || (id in s'.files && s'.files[id].key == s.files[id].key)
            || s.files[id].key in s'.deleteLog
  {
    assert s.files[id].key != "";
  }

  lemma LogGrows(s: State, e: Event, key: string)
    requires Inv(s) && key in s.deleteLog
    ensures key in Apply(s, e).deleteLog
  {
    if e.DoSweep? && DueRows(s, e.now, e.order) { QueueRowsAdds(s.files, s.deleteLog, e.order); }
  }

  /** Whatever becomes of a file, its object is still its row's, or was handed to the
      delete queue; so a file that is finished or purged leaves no object behind. */
  lemma {:induction false} ObjectKept(s: State, es: seq<Event>, id: string)
    requires Inv(s) && id in s.files
    ensures var s' := RunFrom(s, es);
            && Inv(s')
            && (s.files[id].key in s'.deleteLog || (id in s'.files && s'.files[id].key == s.files[id].key))
            && (id !in s'.files || s'.files[id].status in {Rejected, Expired, Deleted} ==>
                  s.files[id].key in s'.deleteLog)
  {
    if es != [] {
      var before := RunFrom(s, es[..|es| - 1]);
      var e := es[|es| - 1];
      ObjectKept(s, es[..|es| - 1], id);
      StepKeepsInv(before, e);
      if s.files[id].key in before.deleteLog {
        LogGrows(before, e, s.files[id].key);
      } else {
        StepKeepsObject(before, e, id);
      }
    }
  }
}
