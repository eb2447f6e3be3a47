// Link freezes: individual ones by a moderator, and tagged ones that come with a
// tenant suspension or an instance freeze and are lifted with it.

module LinkTable {

  datatype Stamp = Null | Stamped(t: int)

  datatype Reason = NoReason | Because(text: string)

  datatype InstanceRef = NoInstance | OfInstance(id: string)

  /** A preview link row, as far as its admission state goes. */
  datatype Link = Link(
    tenant: string, instance: InstanceRef, file: string, expiresAt: Stamp,
    frozenAt: Stamp, frozenReason: Reason, revokedAt: Stamp)

  datatype Instance = Instance(tenant: string, frozen: bool)

  datatype Tables = Tables(
    links: map<string, Link>,
    instances: map<string, Instance>,
    suspended: map<string, bool>)

  /** A field of an update that may be left out. */
  datatype Field<T> = Keep | Set(value: T)

  /** LinkUpdate; other is set when a display name or an access policy is supplied. */
  datatype LinkUpdate = LinkUpdate(file: Field<string>, expiresAt: Field<int>, other: bool)

  function Updated(l: Link, u: LinkUpdate): Link {
    l.(file := if u.file.Set? then u.file.value else l.file,
       expiresAt := if u.expiresAt.Set? then Stamped(u.expiresAt.value) else l.expiresAt)
  }

  const SUSPENDED: string := "tenant_suspended"
  const INSTANCE_FROZEN: string := "instance_frozen"

  datatype Scope = TenantScope(tenant: string) | InstanceScope(tenant: string, instance: string)

  predicate InScope(l: Link, sc: Scope) {
    match sc
    case TenantScope(t) => l.tenant == t
    case InstanceScope(t, i) => l.tenant == t && l.instance == OfInstance(i)
  }

  function Frozen(l: Link, reason: string, now: int): Link {
    l.(frozenAt := Stamped(now), frozenReason := Because(reason))
  }

  function Thawed(l: Link): Link { l.(frozenAt := Null, frozenReason := NoReason) }

  /** FreezeTenantLinks and FreezeInstanceLinks: every live link in scope. */
  function FreezeScope(links: map<string, Link>, sc: Scope, tag: string, now: int): map<string, Link> {
    map id | id in links ::
      if InScope(links[id], sc) && links[id].frozenAt.Null? then Frozen(links[id], tag, now) else links[id]
  }

  predicate Tagged(l: Link, sc: Scope, tag: string) {
    InScope(l, sc) && l.frozenAt.Stamped? && l.frozenReason == Because(tag)
  }

  /** UnfreezeTenantLinks and UnfreezeInstanceLinks: only the freezes with this tag. */
  function LiftScope(links: map<string, Link>, sc: Scope, tag: string): map<string, Link> {
    map id | id in links :: if Tagged(links[id], sc, tag) then Thawed(links[id]) else links[id]
  }

  datatype Event =
    | CreateLink(id: string, tenant: string, instance: InstanceRef, file: string, expiresAt: Stamp)
    | FreezeLink(tenant: string, id: string, reason: string, now: int)
    | UnfreezeLink(tenant: string, id: string)
    | RevokeLink(tenant: string, id: string, now: int)
    | UpdateLink(tenant: string, id: string, update: LinkUpdate)
    | CreateInstance(tenant: string, instanceId: string)
    | DeleteInstance(instanceId: string)
    | FreezeInstance(tenant: string, instanceId: string, now: int)
    | UnfreezeInstance(tenant: string, instanceId: string)
    | Suspend(tenant: string, now: int)
    | Restore(tenant: string)
    | Purge(tenant: string)

  /** The row exists and belongs to the tenant. */
  predicate Owned(s: Tables, tenant: string, id: string) { id in s.links && s.links[id].tenant == tenant }

  predicate OwnedInstance(s: Tables, tenant: string, i: string) { i in s.instances && s.instances[i].tenant == tenant }

  function SetInstance(s: Tables, i: string, frozen: bool): Tables
    requires i in s.instances
  {
    s.(instances := s.instances[i := s.instances[i].(frozen := frozen)])
  }

  function Apply(s: Tables, e: Event): Tables {
    match e
    case CreateLink(id, tenant, instance, file, expiresAt) =>
      if tenant !in s.suspended || id in s.links then s
      else if instance.OfInstance? && !OwnedInstance(s, tenant, instance.id) then s
      else s.(links := s.links[id := Link(tenant, instance, file, expiresAt, Null, NoReason, Null)])
    case FreezeLink(tenant, id, reason, now) =>
      if !Owned(s, tenant, id) || !s.links[id].frozenAt.Null? then s
      else s.(links := s.links[id := Frozen(s.links[id], reason, now)])
    case UnfreezeLink(tenant, id) =>
      if !Owned(s, tenant, id) || s.links[id].frozenAt.Null? then s
      else s.(links := s.links[id := Thawed(s.links[id])])
    case RevokeLink(tenant, id, now) =>
      if !Owned(s, tenant, id) || !s.links[id].revokedAt.Null? then s
      else s.(links := s.links[id := s.links[id].(revokedAt := Stamped(now))])
    case UpdateLink(tenant, id, update) =>
      if !Owned(s, tenant, id) || !s.links[id].revokedAt.Null? then s
      else s.(links := s.links[id := Updated(s.links[id], update)])
    case CreateInstance(tenant, i) =>
      if i in s.instances then s else s.(instances := s.instances[i := Instance(tenant, false)])
    case DeleteInstance(i) =>
      s.(instances := s.instances - {i},
         links := map id | id in s.links ::
                    if s.links[id].instance == OfInstance(i) then s.links[id].(instance := NoInstance) else s.links[id])
    case FreezeInstance(tenant, i, now) =>
      if !OwnedInstance(s, tenant, i) || s.instances[i].frozen then s
      else SetInstance(s, i, true).(links := FreezeScope(s.links, InstanceScope(tenant, i), INSTANCE_FROZEN, now))
    case UnfreezeInstance(tenant, i) =>
      if !OwnedInstance(s, tenant, i) || !s.instances[i].frozen then s
      else SetInstance(s, i, false).(links := LiftScope(s.links, InstanceScope(tenant, i), INSTANCE_FROZEN))
    case Suspend(tenant, now) =>
      if tenant !in s.suspended then s
      else s.(suspended := s.suspended[tenant := true],
              links := FreezeScope(s.links, TenantScope(tenant), SUSPENDED, now))
    case Restore(tenant) =>
      if tenant !in s.suspended then s
      else s.(suspended := s.suspended[tenant := false],
              links := LiftScope(s.links, TenantScope(tenant), SUSPENDED))
    case Purge(tenant) =>
      s.(links := map id | id in s.links && s.links[id].tenant != tenant :: s.links[id])
  }

  function Run(s: Tables, es: seq<Event>): Tables {
    if es == [] then s else Apply(Run(s, es[..|es| - 1]), es[|es| - 1])
  }
}

module LinkStore {
  import opened LinkTable

  /** The store methods behind the moderation and admin handlers. */
  class Store {
    var links: map<string, Link>
    var instances: map<string, Instance>
    var suspended: map<string, bool>

    ghost function View(): Tables
      reads this
    {
      Tables(links, instances, suspended)
    }

    constructor ()
      ensures View() == Tables(map[], map[], map[])
    {
      links, instances, suspended := map[], map[], map[];
    }

    /** One UPDATE over all rows of a scope. */
    method FreezeRows(sc: Scope, reason: string, now: int) returns (affected: nat)
      modifies this`links
      ensures links == FreezeScope(old(links), sc, reason, now)
      ensures affected == |set id | id in old(links) && InScope(old(links)[id], sc) && old(links)[id].frozenAt.Null?|
    {
      var hit := set id | id in links && InScope(links[id], sc) && links[id].frozenAt.Null?;
      affected := |hit|;
      links := map id | id in links :: if id in hit then Frozen(links[id], reason, now) else links[id];
    }

    method UnfreezeRows(sc: Scope, reason: string) returns (affected: nat)
      modifies this`links
      ensures links == LiftScope(old(links), sc, reason)
      ensures affected == |set id | id in old(links) && Tagged(old(links)[id], sc, reason)|
    {
      var hit := set id | id in links && Tagged(links[id], sc, reason);
      affected := |hit|;
      links := map id | id in links :: if id in hit then Thawed(links[id]) else links[id];
    }

    method HandleFreezeLink(tenant: string, id: string, reason: string, now: int) returns (ok: bool)
      modifies this`links
      ensures View() == Apply(old(View()), FreezeLink(tenant, id, reason, now))
      ensures ok <==> id in old(links) && old(links)[id].tenant == tenant && old(links)[id].frozenAt.Null?
    {
      if id !in links || links[id].tenant != tenant || links[id].frozenAt.Stamped? { return false; }
      links := links[id := links[id].(frozenAt := Stamped(now), frozenReason := Because(reason))];
      return true;
    }

    method HandleUnfreezeLink(tenant: string, id: string) returns (ok: bool)
      modifies this`links
      ensures View() == Apply(old(View()), UnfreezeLink(tenant, id))
      ensures ok <==> id in old(links) && old(links)[id].tenant == tenant && old(links)[id].frozenAt.Stamped?
    {
      if id !in links || links[id].tenant != tenant || links[id].frozenAt.Null? { return false; }
      links := links[id := links[id].(frozenAt := Null, frozenReason := NoReason)];
      return true;
    }

    method RevokeLink(tenant: string, id: string, now: int) returns (ok: bool)
      modifies this`links
      ensures View() == Apply(old(View()), LinkTable.RevokeLink(tenant, id, now))
      ensures ok <==> id in old(links) && old(links)[id].tenant == tenant && old(links)[id].revokedAt.Null?
    {
      if id !in links || links[id].tenant != tenant || links[id].revokedAt.Stamped? { return false; }
      links := links[id := links[id].(revokedAt := Stamped(now))];
      return true;
    }

    /** An update without any field succeeds whatever the link. */
    method UpdateLink(tenant: string, id: string, u: LinkUpdate) returns (ok: bool)
      modifies this`links
      ensures View() == Apply(old(View()), LinkTable.UpdateLink(tenant, id, u))
      ensures ok <==>
                || u == LinkUpdate(Keep, Keep, false)
                || (id in old(links) && old(links)[id].tenant == tenant && old(links)[id].revokedAt == Null)
    {
      if u.file.Keep? && u.expiresAt.Keep? && !u.other { return true; }
      if id !in links || links[id].tenant != tenant || links[id].revokedAt.Stamped? { return false; }
      var l := links[id];
      if u.file.Set? { l := l.(file := u.file.value); }
      if u.expiresAt.Set? { l := l.(expiresAt := Stamped(u.expiresAt.value)); }
      links := links[id := l];
      return true;
    }

    method HandleFreezeInstance(tenant: string, i: string, now: int) returns (ok: bool)
      modifies this
      ensures View() == Apply(old(View()), FreezeInstance(tenant, i, now))
      ensures ok <==> OwnedInstance(old(View()), tenant, i) && !old(instances)[i].frozen
    {
      if i !in instances || instances[i].tenant != tenant || instances[i].frozen { return false; }
      instances := instances[i := instances[i].(frozen := true)];
      var _ := FreezeRows(InstanceScope(tenant, i), INSTANCE_FROZEN, now);
      return true;
    }

    method HandleUnfreezeInstance(tenant: string, i: string) returns (ok: bool)
      modifies this
      ensures View() == Apply(old(View()), UnfreezeInstance(tenant, i))
      ensures ok <==> OwnedInstance(old(View()), tenant, i) && old(instances)[i].frozen
    {
      if i !in instances || instances[i].tenant != tenant || !instances[i].frozen { return false; }
      instances := instances[i := instances[i].(frozen := false)];
      var _ := UnfreezeRows(InstanceScope(tenant, i), INSTANCE_FROZEN);
      return true;
    }

    method HandleAdminSuspend(tenant: string, now: int) returns (ok: bool)
      modifies this
      ensures View() == Apply(old(View()), Suspend(tenant, now))
      ensures ok <==> tenant in old(suspended)
    {
      if tenant !in suspended { return false; }
      suspended := suspended[tenant := true];
      var _ := FreezeRows(TenantScope(tenant), SUSPENDED, now);
      return true;
    }

    method HandleAdminRestore(tenant: string) returns (ok: bool)
      modifies this
      ensures View() == Apply(old(View()), Restore(tenant))
      ensures ok <==> tenant in old(suspended)
    {
      if tenant !in suspended { return false; }
      suspended := suspended[tenant := false];
      var _ := UnfreezeRows(TenantScope(tenant), SUSPENDED);
      return true;
    }
  }
}

/** What each step does, row by row and in the stored columns. */
module LinkEffects {
  import opened LinkTable

  /** The row as it was, but frozen. */
  predicate FrozenWith(l: Link, l': Link, now: int, reason: string) {
    && l'.frozenAt == Stamped(now) && l'.frozenReason == Because(reason)
    && l'.tenant == l.tenant && l'.instance == l.instance && l'.file == l.file
    && l'.expiresAt == l.expiresAt && l'.revokedAt == l.revokedAt
  }

  /** The row as it was, but not frozen. */
  predicate ThawedFrom(l: Link, l': Link) {
    && l'.frozenAt == Null && l'.frozenReason == NoReason
    && l'.tenant == l.tenant && l'.instance == l.instance && l'.file == l.file
    && l'.expiresAt == l.expiresAt && l'.revokedAt == l.revokedAt
  }

  /** A suspension freezes every live link of the tenant, and changes no other row. */
  lemma SuspendExactly(s: Tables, tenant: string, now: int)
    ensures tenant !in s.suspended ==> Apply(s, Suspend(tenant, now)) == s
    ensures var s' := Apply(s, Suspend(tenant, now));
            tenant in s.suspended ==>
            && s'.suspended == s.suspended[tenant := true] && s'.instances == s.instances
            && s'.links.Keys == s.links.Keys
            && forall id :: id in s.links ==>
                 if s.links[id].tenant == tenant && s.links[id].frozenAt == Null
                 then FrozenWith(s.links[id], s'.links[id], now, "tenant_suspended")
                 else s'.links[id] == s.links[id]
  {
  }

  /** A restore thaws the tenant's links that a suspension froze, and no other. */
  lemma RestoreExactly(s: Tables, tenant: string)
    ensures tenant !in s.suspended ==> Apply(s, Restore(tenant)) == s
    ensures var s' := Apply(s, Restore(tenant));
            tenant in s.suspended ==>
            && s'.suspended == s.suspended[tenant := false] && s'.instances == s.instances
            && s'.links.Keys == s.links.Keys
            && forall id :: id in s.links ==>
                 if s.links[id].tenant == tenant && s.links[id].frozenAt != Null
                    && s.links[id].frozenReason == Because("tenant_suspended")
                 then ThawedFrom(s.links[id], s'.links[id])
                 else s'.links[id] == s.links[id]
  {
  }

  /** Freezing an instance that is not frozen freezes every live link of it. */
  lemma FreezeInstanceExactly(s: Tables, tenant: string, i: string, now: int)
    ensures var s' := Apply(s, FreezeInstance(tenant, i, now));
            if i in s.instances && s.instances[i] == Instance(tenant, false) then
              && s'.suspended == s.suspended && s'.instances == s.instances[i := Instance(tenant, true)]
              && s'.links.Keys == s.links.Keys
              && forall id :: id in s.links ==>
                   if s.links[id].tenant == tenant && s.links[id].instance == OfInstance(i)
                      && s.links[id].frozenAt == Null
                   then FrozenWith(s.links[id], s'.links[id], now, "instance_frozen")
                   else s'.links[id] == s.links[id]
            else s' == s
  {
  }

  lemma UnfreezeInstanceExactly(s: Tables, tenant: string, i: string)
    ensures var s' := Apply(s, UnfreezeInstance(tenant, i));
            if i in s.instances && s.instances[i] == Instance(tenant, true) then
              && s'.suspended == s.suspended && s'.instances == s.instances[i := Instance(tenant, false)]
              && s'.links.Keys == s.links.Keys
              && forall id :: id in s.links ==>
                   if s.links[id].tenant == tenant && s.links[id].instance == OfInstance(i)
                      && s.links[id].frozenAt != Null && s.links[id].frozenReason == Because("instance_frozen")
                   then ThawedFrom(s.links[id], s'.links[id])
                   else s'.links[id] == s.links[id]
            else s' == s
  {
  }

  /** A step on one link: that row alone, and nothing when it is not the tenant's. */
  predicate OneRow(s: Tables, s': Tables, id: string) {
    && s'.suspended == s.suspended && s'.instances == s.instances
    && id in s.links && s'.links.Keys == s.links.Keys
    && forall other :: other in s.links && other != id ==> s'.links[other] == s.links[other]
  }

  lemma FreezeLinkExactly(s: Tables, tenant: string, id: string, reason: string, now: int)
    ensures var s' := Apply(s, FreezeLink(tenant, id, reason, now));
            if id in s.links && s.links[id].tenant == tenant && s.links[id].frozenAt == Null then
              OneRow(s, s', id) && FrozenWith(s.links[id], s'.links[id], now, reason)
            else s' == s
  {
  }

  lemma UnfreezeLinkExactly(s: Tables, tenant: string, id: string)
    ensures var s' := Apply(s, UnfreezeLink(tenant, id));
            if id in s.links && s.links[id].tenant == tenant && s.links[id].frozenAt != Null then
              OneRow(s, s', id) && ThawedFrom(s.links[id], s'.links[id])
            else s' == s
  {
  }

  /** A revocation stamps the link, and nothing unstamps it. */
  lemma RevokeExactly(s: Tables, tenant: string, id: string, now: int)
    ensures var s' := Apply(s, RevokeLink(tenant, id, now));
            if id in s.links && s.links[id].tenant == tenant && s.links[id].revokedAt == Null then
              OneRow(s, s', id) && s'.links[id] == s.links[id].(revokedAt := Stamped(now))
            else s' == s
  {
  }

  lemma UpdateExactly(s: Tables, tenant: string, id: string, u: LinkUpdate)
    ensures var s' := Apply(s, UpdateLink(tenant, id, u));
            if id in s.links && s.links[id].tenant == tenant && s.links[id].revokedAt == Null then
              && OneRow(s, s', id)
              && s'.links[id].file == (match u.file case Keep => s.links[id].file case Set(f) => f)
              && s'.links[id].expiresAt
                   == (match u.expiresAt case Keep => s.links[id].expiresAt case Set(t) => Stamped(t))
              && s'.links[id].(file := s.links[id].file, expiresAt := s.links[id].expiresAt) == s.links[id]
            else s' == s
  {
  }

  lemma CreateLinkExactly(s: Tables, id: string, tenant: string, instance: InstanceRef, file: string, expiresAt: Stamp)
    ensures var s' := Apply(s, CreateLink(id, tenant, instance, file, expiresAt));
            if && tenant in s.suspended && id !in s.links
               && (instance == NoInstance
                   || exists i :: i in s.instances && instance == OfInstance(i) && s.instances[i].tenant == tenant)
            then
              s' == s.(links := s.links[id := Link(tenant, instance, file, expiresAt, Null, NoReason, Null)])
            else s' == s
  {
  }

  /** Deleting an instance unties its links; a purge removes the tenant's links. */
  lemma RemovalsExactly(s: Tables, i: string, tenant: string)
    ensures var s' := Apply(s, DeleteInstance(i));
            && s'.suspended == s.suspended && s'.instances == s.instances - {i} && s'.links.Keys == s.links.Keys
            && forall id :: id in s.links ==>
                 s'.links[id] == if s.links[id].instance == OfInstance(i) then s.links[id].(instance := NoInstance)
                                 else s.links[id]
    ensures var s' := Apply(s, Purge(tenant));
            && s'.suspended == s.suspended && s'.instances == s.instances
            && forall id :: (id in s'.links <==> id in s.links && s.links[id].tenant != tenant)
                            && (id in s'.links ==> s'.links[id] == s.links[id])
  {
  }

  lemma CreateInstanceExactly(s: Tables, tenant: string, i: string)
    ensures Apply(s, CreateInstance(tenant, i))
         == if i in s.instances then s else s.(instances := s.instances[i := Instance(tenant, false)])
  {
  }

  // ---- How long a freeze or a revocation lasts ----

  /** The three steps that may end a suspension's freeze of a link. */
  predicate EndsSuspension(e: Event, id: string, tenant: string) {
    e == Restore(tenant) || e == UnfreezeLink(tenant, id) || e == Purge(tenant)
  }

  predicate HeldBySuspension(s: Tables, id: string, tenant: string, now: int) {
    && id in s.links && s.links[id].tenant == tenant
    && s.links[id].frozenAt == Stamped(now) && s.links[id].frozenReason == Because("tenant_suspended")
  }

  lemma StepHoldsSuspension(s: Tables, e: Event, id: string, tenant: string, now: int)
    requires HeldBySuspension(s, id, tenant, now) && !EndsSuspension(e, id, tenant)
    ensures HeldBySuspension(Apply(s, e), id, tenant, now)
  {
  }

  lemma {:induction false} SuspensionStays(s: Tables, es: seq<Event>, id: string, tenant: string, now: int)
    requires HeldBySuspension(s, id, tenant, now)
    requires forall i :: 0 <= i < |es| ==> !EndsSuspension(es[i], id, tenant)
    ensures HeldBySuspension(Run(s, es), id, tenant, now)
  {
    if es != [] {
      SuspensionStays(s, es[..|es| - 1], id, tenant, now);
      StepHoldsSuspension(Run(s, es[..|es| - 1]), es[|es| - 1], id, tenant, now);
    }
  }

  /** A link that is live when its tenant is suspended is frozen from then on, through
      every run, until the restore, its own unfreeze or a purge. */
  lemma SuspensionHolds(s: Tables, tenant: string, now: int, es: seq<Event>, id: string)
    requires tenant in s.suspended && id in s.links
    requires s.links[id].tenant == tenant && s.links[id].frozenAt == Null
    requires forall i :: 0 <= i < |es| ==> !EndsSuspension(es[i], id, tenant)
    ensures HeldBySuspension(Run(Apply(s, Suspend(tenant, now)), es), id, tenant, now)
  {
    SuspendExactly(s, tenant, now);
    SuspensionStays(Apply(s, Suspend(tenant, now)), es, id, tenant, now);
  }

  predicate EndsInstanceFreeze(e: Event, id: string, tenant: string, i: string) {
    e == UnfreezeInstance(tenant, i) || e == UnfreezeLink(tenant, id) || e == Purge(tenant)
  }

  predicate HeldByInstance(s: Tables, id: string, tenant: string, i: string, now: int) {
    && id in s.links && s.links[id].tenant == tenant
    && (s.links[id].instance == OfInstance(i) || s.links[id].instance == NoInstance)
    && s.links[id].frozenAt == Stamped(now) && s.links[id].frozenReason == Because("instance_frozen")
  }

  lemma StepHoldsInstance(s: Tables, e: Event, id: string, tenant: string, i: string, now: int)
    requires HeldByInstance(s, id, tenant, i, now) && !EndsInstanceFreeze(e, id, tenant, i)
    ensures HeldByInstance(Apply(s, e), id, tenant, i, now)
  {
  }

  lemma {:induction false} InstanceFreezeStays(s: Tables, es: seq<Event>, id: string, tenant: string,
                                               i: string, now: int)
    requires HeldByInstance(s, id, tenant, i, now)
    requires forall k :: 0 <= k < |es| ==> !EndsInstanceFreeze(es[k], id, tenant, i)
    ensures HeldByInstance(Run(s, es), id, tenant, i, now)
  {
    if es != [] {
      InstanceFreezeStays(s, es[..|es| - 1], id, tenant, i, now);
      StepHoldsInstance(Run(s, es[..|es| - 1]), es[|es| - 1], id, tenant, i, now);
    }
  }

  /** The same for an instance freeze, also when the instance is deleted meanwhile. */
  lemma InstanceFreezeHolds(s: Tables, tenant: string, i: string, now: int, es: seq<Event>, id: string)
    requires i in s.instances && s.instances[i] == Instance(tenant, false)
    requires id in s.links && s.links[id].tenant == tenant && s.links[id].instance == OfInstance(i)
    requires s.links[id].frozenAt == Null
    requires forall k :: 0 <= k < |es| ==> !EndsInstanceFreeze(es[k], id, tenant, i)
    ensures HeldByInstance(Run(Apply(s, FreezeInstance(tenant, i, now)), es), id, tenant, i, now)
  {
    FreezeInstanceExactly(s, tenant, i, now);
    InstanceFreezeStays(Apply(s, FreezeInstance(tenant, i, now)), es, id, tenant, i, now);
  }

  /** A revoked link stays revoked, at the same instant, until it is purged. */
  lemma {:induction false} RevokedForGood(s: Tables, es: seq<Event>, id: string, now: int)
    requires id in s.links && s.links[id].revokedAt == Stamped(now)
    requires forall i :: 0 <= i < |es| ==> es[i] != Purge(s.links[id].tenant)
    ensures var s' := Run(s, es);
            id in s'.links && s'.links[id].revokedAt == Stamped(now) && s'.links[id].tenant == s.links[id].tenant
  {
    if es != [] {
      RevokedForGood(s, es[..|es| - 1], id, now);
      assert es[|es| - 1] != Purge(s.links[id].tenant);
    }
  }
}

module Freezes {
  import opened LinkTable

  /** A link has a freeze reason exactly while it is frozen, its tenant exists, and its
      instance is a row of that tenant. */
  ghost predicate Consistent(s: Tables) {
    forall id :: id in s.links ==>
      && (s.links[id].frozenAt.Null? <==> s.links[id].frozenReason.NoReason?)
      && s.links[id].tenant in s.suspended
      && (s.links[id].instance.OfInstance? ==> OwnedInstance(s, s.links[id].tenant, s.links[id].instance.id))
  }

  lemma StepKeepsConsistent(s: Tables, e: Event)
    requires Consistent(s)
    ensures Consistent(Apply(s, e))
  {
  }

  lemma {:induction false} RunKeepsConsistent(s: Tables, es: seq<Event>)
    requires Consistent(s)
    ensures Consistent(Run(s, es))
  {
    if es != [] {
      RunKeepsConsistent(s, es[..|es| - 1]);
      StepKeepsConsistent(Run(s, es[..|es| - 1]), es[|es| - 1]);
    }
  }

  // ---- A tagged freeze and its lift ----

  /** Freezing a scope with a tag and lifting that tag gives back the very same table
      exactly when no link in scope carried the tag before. */
  lemma FreezeThenLift(s: Tables, sc: Scope, tag: string, now: int)
    requires Consistent(s)
    ensures LiftScope(FreezeScope(s.links, sc, tag, now), sc, tag) == s.links
       <==> forall id :: id in s.links ==> !Tagged(s.links[id], sc, tag)
  {
    var after := LiftScope(FreezeScope(s.links, sc, tag, now), sc, tag);
    if after == s.links {
      forall id | id in s.links ensures !Tagged(s.links[id], sc, tag) {
        assert after[id] == s.links[id];
      }
    } else {
      assert after.Keys == s.links.Keys;
      var id :| id in s.links && after[id] != s.links[id];
      assert Tagged(s.links[id], sc, tag);
    }
  }

  // ---- Individual freezes ----

  /** A step that is meant to end a link's freeze, or removes the link. */
  predicate Releases(e: Event, id: string, tenant: string) {
    || (e.UnfreezeLink? && e.id == id && e.tenant == tenant)
    || (e.Purge? && e.tenant == tenant)
  }

  /** The freeze carries no tag that some other step lifts. */
  predicate Independent(l: Link) {
    && l.frozenAt.Stamped?
    && l.frozenReason != Because(SUSPENDED)
    && (l.frozenReason == Because(INSTANCE_FROZEN) ==> l.instance.NoInstance?)
  }

  predicate SameFreeze(a: Link, b: Link) {
    a.tenant == b.tenant && a.frozenAt == b.frozenAt && a.frozenReason == b.frozenReason
  }

  lemma StepKeepsFreeze(s: Tables, e: Event, id: string)
    requires id in s.links && Independent(s.links[id]) && !Releases(e, id, s.links[id].tenant)
    ensures var s' := Apply(s, e); id in s'.links && Independent(s'.links[id]) && SameFreeze(s.links[id], s'.links[id])
  {
  }

  /** An individual freeze survives every run of suspensions, restores, instance freezes
      and unfreezes, updates, revocations and the rest, until its own unfreeze or a purge. */
  lemma {:induction false} FreezeSurvives(s: Tables, es: seq<Event>, id: string)
    requires id in s.links && Independent(s.links[id])
    requires forall i :: 0 <= i < |es| ==> !Releases(es[i], id, s.links[id].tenant)
    ensures var s' := Run(s, es);
            id in s'.links && Independent(s'.links[id]) && SameFreeze(s.links[id], s'.links[id])
  {
    if es != [] {
      FreezeSurvives(s, es[..|es| - 1], id);
      StepKeepsFreeze(Run(s, es[..|es| - 1]), es[|es| - 1], id);
    }
  }

  ghost predicate SurvivesAll(s: Tables, id: string)
    requires id in s.links
  {
    forall es :: (forall i :: 0 <= i < |es| ==> !Releases(es[i], id, s.links[id].tenant)) ==>
      id in Run(s, es).links && SameFreeze(s.links[id], Run(s, es).links[id])
  }

  lemma RunOne(s: Tables, e: Event)
    ensures Run(s, [e]) == Apply(s, e)
  {
    assert [e][..0] == [];
  }

  lemma RunTwo(s: Tables, e: Event, f: Event)
    ensures Run(s, [e, f]) == Apply(Apply(s, e), f)
  {
    assert [e, f][..1] == [e];
    RunOne(s, e);
  }

  lemma LostByOne(s: Tables, id: string, e: Event)
    requires id in s.links && !Releases(e, id, s.links[id].tenant)
    requires id in Apply(s, e).links && !SameFreeze(s.links[id], Apply(s, e).links[id])
    ensures !SurvivesAll(s, id)
  {
    RunOne(s, e);
    assert forall i :: 0 <= i < |[e]| ==> !Releases([e][i], id, s.links[id].tenant);
  }

  lemma LostByTwo(s: Tables, id: string, e: Event, f: Event)
    requires id in s.links && !Releases(e, id, s.links[id].tenant) && !Releases(f, id, s.links[id].tenant)
    requires var s' := Apply(Apply(s, e), f); id in s'.links && !SameFreeze(s.links[id], s'.links[id])
    ensures !SurvivesAll(s, id)
  {
    RunTwo(s, e, f);
    assert forall i :: 0 <= i < |[e, f]| ==> !Releases([e, f][i], id, s.links[id].tenant);
  }

  /** A suspension's tag is lifted by a restore. */
  lemma SuspendedIsLost(s: Tables, id: string)
    requires Consistent(s) && id in s.links && s.links[id].frozenAt.Stamped?
    requires s.links[id].frozenReason == Because(SUSPENDED)
    ensures !SurvivesAll(s, id)
  {
    LostByOne(s, id, Restore(s.links[id].tenant));
  }

  /** An instance's tag is lifted by unfreezing the instance, freezing it first if
      need be. */
  lemma InstanceFrozenIsLost(s: Tables, id: string)
    requires Consistent(s) && id in s.links && s.links[id].frozenAt.Stamped?
    requires s.links[id].frozenReason == Because(INSTANCE_FROZEN) && s.links[id].instance.OfInstance?
    ensures !SurvivesAll(s, id)
  {
    var l := s.links[id];
    var i := l.instance.id;
    assert OwnedInstance(s, l.tenant, i);
    if s.instances[i].frozen {
      LostByOne(s, id, UnfreezeInstance(l.tenant, i));
    } else {
      FreezeKeepsFrozen(s, id, i);
      LostByTwo(s, id, FreezeInstance(l.tenant, i, 0), UnfreezeInstance(l.tenant, i));
    }
  }

  lemma FreezeKeepsFrozen(s: Tables, id: string, i: string)
    requires id in s.links && s.links[id].frozenAt.Stamped?
    requires OwnedInstance(s, s.links[id].tenant, i) && !s.instances[i].frozen
    ensures var s' := Apply(s, FreezeInstance(s.links[id].tenant, i, 0));
            && id in s'.links && s'.links[id] == s.links[id]
            && OwnedInstance(s', s.links[id].tenant, i) && s'.instances[i].frozen
  {
  }

  lemma IndependentSurvives(s: Tables, id: string)
    requires id in s.links && Independent(s.links[id])
    ensures SurvivesAll(s, id)
  {
    var l := s.links[id];
    forall es | forall i :: 0 <= i < |es| ==> !Releases(es[i], id, l.tenant)
      ensures id in Run(s, es).links && SameFreeze(l, Run(s, es).links[id])
    {
      FreezeSurvives(s, es, id);
    }
  }

  /** Which freezes survive: exactly the independent ones. A moderator who freezes with
      the text of a system tag makes a freeze that the system will lift. */
  lemma SurvivesIffIndependent(s: Tables, id: string)
    requires Consistent(s) && id in s.links && s.links[id].frozenAt.Stamped?
    ensures SurvivesAll(s, id) <==> Independent(s.links[id])
  {
    if Independent(s.links[id]) {
      IndependentSurvives(s, id);
    } else if s.links[id].frozenReason == Because(SUSPENDED) {
      SuspendedIsLost(s, id);
    } else {
      InstanceFrozenIsLost(s, id);
    }
  }

  // ---- How the two tags interact ----

  /** A freeze that finds the link already frozen leaves no tag of its own, so the
      earlier tag's lift revives a link whose instance is still frozen. */
  lemma RestoreCanReviveFrozenInstance()
    ensures var s0 := Tables(map["l" := Link("t", OfInstance("i"), "f", Null, Null, NoReason, Null)],
                             map["i" := Instance("t", false)], map["t" := false]);
            var s1 := Apply(s0, Suspend("t", 1));
            var s2 := Apply(s1, FreezeInstance("t", "i", 2));
            var s3 := Apply(s2, Restore("t"));
            s3.links["l"].frozenAt.Null? && s3.instances["i"].frozen
  {
    var l := Link("t", OfInstance("i"), "f", Null, Null, NoReason, Null);
    var s1 := Apply(Tables(map["l" := l], map["i" := Instance("t", false)], map["t" := false]), Suspend("t", 1));
    assert s1.links == map["l" := Frozen(l, SUSPENDED, 1)];
    var s2 := Apply(s1, FreezeInstance("t", "i", 2));
    assert s2.links == s1.links;
  }

  /** Every link of a frozen instance is frozen. */
  ghost predicate InstanceHeld(s: Tables, i: string) {
    i in s.instances && s.instances[i].frozen ==>
      forall id :: id in s.links && s.links[id].instance == OfInstance(i) ==> s.links[id].frozenAt.Stamped?
  }

  /** Restoring a tenant keeps its frozen instances' links frozen exactly when none of
      them is frozen by the suspension. */
  lemma RestoreHoldsInstanceIff(s: Tables, tenant: string, i: string)
    requires Consistent(s) && tenant in s.suspended && OwnedInstance(s, tenant, i) && s.instances[i].frozen
    requires InstanceHeld(s, i)
    ensures InstanceHeld(Apply(s, Restore(tenant)), i)
       <==> forall id | id in s.links && s.links[id].instance == OfInstance(i) ::
              s.links[id].frozenReason != Because(SUSPENDED)
  {
    var s' := Apply(s, Restore(tenant));
    if InstanceHeld(s', i) {
      forall id | id in s.links && s.links[id].instance == OfInstance(i)
        ensures s.links[id].frozenReason != Because(SUSPENDED)
      {
        assert s'.links[id].instance == OfInstance(i);
      }
    }
  }
}
