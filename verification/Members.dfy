// Tenant memberships: registration, invites, role changes and removals. Each
// handler is one atomic step.

module Membership {

  datatype Role = Viewer | Member | Admin | Owner

  datatype Row = Row(user: string, tenant: string, role: Role)

  datatype Invite = Invite(tenant: string, email: string, role: Role)

  /** members by membership id, invites by token, emails by user. */
  datatype State = State(
    members: map<string, Row>,
    invites: map<string, Invite>,
    emails: map<string, string>,
    tenants: set<string>)

  datatype Event =
    | Register(tenant: string, user: string, mail: string, id: string)
    | SendInvite(actor: string, tenant: string, mail: string, role: Role, token: string)
    | AcceptInvite(user: string, token: string, id: string)
    | ChangeRole(actor: string, tenant: string, id: string, role: Role)
    | Remove(actor: string, tenant: string, id: string)
    | Expire(token: string)

  function Rank(r: Role): int { match r case Viewer => 0 case Member => 1 case Admin => 2 case Owner => 3 }

  datatype Lookup = NoRole | HasRole(role: Role)

  /** The actor's role in a tenant: requireSession's MembershipFor. */
  ghost function RoleOf(s: State, user: string, tenant: string): Lookup {
    if exists id :: id in s.members && s.members[id].user == user && s.members[id].tenant == tenant then
      var id :| id in s.members && s.members[id].user == user && s.members[id].tenant == tenant;
      HasRole(s.members[id].role)
    else NoRole
  }

  /** requireRole(..., "admin"). */
  ghost predicate AtLeastAdmin(s: State, user: string, tenant: string) {
    RoleOf(s, user, tenant).HasRole? && Rank(RoleOf(s, user, tenant).role) >= Rank(Admin)
  }

  ghost predicate IsOwner(s: State, user: string, tenant: string) { RoleOf(s, user, tenant) == HasRole(Owner) }

  function Owners(members: map<string, Row>, tenant: string): set<string> {
    set id | id in members && members[id].tenant == tenant && members[id].role.Owner?
  }

  /** Taking the role away from this owner row would leave no owner. */
  predicate LosesLastOwner(s: State, tenant: string, id: string, role: Role)
    requires id in s.members
  {
    s.members[id].role == Owner && role != Owner && |Owners(s.members, tenant)| <= 1
  }

  predicate HasMembership(members: map<string, Row>, user: string, tenant: string) {
    exists id :: id in members && members[id].user == user && members[id].tenant == tenant
  }

  /** Generated ids and tokens are fresh. */
  predicate Fresh(s: State, e: Event) {
    match e
    case Register(tenant, user, mail, id) =>
      && id !in s.members && tenant !in s.tenants && user !in s.emails
      && (forall i :: i in s.members ==> s.members[i].tenant != tenant && s.members[i].user != user)
    case SendInvite(_, _, _, _, token) => token !in s.invites
    case AcceptInvite(_, _, id) => id !in s.members
    case _ => true
  }

  /** Emails are compared without regard to case; here they are kept in lower case. */
  ghost function Apply(s: State, e: Event): State {
    if !Fresh(s, e) then s else
    match e
    case Register(tenant, user, mail, id) =>
      s.(members := s.members[id := Row(user, tenant, Owner)],
         emails := s.emails[user := mail], tenants := s.tenants + {tenant})
    case SendInvite(actor, tenant, mail, role, token) =>
      if !AtLeastAdmin(s, actor, tenant) || (role == Owner && !IsOwner(s, actor, tenant)) then s
      else s.(invites := s.invites[token := Invite(tenant, mail, role)])
    case AcceptInvite(user, token, id) =>
      if user !in s.emails || token !in s.invites || s.invites[token].email != s.emails[user] then s
      else
        var inv := s.invites[token];
        var s1 := s.(invites := s.invites - {token});
        if HasMembership(s.members, user, inv.tenant) then s1
        else s1.(members := s.members[id := Row(user, inv.tenant, inv.role)])
    case ChangeRole(actor, tenant, id, role) =>
      if !AtLeastAdmin(s, actor, tenant) || id !in s.members || s.members[id].tenant != tenant then s
      else if s.members[id].role == Owner && !IsOwner(s, actor, tenant) then s
      else if s.members[id].role == Owner && role != Owner && |Owners(s.members, tenant)| <= 1 then s
      else if role == Owner && !IsOwner(s, actor, tenant) then s
      else s.(members := s.members[id := s.members[id].(role := role)])
    case Remove(actor, tenant, id) =>
      if !AtLeastAdmin(s, actor, tenant) || id !in s.members || s.members[id].tenant != tenant then s
      else if s.members[id].role == Owner && !IsOwner(s, actor, tenant) then s
      else if s.members[id].role == Owner && |Owners(s.members, tenant)| <= 1 then s
      else s.(members := s.members - {id})
    case Expire(token) => s.(invites := s.invites - {token})
  }

  function Init(): State { State(map[], map[], map[], {}) }

  ghost function Run(es: seq<Event>): State {
    if es == [] then Init() else Apply(Run(es[..|es| - 1]), es[|es| - 1])
  }

  /** The handlers over the tables. */
  class Directory {
    var members: map<string, Row>
    var invites: map<string, Invite>
    var emails: map<string, string>
    var tenants: set<string>

    ghost function View(): State
      reads this
    {
      State(members, invites, emails, tenants)
    }

    constructor ()
      ensures View() == Init()
    {
      members, invites, emails, tenants := map[], map[], map[], {};
    }

    /** MembershipFor: at most one row per user and tenant. */
    method MembershipFor(user: string, tenant: string) returns (r: Lookup)
      requires UniquePairs(members)
      ensures r == RoleOf(View(), user, tenant)
    {
      var ids := set id | id in members && members[id].user == user && members[id].tenant == tenant;
      assert forall id :: id in members && members[id].user == user && members[id].tenant == tenant ==> id in ids;
      if ids == {} { return NoRole; }
      var id :| id in ids;
      return HasRole(members[id].role);
    }

    method RegisterAccount(tenant: string, user: string, mail: string, id: string)
      requires Fresh(View(), Register(tenant, user, mail, id))
      modifies this
      ensures View() == Apply(old(View()), Register(tenant, user, mail, id))
    {
      tenants := tenants + {tenant};
      emails := emails[user := mail];
      members := members[id := Row(user, tenant, Owner)];
    }

    method HandleInviteMember(actor: string, tenant: string, mail: string, role: Role, token: string) returns (ok: bool)
      requires UniquePairs(members) && token !in invites
      modifies this
      ensures View() == Apply(old(View()), SendInvite(actor, tenant, mail, role, token))
      ensures ok <==> && AtLeastAdmin(old(View()), actor, tenant)
                      && (role == Owner ==> IsOwner(old(View()), actor, tenant))
    {
      var au := MembershipFor(actor, tenant);
      if au.NoRole? || Rank(au.role) < Rank(Admin) { return false; }
      if role == Owner && au.role != Owner { return false; }
      invites := invites[token := Invite(tenant, mail, role)];
      return true;
    }

    method HandleAcceptInvite(user: string, token: string, id: string) returns (ok: bool)
      requires Fresh(View(), AcceptInvite(user, token, id))
      modifies this
      ensures View() == Apply(old(View()), AcceptInvite(user, token, id))
      ensures ok <==> user in old(emails) && token in old(invites) && old(invites)[token].email == old(emails)[user]
    {
      if user !in emails || token !in invites || invites[token].email != emails[user] { return false; }
      var inv := invites[token];
      invites := invites - {token};
      if !HasMembership(members, user, inv.tenant) {
        members := members[id := Row(user, inv.tenant, inv.role)];
      }
      return true;
    }

    method HandleUpdateMember(actor: string, tenant: string, id: string, role: Role) returns (ok: bool)
      requires UniquePairs(members)
      modifies this
      ensures View() == Apply(old(View()), ChangeRole(actor, tenant, id, role))
      ensures ok <==> && AtLeastAdmin(old(View()), actor, tenant)
                      && id in old(members) && old(members)[id].tenant == tenant
                      && (role == Owner || old(members)[id].role == Owner ==> IsOwner(old(View()), actor, tenant))
                      && !LosesLastOwner(old(View()), tenant, id, role)
    {
      var au := MembershipFor(actor, tenant);
      if au.NoRole? || Rank(au.role) < Rank(Admin) { return false; }
      if id !in members || members[id].tenant != tenant { return false; }
      var m := members[id];
      if m.role == Owner && au.role != Owner { return false; }
      if m.role == Owner && role != Owner {
        if |Owners(members, tenant)| <= 1 { return false; }
      }
      if role == Owner && au.role != Owner { return false; }
      members := members[id := m.(role := role)];
      return true;
    }

    method HandleRemoveMember(actor: string, tenant: string, id: string) returns (ok: bool)
      requires UniquePairs(members)
      modifies this
      ensures View() == Apply(old(View()), Remove(actor, tenant, id))
      ensures ok <==> && AtLeastAdmin(old(View()), actor, tenant)
                      && id in old(members) && old(members)[id].tenant == tenant
                      && (old(members)[id].role == Owner ==> IsOwner(old(View()), actor, tenant))
                      && !LosesLastOwner(old(View()), tenant, id, Viewer)
    {
      var au := MembershipFor(actor, tenant);
      if au.NoRole? || Rank(au.role) < Rank(Admin) { return false; }
      if id !in members || members[id].tenant != tenant { return false; }
      var m := members[id];
      if m.role == Owner && au.role != Owner { return false; }
      if m.role == Owner {
        if |Owners(members, tenant)| <= 1 { return false; }
      }
      members := members - {id};
      return true;
    }
  }

  /** UNIQUE (user_id, tenant_id). */
  predicate UniquePairs(members: map<string, Row>) {
    forall i, j :: i in members && j in members && i != j ==>
      members[i].user != members[j].user || members[i].tenant != members[j].tenant
  }

  // ---- Every tenant keeps an owner ----

  ghost predicate Governed(s: State) {
    && UniquePairs(s.members)
    && (forall t :: t in s.tenants ==> Owners(s.members, t) != {})
  }

  lemma AtMostOne(s: set<string>, x: string)
    requires s <= {x}
    ensures |s| <= 1
  {
    if s != {} { assert s == {x}; }
  }

  lemma AnotherOwner(s: State, tenant: string, id: string)
    requires |Owners(s.members, tenant)| > 1
    ensures exists other :: other in Owners(s.members, tenant) && other != id
  {
    var owners := Owners(s.members, tenant);
    if owners <= {id} {
      AtMostOne(owners, id);
      assert false;
    }
    var other :| other in owners && other !in {id};
  }

  lemma StepKeepsUniquePairs(s: State, e: Event)
    requires UniquePairs(s.members)
    ensures UniquePairs(Apply(s, e).members)
  {
  }

  /** An owner row that a step takes away is not the tenant's last. */
  lemma OwnerLost(s: State, e: Event, t: string, o: string)
    requires o in Owners(s.members, t) && o !in Owners(Apply(s, e).members, t)
    ensures (e.ChangeRole? || e.Remove?) && e.id == o && |Owners(s.members, t)| > 1
    ensures forall other :: other in Owners(s.members, t) && other != o ==> other in Owners(Apply(s, e).members, t)
  {
  }

  lemma StepKeepsOwner(s: State, e: Event, t: string)
    requires t in s.tenants && Owners(s.members, t) != {}
    ensures Owners(Apply(s, e).members, t) != {}
  {
    var o :| o in Owners(s.members, t);
    if o !in Owners(Apply(s, e).members, t) {
      OwnerLost(s, e, t, o);
      AnotherOwner(s, t, o);
    }
  }

  lemma StepKeepsGoverned(s: State, e: Event)
    requires Governed(s)
    ensures Governed(Apply(s, e))
  {
    StepKeepsUniquePairs(s, e);
    var s' := Apply(s, e);
    forall t | t in s'.tenants ensures Owners(s'.members, t) != {} {
      if t in s.tenants {
        StepKeepsOwner(s, e, t);
      } else {
        assert e.id in Owners(s'.members, t);
      }
    }
  }

  /** Over every run, every tenant that registered has an owner. */
  lemma {:induction false} AlwaysAnOwner(es: seq<Event>)
    ensures Governed(Run(es))
  {
    if es != [] {
      AlwaysAnOwner(es[..|es| - 1]);
      StepKeepsGoverned(Run(es[..|es| - 1]), es[|es| - 1]);
    }
  }

  // ---- Where ownership comes from ----

  /** Step i of the run was taken by someone who owned the tenant at that time. */
  ghost predicate ByOwner(es: seq<Event>, i: nat, actor: string, tenant: string)
    requires i < |es|
  {
    IsOwner(Run(es[..i]), actor, tenant)
  }

  /** An owner's step i of the run issued this invite. */
  ghost predicate InvitedByOwner(es: seq<Event>, tenant: string, token: string) {
    exists i :: 0 <= i < |es| && es[i].SendInvite? && es[i].tenant == tenant && es[i].token == token
                && es[i].role == Owner && ByOwner(es, i, es[i].actor, tenant)
  }

  ghost predicate PromotedByOwner(es: seq<Event>, tenant: string, id: string) {
    exists i :: 0 <= i < |es| && es[i].ChangeRole? && es[i].tenant == tenant && es[i].id == id
                && es[i].role == Owner && ByOwner(es, i, es[i].actor, tenant)
  }

  ghost predicate RegisteredAs(es: seq<Event>, tenant: string, id: string) {
    exists i :: 0 <= i < |es| && es[i].Register? && es[i].tenant == tenant && es[i].id == id
  }

  ghost predicate JoinedAsOwner(es: seq<Event>, tenant: string, id: string) {
    exists i :: 0 <= i < |es| && es[i].AcceptInvite? && es[i].id == id && InvitedByOwner(es, tenant, es[i].token)
  }

  /** An owner row comes from registration, from a promotion by an owner, or from an
      invitation by an owner. */
  ghost predicate Legitimate(es: seq<Event>, tenant: string, id: string) {
    RegisteredAs(es, tenant, id) || PromotedByOwner(es, tenant, id) || JoinedAsOwner(es, tenant, id)
  }

  lemma InvitedLonger(es: seq<Event>, e: Event, tenant: string, token: string)
    requires InvitedByOwner(es, tenant, token)
    ensures InvitedByOwner(es + [e], tenant, token)
  {
    var i :| 0 <= i < |es| && es[i].SendInvite? && es[i].tenant == tenant && es[i].token == token
             && es[i].role == Owner && ByOwner(es, i, es[i].actor, tenant);
    assert (es + [e])[..i] == es[..i] && (es + [e])[i] == es[i];
    assert ByOwner(es + [e], i, es[i].actor, tenant);
  }

  lemma LegitimateLonger(es: seq<Event>, e: Event, tenant: string, id: string)
    requires Legitimate(es, tenant, id)
    ensures Legitimate(es + [e], tenant, id)
  {
    var es' := es + [e];
    if RegisteredAs(es, tenant, id) {
      var i :| 0 <= i < |es| && es[i].Register? && es[i].tenant == tenant && es[i].id == id;
      assert es'[i] == es[i];
    } else if PromotedByOwner(es, tenant, id) {
      var i :| 0 <= i < |es| && es[i].ChangeRole? && es[i].tenant == tenant && es[i].id == id
               && es[i].role == Owner && ByOwner(es, i, es[i].actor, tenant);
      assert es'[..i] == es[..i] && es'[i] == es[i];
      assert ByOwner(es', i, es[i].actor, tenant);
    } else {
      var i :| 0 <= i < |es| && es[i].AcceptInvite? && es[i].id == id && InvitedByOwner(es, tenant, es[i].token);
      InvitedLonger(es, e, tenant, es[i].token);
      assert es'[i] == es[i];
    }
  }

  /** The step that makes a row an owner row. */
  lemma NewOwner(s: State, e: Event, id: string)
    requires id in Apply(s, e).members && Apply(s, e).members[id].role == Owner
    requires !(id in s.members && s.members[id] == Apply(s, e).members[id])
    ensures var tenant := Apply(s, e).members[id].tenant;
            || (e.Register? && e.tenant == tenant && e.id == id)
            || (e.ChangeRole? && e.tenant == tenant && e.id == id && e.role == Owner && IsOwner(s, e.actor, tenant))
            || (e.AcceptInvite? && e.id == id && e.token in s.invites && s.invites[e.token].tenant == tenant
                && s.invites[e.token].role == Owner)
  {
  }

  lemma NewInvite(s: State, e: Event, token: string)
    requires token in Apply(s, e).invites && Apply(s, e).invites[token].role == Owner
    requires !(token in s.invites && s.invites[token] == Apply(s, e).invites[token])
    ensures e.SendInvite? && e.token == token && e.role == Owner
            && e.tenant == Apply(s, e).invites[token].tenant && IsOwner(s, e.actor, e.tenant)
  {
  }

  lemma {:induction false} OwnerInvitesTrace(es: seq<Event>, token: string)
    requires token in Run(es).invites && Run(es).invites[token].role == Owner
    ensures InvitedByOwner(es, Run(es).invites[token].tenant, token)
  {
    if es != [] {
      var front, e := es[..|es| - 1], es[|es| - 1];
      var s := Run(front);
      assert es == front + [e];
      if token in s.invites && s.invites[token] == Run(es).invites[token] {
        OwnerInvitesTrace(front, token);
        InvitedLonger(front, e, s.invites[token].tenant, token);
      } else {
        NewInvite(s, e, token);
        assert ByOwner(es, |front|, e.actor, e.tenant);
      }
    }
  }

  /** Over every run, every owner row traces back to a registration or to a step taken
      by someone who was an owner of that tenant at the time. */
  lemma {:induction false} OwnersTrace(es: seq<Event>, id: string)
    requires id in Run(es).members && Run(es).members[id].role == Owner
    ensures Legitimate(es, Run(es).members[id].tenant, id)
  {
    if es != [] {
      var front, e := es[..|es| - 1], es[|es| - 1];
      var s := Run(front);
      var tenant := Run(es).members[id].tenant;
      assert es == front + [e];
      if id in s.members && s.members[id] == Run(es).members[id] {
        OwnersTrace(front, id);
        LegitimateLonger(front, e, tenant, id);
      } else {
        NewOwner(s, e, id);
        if e.ChangeRole? {
          assert ByOwner(es, |front|, e.actor, tenant);
        } else if e.AcceptInvite? {
          OwnerInvitesTrace(front, e.token);
          InvitedLonger(front, e, tenant, e.token);
          assert es[|front|] == e;
        } else {
          assert es[|front|] == e;
        }
      }
    }
  }

  // ---- What each step does, in the stored rows ----

  /** The rows (id, user, tenant, role) of the table. */
  predicate Is(members: map<string, Row>, id: string, user: string, tenant: string, role: Role) {
    id in members && members[id] == Row(user, tenant, role)
  }

  /** A user's role in a tenant is the one of the user's row there. */
  lemma RoleOfExactly(s: State, user: string, tenant: string, role: Role)
    requires UniquePairs(s.members)
    ensures RoleOf(s, user, tenant) == HasRole(role) <==> exists id :: Is(s.members, id, user, tenant, role)
  {
    if RoleOf(s, user, tenant) == HasRole(role) {
      var id :| id in s.members && s.members[id].user == user && s.members[id].tenant == tenant
                && s.members[id].role == role;
      assert Is(s.members, id, user, tenant, role);
    } else if id :| Is(s.members, id, user, tenant, role) {
      assert false;
    }
  }

  /** The actor has a row in the tenant with one of these roles. */
  ghost predicate ActsAs(s: State, actor: string, tenant: string, roles: set<Role>) {
    exists id, r :: r in roles && Is(s.members, id, actor, tenant, r)
  }

  lemma ActsAsExactly(s: State, actor: string, tenant: string)
    requires UniquePairs(s.members)
    ensures AtLeastAdmin(s, actor, tenant) <==> ActsAs(s, actor, tenant, {Admin, Owner})
    ensures IsOwner(s, actor, tenant) <==> ActsAs(s, actor, tenant, {Owner})
  {
    RoleOfExactly(s, actor, tenant, Admin);
    RoleOfExactly(s, actor, tenant, Owner);
    if id, r :| r in {Admin, Owner} && Is(s.members, id, actor, tenant, r) {
      assert r == Admin || r == Owner;
    }
    if RoleOf(s, actor, tenant) == HasRole(Owner) {
      var id :| Is(s.members, id, actor, tenant, Owner);
      assert Owner in {Owner} && Owner in {Admin, Owner};
    }
    if RoleOf(s, actor, tenant) == HasRole(Admin) {
      var id :| Is(s.members, id, actor, tenant, Admin);
      assert Admin in {Admin, Owner};
    }
  }

  /** A registration adds the user, the tenant and the owner row, and nothing else. */
  lemma RegisterExactly(s: State, tenant: string, user: string, mail: string, id: string)
    requires Fresh(s, Register(tenant, user, mail, id))
    ensures Apply(s, Register(tenant, user, mail, id))
         == State(s.members[id := Row(user, tenant, Owner)], s.invites, s.emails[user := mail], s.tenants + {tenant})
  {
  }

  /** An invite is sent by admins and owners, one for an owner by owners only. */
  lemma InviteExactly(s: State, actor: string, tenant: string, mail: string, role: Role, token: string)
    requires UniquePairs(s.members) && token !in s.invites
    ensures Apply(s, SendInvite(actor, tenant, mail, role, token))
         == if ActsAs(s, actor, tenant, if role == Owner then {Owner} else {Admin, Owner})
            then s.(invites := s.invites[token := Invite(tenant, mail, role)]) else s
  {
    ActsAsExactly(s, actor, tenant);
    if IsOwner(s, actor, tenant) { assert AtLeastAdmin(s, actor, tenant); }
  }

  /** An invite is taken by the user with its address, once. It gives a user without a
      membership in the tenant a row with the invited role, and changes no other row. */
  lemma AcceptExactly(s: State, user: string, token: string, id: string)
    requires id !in s.members
    ensures var s' := Apply(s, AcceptInvite(user, token, id));
            if user in s.emails && token in s.invites && s.invites[token].email == s.emails[user] then
              && s'.invites == s.invites - {token} && s'.emails == s.emails && s'.tenants == s.tenants
              && s'.members
                   == if exists i :: i in s.members && s.members[i].user == user
                                     && s.members[i].tenant == s.invites[token].tenant
                      then s.members
                      else s.members[id := Row(user, s.invites[token].tenant, s.invites[token].role)]
            else s' == s
  {
  }

  /** An invite whose time is over is gone, and nothing else changes. */
  lemma ExpireExactly(s: State, token: string)
    ensures Apply(s, Expire(token)) == State(s.members, s.invites - {token}, s.emails, s.tenants)
  {
  }

  /** Another row of the tenant is an owner's. */
  predicate OtherOwner(members: map<string, Row>, tenant: string, id: string) {
    exists o :: o in members && o != id && members[o].tenant == tenant && members[o].role == Owner
  }

  lemma OtherOwnerExactly(s: State, tenant: string, id: string)
    requires id in s.members && s.members[id].tenant == tenant && s.members[id].role == Owner
    ensures |Owners(s.members, tenant)| > 1 <==> OtherOwner(s.members, tenant, id)
  {
    var owners := Owners(s.members, tenant);
    if |owners| > 1 {
      AnotherOwner(s, tenant, id);
    } else if o :| o in s.members && o != id && s.members[o].tenant == tenant && s.members[o].role == Owner {
      assert {id, o} <= owners;
      SubsetSize({id, o}, owners);
      assert false;
    }
  }

  lemma SubsetSize(a: set<string>, b: set<string>)
    requires a <= b
    ensures |a| <= |b|
  {
    if a != {} {
      var x :| x in a;
      SubsetSize(a - {x}, b - {x});
    }
  }

  /** Who may give a row of this role that role: admins and owners, but only owners when
      either role is owner; and the last owner keeps it. */
  ghost predicate MayChange(s: State, actor: string, tenant: string, id: string, role: Role) {
    && id in s.members && s.members[id].tenant == tenant
    && ActsAs(s, actor, tenant, if role == Owner || s.members[id].role == Owner then {Owner} else {Admin, Owner})
    && (s.members[id].role == Owner && role != Owner ==> OtherOwner(s.members, tenant, id))
  }

  lemma ChangeRoleExactly(s: State, actor: string, tenant: string, id: string, role: Role)
    requires UniquePairs(s.members)
    ensures Apply(s, ChangeRole(actor, tenant, id, role))
         == if MayChange(s, actor, tenant, id, role)
            then s.(members := s.members[id := Row(s.members[id].user, tenant, role)]) else s
  {
    ActsAsExactly(s, actor, tenant);
    if id in s.members && s.members[id].tenant == tenant && s.members[id].role == Owner {
      OtherOwnerExactly(s, tenant, id);
    }
  }

  /** A removal follows the rules for giving the row a lesser role. */
  lemma RemoveExactly(s: State, actor: string, tenant: string, id: string)
    requires UniquePairs(s.members)
    ensures Apply(s, Remove(actor, tenant, id))
         == if MayChange(s, actor, tenant, id, Viewer) then s.(members := s.members - {id}) else s
  {
    ActsAsExactly(s, actor, tenant);
    if id in s.members && s.members[id].tenant == tenant && s.members[id].role == Owner {
      OtherOwnerExactly(s, tenant, id);
    }
  }

  // ---- Where every role comes from ----

  /** At step i the actor could give this role: as an owner, or as an admin when the
      role is a lesser one. */
  ghost predicate ByGranter(es: seq<Event>, i: nat, actor: string, tenant: string, role: Role)
    requires i < |es|
  {
    ActsAs(Run(es[..i]), actor, tenant, if role == Owner then {Owner} else {Admin, Owner})
  }

  ghost predicate InvitedAs(es: seq<Event>, tenant: string, token: string, mail: string, role: Role) {
    exists i :: 0 <= i < |es| && es[i].SendInvite? && es[i] == SendInvite(es[i].actor, tenant, mail, role, token)
                && ByGranter(es, i, es[i].actor, tenant, role)
  }

  ghost predicate Promoted(es: seq<Event>, tenant: string, id: string, role: Role) {
    exists i :: 0 <= i < |es| && es[i].ChangeRole? && es[i] == ChangeRole(es[i].actor, tenant, id, role)
                && ByGranter(es, i, es[i].actor, tenant, role)
  }

  ghost predicate Joined(es: seq<Event>, tenant: string, id: string, user: string, role: Role) {
    exists i, mail :: 0 <= i < |es| && es[i].AcceptInvite? && es[i].id == id && es[i].user == user
                && InvitedAs(es, tenant, es[i].token, mail, role)
  }

  ghost predicate Founded(es: seq<Event>, tenant: string, id: string, user: string) {
    exists i :: 0 <= i < |es| && es[i].Register? && es[i].tenant == tenant && es[i].id == id && es[i].user == user
  }

  /** A row with a role comes from a registration (as owner), from a change to that
      role, or from an accepted invite with that role, the latter two by someone who
      could give it then. */
  ghost predicate Traced(es: seq<Event>, id: string, r: Row) {
    || (r.role == Owner && Founded(es, r.tenant, id, r.user))
    || Promoted(es, r.tenant, id, r.role)
    || Joined(es, r.tenant, id, r.user, r.role)
  }

  lemma InvitedAsLonger(es: seq<Event>, e: Event, tenant: string, token: string, mail: string, role: Role)
    requires InvitedAs(es, tenant, token, mail, role)
    ensures InvitedAs(es + [e], tenant, token, mail, role)
  {
    var i :| 0 <= i < |es| && es[i].SendInvite? && es[i] == SendInvite(es[i].actor, tenant, mail, role, token)
             && ByGranter(es, i, es[i].actor, tenant, role);
    assert (es + [e])[..i] == es[..i] && (es + [e])[i] == es[i];
    assert ByGranter(es + [e], i, es[i].actor, tenant, role);
  }

  lemma TracedLonger(es: seq<Event>, e: Event, id: string, r: Row)
    requires Traced(es, id, r)
    ensures Traced(es + [e], id, r)
  {
    var es' := es + [e];
    if r.role == Owner && Founded(es, r.tenant, id, r.user) {
      var i :| 0 <= i < |es| && es[i].Register? && es[i].tenant == r.tenant && es[i].id == id && es[i].user == r.user;
      assert es'[i] == es[i];
    } else if Promoted(es, r.tenant, id, r.role) {
      var i :| 0 <= i < |es| && es[i].ChangeRole? && es[i] == ChangeRole(es[i].actor, r.tenant, id, r.role)
               && ByGranter(es, i, es[i].actor, r.tenant, r.role);
      assert es'[..i] == es[..i] && es'[i] == es[i];
      assert ByGranter(es', i, es[i].actor, r.tenant, r.role);
    } else {
      var i, mail :| 0 <= i < |es| && es[i].AcceptInvite? && es[i].id == id && es[i].user == r.user
                     && InvitedAs(es, r.tenant, es[i].token, mail, r.role);
      InvitedAsLonger(es, e, r.tenant, es[i].token, mail, r.role);
      assert es'[i] == es[i];
    }
  }

  lemma {:induction false} InvitesTrace(es: seq<Event>, token: string)
    requires token in Run(es).invites
    ensures var inv := Run(es).invites[token]; InvitedAs(es, inv.tenant, token, inv.email, inv.role)
  {
    if es != [] {
      var front, e := es[..|es| - 1], es[|es| - 1];
      var s := Run(front);
      var inv := Run(es).invites[token];
      assert es == front + [e];
      if token in s.invites {
        InvitesTrace(front, token);
        InvitedAsLonger(front, e, inv.tenant, token, inv.email, inv.role);
      } else {
        AlwaysAnOwner(front);
        assert e.SendInvite? && e.token == token;
        InviteExactly(s, e.actor, e.tenant, e.mail, e.role, e.token);
        assert ByGranter(es, |front|, e.actor, e.tenant, e.role);
      }
    }
  }

  /** The row is new, or another than before: by which step. */
  lemma NewRow(s: State, e: Event, id: string)
    requires UniquePairs(s.members) && id in Apply(s, e).members
    requires !(id in s.members && s.members[id] == Apply(s, e).members[id])
    ensures var r := Apply(s, e).members[id];
            || (e.Register? && e.id == id && r == Row(e.user, e.tenant, Owner))
            || (e.ChangeRole? && e.id == id && r.tenant == e.tenant && r.role == e.role
                && ActsAs(s, e.actor, e.tenant, if e.role == Owner then {Owner} else {Admin, Owner}))
            || (e.AcceptInvite? && e.id == id && e.token in s.invites
                && r == Row(e.user, s.invites[e.token].tenant, s.invites[e.token].role))
  {
    match e
    case ChangeRole(actor, tenant, i, role) =>
      ChangeRoleExactly(s, actor, tenant, i, role);
      ActsAsExactly(s, actor, tenant);
      if IsOwner(s, actor, tenant) { assert AtLeastAdmin(s, actor, tenant); }
    case _ =>
  }

  /** Over every run, every row traces back, with the very role it has. */
  lemma {:induction false} RolesTrace(es: seq<Event>, id: string)
    requires id in Run(es).members
    ensures Traced(es, id, Run(es).members[id])
  {
    if es != [] {
      var front, e := es[..|es| - 1], es[|es| - 1];
      var s := Run(front);
      var r := Run(es).members[id];
      assert es == front + [e];
      if id in s.members && s.members[id] == r {
        RolesTrace(front, id);
        TracedLonger(front, e, id, r);
      } else {
        AlwaysAnOwner(front);
        NewRow(s, e, id);
        assert es[|front|] == e;
        if e.ChangeRole? {
          assert ByGranter(es, |front|, e.actor, r.tenant, r.role);
        } else if e.AcceptInvite? {
          var inv := s.invites[e.token];
          InvitesTrace(front, e.token);
          InvitedAsLonger(front, e, inv.tenant, e.token, inv.email, inv.role);
        }
      }
    }
  }
}
