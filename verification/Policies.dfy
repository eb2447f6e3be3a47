// What a link's access policy demands, and how long a link lives.

module Expiries {
  import opened Arithmetic

  datatype Expiry = NoExpiry | Expires(at: int)

  predicate Past(e: Expiry, now: int) { e.Expires? && e.at < now }

  function EffectiveExpiry(link: Expiry, backing: Expiry): Expiry {
    if link.NoExpiry? then backing
    else if backing.NoExpiry? then link
    else if backing.at < link.at then backing
    else link
  }

  /** A link is past its effective expiry exactly when one of the two expiries is past. */
  lemma EffectiveIsEarliest(link: Expiry, backing: Expiry, now: int)
    ensures Past(EffectiveExpiry(link, backing), now) <==>
              (link != NoExpiry && link.at < now) || (backing != NoExpiry && backing.at < now)
  {
  }

  const DAY: int := 86_400 * SECOND

  /** planMaxLinkTTL: zero means no cap. */
  function PlanMaxLinkTTL(plan: string): int { if plan == "lite" then DAY else 0 }

  /** handleCreateLink: a duration of whole seconds is an int64 product. */
  function NewLinkExpiry(requested: int, plan: string, backing: Expiry, now: int): Expiry {
    var wanted := now + Wrap64(Wanted(requested) * SECOND);
    var max := PlanMaxLinkTTL(plan);
    EffectiveExpiry(Expires(if max > 0 && wanted > now + max then now + max else wanted), backing)
  }

  /** Whatever is requested, a new link never outlives its file or the lite plan's day. */
  lemma LinkNeverOutlivesItsLayers(requested: int, plan: string, backing: Expiry, now: int)
    ensures var e := NewLinkExpiry(requested, plan, backing, now);
            && e.Expires?
            && (backing.Expires? ==> e.at <= backing.at)
            && (plan == "lite" ==> e.at <= now + 86_400 * SECOND)
  {
  }

  /** The seconds asked for, or an hour. */
  function Wanted(requested: int): int { if requested <= 0 then 3600 else requested }

  /** It ends at the request (an hour when there is none), at the end of the lite plan's
      day or with the file, whichever comes first. */
  predicate EarliestLayer(e: Expiry, requested: int, plan: string, backing: Expiry, now: int) {
    var wanted := now + (if requested > 0 then requested else 3600) * SECOND;
    var day := now + 86_400 * SECOND;
    && e.Expires? && e.at <= wanted && (plan == "lite" ==> e.at <= day) && (backing.Expires? ==> e.at <= backing.at)
    && (e.at == wanted || (plan == "lite" && e.at == day) || (backing.Expires? && e.at == backing.at))
  }

  /** The link ends exactly at the earliest of request, cap and file unless the product
      overflows to something that neither the cap nor the file's expiry hides. */
  lemma LinkExpiryIsEarliestLayer(requested: int, plan: string, backing: Expiry, now: int)
    ensures var s := if requested > 0 then requested else 3600;
            var w := Wrap64(s * SECOND);
            var lite := plan == "lite";
            EarliestLayer(NewLinkExpiry(requested, plan, backing, now), requested, plan, backing, now) <==>
              || s <= 9_223_372_036
              || (lite && w >= 86_400 * SECOND)
              || (backing.Expires? && w >= backing.at - now && (lite || backing.at - now <= s * SECOND))
  {
  }
}

module Policies {

  /** A client address as text, and as a number when it parses. */
  datatype ClientIp = ClientIp(text: string, addr: Address)

  datatype Address = NoAddress | Address(n: int)

  /** An allowlist entry: a parsed CIDR network, or text that is not one. */
  datatype Rule = Network(hosts: set<int>) | Text(s: string)

  /** opens is what the stored hash verifies. */
  datatype PasswordRule = NoPassword | Password(enabled: bool, opens: set<string>)

  datatype AccountRule = NoAccount | Account(required: bool, tenants: seq<string>, users: seq<string>)

  datatype Policy = Policy(
    kind: string,
    allowDownload: bool,
    allowlist: seq<Rule>,
    maxViews: int,
    singleUse: bool,
    password: PasswordRule,
    account: AccountRule)

  /** The console session of a visitor, with the tenants the user belongs to. */
  datatype Session = NoSession | User(id: string, tenants: seq<string>)

  function MaxViewsCap(p: Policy): int { if p.singleUse then 1 else p.maxViews }

  /** The requests of this link are counted. */
  predicate Counted(p: Policy) { MaxViewsCap(p) != 0 || p.singleUse }

  predicate PasswordRequired(p: Policy) { p.kind == "password" || (p.password.Password? && p.password.enabled) }

  predicate AccountRequired(p: Policy) { p.kind == "account" || (p.account.Account? && p.account.required) }

  predicate Covers(r: Rule, ip: ClientIp) {
    match r
    case Network(hosts) => ip.addr.Address? && ip.addr.n in hosts
    case Text(s) => s == ip.text
  }

  /** An empty list admits everyone; otherwise a valid address some entry covers. */
  predicate IpPasses(p: Policy, ip: ClientIp) {
    p.allowlist == [] || (ip.addr.Address? && exists r :: r in p.allowlist && Covers(r, ip))
  }

  method IpAllowed(p: Policy, ip: ClientIp) returns (ok: bool)
    ensures ok == IpPasses(p, ip)
  {
    if |p.allowlist| == 0 { return true; }
    if ip.addr.NoAddress? { return false; }
    for i := 0 to |p.allowlist|
      invariant forall j :: 0 <= j < i ==> !Covers(p.allowlist[j], ip)
    {
      match p.allowlist[i]
      case Network(hosts) =>
        if ip.addr.n in hosts {
          assert Covers(p.allowlist[i], ip);
          return true;
        }
      case Text(s) =>
        if s == ip.text {
          assert Covers(p.allowlist[i], ip);
          return true;
        }
    }
    return false;
  }

  /** A logged-in user who is listed, or belongs to a listed tenant, or anyone logged
      in when nothing is listed. */
  predicate AccountPasses(p: Policy, who: Session) {
    && who.User?
    && (p.account.Account? ==>
          || who.id in p.account.users
          || (exists t :: t in who.tenants && t in p.account.tenants)
          || (p.account.users == [] && p.account.tenants == []))
  }

  method AccountAllowed(p: Policy, who: Session) returns (ok: bool)
    ensures ok == AccountPasses(p, who)
  {
    if who.NoSession? { return false; }
    if p.account.NoAccount? { return true; }
    for i := 0 to |p.account.users|
      invariant who.id !in p.account.users[..i]
    {
      if p.account.users[i] == who.id { return true; }
    }
    if |p.account.tenants| > 0 {
      for i := 0 to |who.tenants|
        invariant forall t :: t in who.tenants[..i] ==> t !in p.account.tenants
      {
        for j := 0 to |p.account.tenants|
          invariant who.tenants[i] !in p.account.tenants[..j]
        {
          if who.tenants[i] == p.account.tenants[j] {
            assert who.tenants[i] in who.tenants && who.tenants[i] in p.account.tenants;
            return true;
          }
        }
      }
      return false;
    }
    return |p.account.users| == 0;
  }
}
