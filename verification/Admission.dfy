// A visitor's request for a preview link: the gates, the view counter, and the
// grants that carry a visitor from the control plane to the isolated render origin.
// One request is one step at one instant; the database and Redis never fail.

module Admission {
  import opened Arithmetic
  import opened Splitting
  import opened TimedKeys
  import opened Expiries
  import opened Policies
  import opened ViewCap

  /** Keyed tokens, symbolically: a visitor can make up Nothing and Junk only. */
  datatype Token = Nothing | Junk | Grant(link: string, bucket: int) | Unlock(link: string)

  datatype FileRef = NoFile | FileRef(id: string)

  datatype Link = Link(
    secret: string,
    revoked: bool,
    frozen: bool,
    expiry: Expiry,
    policy: Policy,
    file: FileRef)

  datatype Category = Pdf | Svg | Image | Html | PlainText | Binary

  datatype Backing = Backing(ready: bool, category: Category, expiry: Expiry)

  /** renderDomain is empty when isolation is off; publicEndpoint says whether signed
      URLs can be handed out. */
  datatype Config = Config(renderDomain: string, publicEndpoint: bool)

  datatype World = World(links: map<string, Link>, files: map<string, Backing>)

  datatype Endpoint = Preview | Raw

  datatype Visitor = Visitor(
    link: string,
    secret: string,
    ip: ClientIp,
    session: Session,
    cookie: Token,
    host: string,
    grant: Token,
    download: bool)

  datatype Answer =
    | TooMany
    | NotFound
    | Gone
    | Frozen
    | Forbidden
    | LoginRequired
    | PasswordPage
    | BadRequest
    | ToRender(token: Token)
    | Wrapper(token: Token)
    | ToStore
    | Bytes(attachment: bool)
    | Unlocked(token: Token)

  predicate Content(a: Answer) { a.Bytes? || a.ToStore? }

  predicate Active(c: Category) { c.Html? || c.Svg? }

  predicate OnRenderDomain(cfg: Config, v: Visitor) {
    cfg.renderDomain == "" || SplitFirst(v.host, ':')[0] == cfg.renderDomain
  }

  function Bucket(now: int): int { now / SECOND / 600 }

  predicate ValidGrant(v: Visitor, now: int) {
    v.grant == Grant(v.link, Bucket(now)) || v.grant == Grant(v.link, Bucket(now) - 1)
  }

  predicate HasUnlock(v: Visitor) { v.cookie == Unlock(v.link) }

  // ---- The ordered pipeline ----

  datatype Gate = Pass | Stop(answer: Answer) {
    function Then(next: Gate): Gate { if Pass? then next else this }
  }

  function Demand(ok: bool, refusal: Answer): Gate { if ok then Pass else Stop(refusal) }

  /** admitLink. */
  function LinkGate(w: World, v: Visitor, now: int): Gate {
    if v.link !in w.links then Stop(NotFound)
    else
      var l := w.links[v.link];
      Demand(l.secret == v.secret, NotFound)
      .Then(Demand(!l.revoked, Gone))
      .Then(Demand(!l.frozen, Frozen))
      .Then(Demand(!Past(l.expiry, now), Gone))
  }

  predicate Backed(w: World, l: Link) { l.file.FileRef? && l.file.id in w.files && w.files[l.file.id].ready }

  /** gateIP, gateAccount and the password, with the visitor's cookies. */
  function CookieGate(p: Policy, v: Visitor, locked: Answer): Gate {
    Demand(IpPasses(p, v.ip), Forbidden)
    .Then(Demand(AccountRequired(p) ==> AccountPasses(p, v.session), LoginRequired))
    .Then(Demand(PasswordRequired(p) ==> HasUnlock(v), locked))
  }

  function GrantGate(p: Policy, v: Visitor, now: int): Gate {
    Demand(ValidGrant(v, now), Forbidden).Then(Demand(IpPasses(p, v.ip), Forbidden))
  }

  /** Which visitor gates a request meets once its link has a ready file. */
  function VisitorGate(cfg: Config, e: Endpoint, l: Link, b: Backing, v: Visitor, now: int): Gate {
    match e
    case Preview =>
      if Active(b.category) && cfg.renderDomain != "" && OnRenderDomain(cfg, v) then GrantGate(l.policy, v, now)
      else CookieGate(l.policy, v, PasswordPage)
    case Raw =>
      Demand(Active(b.category), NotFound)
      .Then(if cfg.renderDomain != "" then Demand(OnRenderDomain(cfg, v), Forbidden).Then(GrantGate(l.policy, v, now))
            else CookieGate(l.policy, v, Forbidden))
  }

  function Gates(cfg: Config, w: World, e: Endpoint, v: Visitor, now: int): Gate {
    LinkGate(w, v, now).Then(
      if v.link !in w.links || !Backed(w, w.links[v.link]) then Stop(Gone)
      else
        var l := w.links[v.link];
        var b := w.files[l.file.id];
        VisitorGate(cfg, e, l, b, v, now).Then(Demand(!Past(EffectiveExpiry(l.expiry, b.expiry), now), Gone)))
  }

  /** What an admitted request is for: a page, or the content, which costs a view. */
  datatype Goal = Bounce | Frame | Stream

  function GoalOf(cfg: Config, e: Endpoint, b: Backing, v: Visitor): Goal {
    if e.Raw? || !Active(b.category) then Stream
    else if cfg.renderDomain != "" && !OnRenderDomain(cfg, v) then Bounce
    else Frame
  }

  function ServeBytes(cfg: Config, e: Endpoint, l: Link, b: Backing, v: Visitor): Answer {
    if e.Raw? then Bytes(v.download && l.policy.allowDownload)
    else if MaxViewsCap(l.policy) == 0 && cfg.publicEndpoint && (b.category.Image? || b.category.Pdf?) then ToStore
    else Bytes(false)
  }

  type Cells = map<string, Cell>

  function ViewKey(link: string): string { "view:" + link }

  function LimiterKey(ip: ClientIp): string { "rl:" + ("preview:" + ip.text) }

  /** The view counter of a counted link takes one step; others are left alone. */
  function CountView(cells: Cells, link: string, l: Link, now: int): (Cells, bool) {
    if !Counted(l.policy) then (cells, true)
    else
      var (cell, ok) := Admit(CellIn(cells, ViewKey(link)), l.expiry, MaxViewsCap(l.policy), now);
      (cells[ViewKey(link) := cell], ok)
  }

  /** A request that the limiter let through. */
  function Serve(cfg: Config, w: World, cells: Cells, e: Endpoint, v: Visitor, now: int): (Cells, Answer) {
    match Gates(cfg, w, e, v, now)
    case Stop(a) => (cells, a)
    case Pass =>
      var l := w.links[v.link];
      var b := w.files[l.file.id];
      match GoalOf(cfg, e, b, v)
      case Bounce => (cells, ToRender(Grant(v.link, Bucket(now))))
      case Frame => (cells, Wrapper(v.grant))
      case Stream =>
        var (cells', ok) := CountView(cells, v.link, l, now);
        (cells', if ok then ServeBytes(cfg, e, l, b, v) else Gone)
  }

  function Limited(cells: Cells, key: string, limit: int, w: int, now: int): (Cells, bool) {
    var (cell, res) := RateLimit(CellIn(cells, key), now, limit, w);
    (cells[key := cell], res.allowed)
  }

  function Handle(cfg: Config, w: World, cells: Cells, e: Endpoint, v: Visitor, now: int): (Cells, Answer) {
    var (cells1, ok) := Limited(cells, LimiterKey(v.ip), 600, 60, now);
    if ok then Serve(cfg, w, cells1, e, v, now) else (cells1, TooMany)
  }

  function UnlockKey(v: Visitor): string { "rl:" + ("unlock:" + v.link + ":" + v.ip.text) }

  /** handleUnlock. */
  function TryUnlock(w: World, cells: Cells, v: Visitor, password: string, now: int): (Cells, Answer) {
    var (cells1, ok) := Limited(cells, UnlockKey(v), 5, 15 * 60, now);
    if !ok then (cells1, TooMany)
    else
      var g := LinkGate(w, v, now).Then(
        if v.link !in w.links then Stop(NotFound)
        else
          var p := w.links[v.link].policy;
          Demand(PasswordRequired(p) && p.password.Password?, BadRequest)
          .Then(Demand(p.password.Password? && password in p.password.opens, Forbidden)));
      (cells1, if g.Stop? then g.answer else Unlocked(Unlock(v.link)))
  }

  // ---- The conjunction it refines ----

  /** The link is usable: known, with this secret, not revoked or frozen, with a ready
      file, and none of the two expiries is past. */
  predicate LinkOpen(w: World, v: Visitor, now: int) {
    && v.link in w.links
    && var l := w.links[v.link];
    && l.secret == v.secret && !l.revoked && !l.frozen
    && l.file.FileRef? && l.file.id in w.files
    && var b := w.files[l.file.id];
    && b.ready && !Past(l.expiry, now) && !Past(b.expiry, now)
  }

  predicate ByCookies(p: Policy, v: Visitor) {
    && IpPasses(p, v.ip)
    && (AccountRequired(p) ==> AccountPasses(p, v.session))
    && (PasswordRequired(p) ==> HasUnlock(v))
  }

  predicate ByGrant(p: Policy, v: Visitor, now: int) { ValidGrant(v, now) && IpPasses(p, v.ip) }

  /** Where this request is to be authorized: on the render origin by a grant, and
      elsewhere by the visitor's own cookies. */
  predicate Authorized(cfg: Config, e: Endpoint, p: Policy, c: Category, v: Visitor, now: int) {
    var isolated := Active(c) && cfg.renderDomain != "";
    if isolated && (e.Raw? || OnRenderDomain(cfg, v)) then OnRenderDomain(cfg, v) && ByGrant(p, v, now)
    else ByCookies(p, v)
  }

  /** All the gates that stand before a goal, in no order. */
  predicate AllGates(cfg: Config, w: World, e: Endpoint, v: Visitor, now: int) {
    && LinkOpen(w, v, now)
    && var l := w.links[v.link];
    && var b := w.files[l.file.id];
    && (e.Raw? ==> Active(b.category))
    && Authorized(cfg, e, l.policy, b.category, v, now)
  }

  lemma GatesAreAConjunction(cfg: Config, w: World, e: Endpoint, v: Visitor, now: int)
    ensures Gates(cfg, w, e, v, now).Pass? <==> AllGates(cfg, w, e, v, now)
  {
    if v.link in w.links && Backed(w, w.links[v.link]) {
      var l := w.links[v.link];
      EffectiveIsEarliest(l.expiry, w.files[l.file.id].expiry, now);
    }
  }

  predicate LimiterAllows(cells: Cells, v: Visitor, now: int) { Limited(cells, LimiterKey(v.ip), 600, 60, now).1 }

  /** The request is for the content, not for a page. */
  predicate WantsContent(e: Endpoint, w: World, v: Visitor)
    requires v.link in w.links && Backed(w, w.links[v.link])
  {
    e.Raw? || !Active(w.files[w.links[v.link].file.id].category)
  }

  predicate CounterAdmits(cells: Cells, w: World, v: Visitor, now: int)
    requires v.link in w.links
  {
    var l := w.links[v.link];
    Counted(l.policy) ==> Admit(CellIn(cells, ViewKey(v.link)), l.expiry, MaxViewsCap(l.policy), now).1
  }

  /** Content is attempted exactly when the limiter, all the gates and the counter
      allow it; a page needs the same gates and never the counter. */
  lemma PipelineRefinesConjunction(cfg: Config, w: World, cells: Cells, e: Endpoint, v: Visitor, now: int)
    ensures var a := Handle(cfg, w, cells, e, v, now).1;
            var open := LimiterAllows(cells, v, now) && AllGates(cfg, w, e, v, now);
            && (Content(a) <==> open && WantsContent(e, w, v) && CounterAdmits(cells, w, v, now))
            && (a.ToRender? || a.Wrapper? <==> open && !WantsContent(e, w, v))
            && (a.ToRender? ==> a.token == Grant(v.link, Bucket(now)) && !OnRenderDomain(cfg, v)
                                && ByCookies(w.links[v.link].policy, v))
            && (a.Wrapper? ==> a.token == v.grant && OnRenderDomain(cfg, v)
                               && (cfg.renderDomain != "" ==> ValidGrant(v, now)))
            && (a.Bytes? ==> (a.attachment <==> e.Raw? && v.download && w.links[v.link].policy.allowDownload))
  {
    GatesAreAConjunction(cfg, w, e, v, now);
    assert LimiterKey(v.ip)[0] != ViewKey(v.link)[0];
  }

  /** The counter of a link moves, by one step of its script, exactly when all the
      gates before it hold for a counted link's content; nothing else in Redis but
      the limiter's key ever changes. */
  lemma CounterMovesOnceOrNever(cfg: Config, w: World, cells: Cells, e: Endpoint, v: Visitor, now: int, key: string)
    ensures var cells' := Handle(cfg, w, cells, e, v, now).0;
            var spends := && LimiterAllows(cells, v, now) && AllGates(cfg, w, e, v, now)
                          && WantsContent(e, w, v)
                          && (w.links[v.link].policy.singleUse || w.links[v.link].policy.maxViews != 0);
            key != LimiterKey(v.ip) ==>
              CellIn(cells', key) ==
                if spends && key == ViewKey(v.link) then
                  var p := w.links[v.link].policy;
                  ConsumeView(CellIn(cells, key), now, if p.singleUse then 1 else p.maxViews,
                              TtlOf(w.links[v.link].expiry, now)).0
                else CellIn(cells, key)
  {
    GatesAreAConjunction(cfg, w, e, v, now);
    assert LimiterKey(v.ip)[0] != ViewKey(v.link)[0];
  }

  /** A signed URL is handed out exactly for passive images and documents of a link
      without a view cap, when all gates hold and a public endpoint is configured. */
  lemma RedirectExactly(cfg: Config, w: World, cells: Cells, e: Endpoint, v: Visitor, now: int)
    ensures Handle(cfg, w, cells, e, v, now).1.ToStore? <==>
              && LimiterAllows(cells, v, now) && AllGates(cfg, w, e, v, now)
              && e.Preview? && cfg.publicEndpoint
              && !Counted(w.links[v.link].policy)
              && w.files[w.links[v.link].file.id].category in {Image, Pdf}
  {
    GatesAreAConjunction(cfg, w, e, v, now);
  }

  /** Without the secret a visitor learns nothing: the answer and the effect are the
      same whatever links and files there are, or whether the link exists. */
  lemma NoOracle(cfg: Config, w1: World, w2: World, cells: Cells, e: Endpoint, v: Visitor, password: string, now: int)
    requires v.link in w1.links ==> w1.links[v.link].secret != v.secret
    requires v.link in w2.links ==> w2.links[v.link].secret != v.secret
    ensures Handle(cfg, w1, cells, e, v, now) == Handle(cfg, w2, cells, e, v, now)
    ensures TryUnlock(w1, cells, v, password, now) == TryUnlock(w2, cells, v, password, now)
  {
  }

  /** The link exists, with this secret, and is not revoked. */
  predicate Reached(w: World, v: Visitor) {
    v.link in w.links && w.links[v.link].secret == v.secret && !w.links[v.link].revoked
  }

  /** A frozen link says so to whoever has its secret, and nobody else. */
  lemma FrozenExactly(cfg: Config, w: World, cells: Cells, e: Endpoint, v: Visitor, now: int)
    ensures Handle(cfg, w, cells, e, v, now).1 == Frozen <==>
              LimiterAllows(cells, v, now) && Reached(w, v) && w.links[v.link].frozen
  {
  }

  /** The link passes its own gates and its file is ready; the backing's expiry is
      looked at only after the visitor's gates. */
  predicate Usable(w: World, v: Visitor, now: int) {
    && Reached(w, v) && !w.links[v.link].frozen && !Past(w.links[v.link].expiry, now)
    && Backed(w, w.links[v.link])
  }

  /** The visitor's cookies are what this request is gated by. */
  predicate CookieGated(cfg: Config, w: World, e: Endpoint, v: Visitor)
    requires v.link in w.links && Backed(w, w.links[v.link])
  {
    var active := Active(w.files[w.links[v.link].file.id].category);
    if e.Raw? then active && cfg.renderDomain == ""
    else active && cfg.renderDomain != "" ==> !OnRenderDomain(cfg, v)
  }

  /** Which visitors are asked to log in: those whose address passes, on a usable
      link that wants an account which theirs is not. */
  lemma LoginRequiredExactly(cfg: Config, w: World, cells: Cells, e: Endpoint, v: Visitor, now: int)
    ensures Handle(cfg, w, cells, e, v, now).1 == LoginRequired <==>
              && LimiterAllows(cells, v, now) && Usable(w, v, now) && CookieGated(cfg, w, e, v)
              && var p := w.links[v.link].policy;
              && IpPasses(p, v.ip) && AccountRequired(p) && !AccountPasses(p, v.session)
  {
  }

  /** Which visitors see the password page: those who pass everything else. */
  lemma PasswordPageExactly(cfg: Config, w: World, cells: Cells, e: Endpoint, v: Visitor, now: int)
    ensures Handle(cfg, w, cells, e, v, now).1 == PasswordPage <==>
              && LimiterAllows(cells, v, now) && Usable(w, v, now) && CookieGated(cfg, w, e, v) && e.Preview?
              && var p := w.links[v.link].policy;
              && IpPasses(p, v.ip) && (AccountRequired(p) ==> AccountPasses(p, v.session))
              && PasswordRequired(p) && !HasUnlock(v)
  {
  }

  /** An unlock token is given exactly for a password that the stored hash verifies, on
      a link that asks for one, within the attempts; so a link of kind "password"
      without a stored password stays locked for everyone. */
  lemma UnlockExactly(w: World, cells: Cells, v: Visitor, password: string, now: int)
    ensures var a := TryUnlock(w, cells, v, password, now).1;
            && (a.Unlocked? <==>
                  && Limited(cells, UnlockKey(v), 5, 15 * 60, now).1
                  && Reached(w, v) && !w.links[v.link].frozen && !Past(w.links[v.link].expiry, now)
                  && PasswordRequired(w.links[v.link].policy)
                  && w.links[v.link].policy.password.Password?
                  && password in w.links[v.link].policy.password.opens)
            && (a.Unlocked? ==> a.token == Unlock(v.link))
            && !Content(a)
  {
  }

  /** Only the kinds "password" and "account" mean anything: with any other kind, also
      "single_use" and "ip_allowlist", the other fields alone decide. */
  lemma OtherKindsMeanNothing(cfg: Config, w: World, cells: Cells, e: Endpoint, v: Visitor, now: int, kind: string)
    requires v.link in w.links
    requires kind != "password" && kind != "account"
    requires w.links[v.link].policy.kind != "password" && w.links[v.link].policy.kind != "account"
    ensures Handle(cfg, WithKind(w, v.link, kind), cells, e, v, now) == Handle(cfg, w, cells, e, v, now)
  {
    var w' := WithKind(w, v.link, kind);
    assert Gates(cfg, w', e, v, now) == Gates(cfg, w, e, v, now);
  }

  /** The same for the unlock form. */
  lemma OtherKindsUnlockNothing(w: World, cells: Cells, v: Visitor, password: string, now: int, kind: string)
    requires v.link in w.links
    requires kind != "password" && kind != "account"
    requires w.links[v.link].policy.kind != "password" && w.links[v.link].policy.kind != "account"
    ensures TryUnlock(WithKind(w, v.link, kind), cells, v, password, now) == TryUnlock(w, cells, v, password, now)
  {
  }

  /** The request reaches the point where content is served, or a view is counted. */
  predicate Asks(cfg: Config, w: World, cells: Cells, e: Endpoint, v: Visitor, now: int) {
    LimiterAllows(cells, v, now) && AllGates(cfg, w, e, v, now) && WantsContent(e, w, v)
  }

  /** The counter that a first view at t1 starts has gone by t2. */
  predicate CounterGone(expiry: Expiry, t1: int, t2: int) {
    FirstDeadline(expiry, t1).At? && t2 > FirstDeadline(expiry, t1).t
  }

  lemma FirstCount(cells: Cells, link: string, l: Link, now: int)
    requires CellIn(cells, ViewKey(link)).Absent? && Counted(l.policy)
    ensures var (cells', ok) := CountView(cells, link, l, now);
            ok && CellIn(cells', ViewKey(link)) == Held(Entry(1, FirstDeadline(l.expiry, now)))
  {
  }

  lemma SecondCount(c: Cell, l: Link, t1: int, t2: int)
    requires c == Held(Entry(1, FirstDeadline(l.expiry, t1))) && Counted(l.policy)
    ensures Admit(c, l.expiry, MaxViewsCap(l.policy), t2).1 <==>
              MaxViewsCap(l.policy) != 1 || CounterGone(l.expiry, t1, t2)
  {
  }

  /** When a link is one-time. The first request that asks for the content gets it; the
      next one, by anyone, gets it too exactly when neither singleUse is set nor
      maxViews is one, or when the counter of the first view has gone. The kind of the
      policy plays no part. */
  lemma OneTimeIff(cfg: Config, w: World, cells: Cells,
                   e1: Endpoint, v1: Visitor, t1: int, e2: Endpoint, v2: Visitor, t2: int)
    requires v1.link == v2.link && CellIn(cells, ViewKey(v1.link)).Absent?
    requires Asks(cfg, w, cells, e1, v1, t1)
    requires Asks(cfg, w, Handle(cfg, w, cells, e1, v1, t1).0, e2, v2, t2)
    ensures var (cells1, first) := Handle(cfg, w, cells, e1, v1, t1);
            var second := Handle(cfg, w, cells1, e2, v2, t2).1;
            var l := w.links[v1.link];
            && Content(first)
            && (Content(second) <==>
                  (!l.policy.singleUse && l.policy.maxViews != 1) || CounterGone(l.expiry, t1, t2))
  {
    var l := w.links[v1.link];
    var cells1 := Handle(cfg, w, cells, e1, v1, t1).0;
    PipelineRefinesConjunction(cfg, w, cells, e1, v1, t1);
    PipelineRefinesConjunction(cfg, w, cells1, e2, v2, t2);
    if Counted(l.policy) {
      assert LimiterKey(v1.ip)[0] != ViewKey(v1.link)[0];
      CounterMovesOnceOrNever(cfg, w, cells, e1, v1, t1, ViewKey(v1.link));
      FirstCount(cells, v1.link, l, t1);
      SecondCount(CellIn(cells1, ViewKey(v1.link)), l, t1, t2);
    }
  }

  function WithKind(w: World, link: string, kind: string): World
    requires link in w.links
  {
    var l := w.links[link];
    w.(links := w.links[link := l.(policy := l.policy.(kind := kind))])
  }
}

/** The answers of the pipeline, from the stored fields alone. */
module AdmissionEffects {
  import opened Arithmetic
  import opened Splitting
  import opened TimedKeys
  import opened Expiries
  import opened Policies
  import opened Admission

  /** The visitor's address is on the allowlist, if there is one. */
  ghost predicate AddressListed(p: Policy, ip: ClientIp) {
    p.allowlist != [] ==>
      && ip.addr != NoAddress
      && exists i :: 0 <= i < |p.allowlist|
           && match p.allowlist[i] case Network(hosts) => ip.addr.n in hosts case Text(t) => t == ip.text
  }

  lemma AddressExactly(p: Policy, ip: ClientIp)
    ensures IpPasses(p, ip) <==> AddressListed(p, ip)
  {
    if AddressListed(p, ip) && p.allowlist != [] {
      var i :| 0 <= i < |p.allowlist|
               && match p.allowlist[i] case Network(hosts) => ip.addr.n in hosts case Text(t) => t == ip.text;
      assert p.allowlist[i] in p.allowlist && Covers(p.allowlist[i], ip);
    }
    if IpPasses(p, ip) && p.allowlist != [] {
      var r :| r in p.allowlist && Covers(r, ip);
      var i :| 0 <= i < |p.allowlist| && p.allowlist[i] == r;
    }
  }

  /** The visitor is logged in as the policy wants, if it wants an account. */
  ghost predicate LoggedIn(p: Policy, who: Session) {
    p.kind == "account" || (p.account != NoAccount && p.account.required) ==>
      && who != NoSession
      && (p.account == NoAccount
          || (p.account.users == [] && p.account.tenants == [])
          || (exists i :: 0 <= i < |p.account.users| && p.account.users[i] == who.id)
          || exists i, j :: 0 <= i < |who.tenants| && 0 <= j < |p.account.tenants|
                            && who.tenants[i] == p.account.tenants[j])
  }

  lemma LoggedInExactly(p: Policy, who: Session)
    ensures (AccountRequired(p) ==> AccountPasses(p, who)) <==> LoggedIn(p, who)
  {
    if who.User? && p.account.Account? {
      assert who.id in p.account.users <==> exists i :: 0 <= i < |p.account.users| && p.account.users[i] == who.id;
      if t :| t in who.tenants && t in p.account.tenants {
        var i :| 0 <= i < |who.tenants| && who.tenants[i] == t;
        var j :| 0 <= j < |p.account.tenants| && p.account.tenants[j] == t;
      }
      if i, j :| 0 <= i < |who.tenants| && 0 <= j < |p.account.tenants| && who.tenants[i] == p.account.tenants[j] {
        assert who.tenants[i] in who.tenants && who.tenants[i] in p.account.tenants;
      }
    }
  }

  /** The link with this secret, neither revoked nor frozen nor expired, and its file. */
  predicate Found(w: World, v: Visitor, now: int, l: Link, b: Backing) {
    && v.link in w.links && w.links[v.link] == l && l.secret == v.secret && !l.revoked && !l.frozen
    && (l.expiry != NoExpiry ==> now <= l.expiry.at)
    && l.file != NoFile && l.file.id in w.files && w.files[l.file.id] == b && b.ready
  }

  predicate LetThrough(cells: Cells, key: string, limit: int, window: int, now: int) {
    RateLimit(if key in cells then cells[key] else Absent, now, limit, window).1.allowed
  }

  /** The views that the link's counter holds now. */
  function Views(cells: Cells, link: string, now: int): int {
    if "view:" + link !in cells then 0
    else
      match cells["view:" + link]
      case Absent => 0
      case Held(Entry(n, Never)) => n
      case Held(Entry(n, At(t))) => if now <= t then n else 0
  }

  predicate ViewLeft(cells: Cells, link: string, p: Policy, now: int) {
    if p.singleUse then Views(cells, link, now) < 1
    else p.maxViews <= 0 || Views(cells, link, now) < p.maxViews
  }

  lemma ViewLeftExactly(cells: Cells, link: string, l: Link, now: int)
    requires Views(cells, link, now) >= 0
    ensures CountView(cells, link, l, now).1 <==> ViewLeft(cells, link, l.policy, now)
  {
  }

  lemma LimiterLeavesViews(cells: Cells, ip: ClientIp, link: string, now: int, t: int)
    ensures Views(Limited(cells, LimiterKey(ip), 600, 60, now).0, link, t) == Views(cells, link, t)
  {
    assert LimiterKey(ip)[0] != ("view:" + link)[0];
  }

  /** The answer to a visitor who is authorized by cookies, gate by gate. */
  ghost function ByCookiesAnswer(p: Policy, v: Visitor, locked: Answer, after: Answer): Answer {
    if !AddressListed(p, v.ip) then Forbidden
    else if !LoggedIn(p, v.session) then LoginRequired
    else if (p.kind == "password" || (p.password != NoPassword && p.password.enabled)) && v.cookie != Unlock(v.link)
    then locked
    else after
  }

  lemma ByCookiesExactly(p: Policy, v: Visitor, locked: Answer, after: Answer)
    ensures var g := CookieGate(p, v, locked);
            ByCookiesAnswer(p, v, locked, after) == if g.Stop? then g.answer else after
  {
    AddressExactly(p, v.ip);
    LoggedInExactly(p, v.session);
  }

  /** Passive content, for everyone who has the link: refused by the limiter, by the
      address, the account and the password, by the file's expiry, by the view cap, and
      served otherwise, from a signed URL only for images and documents without a cap. */
  lemma PassiveExactly(cfg: Config, w: World, cells: Cells, v: Visitor, now: int, l: Link, b: Backing)
    requires Found(w, v, now, l, b) && b.category !in {Html, Svg} && Views(cells, v.link, now) >= 0
    ensures Handle(cfg, w, cells, Preview, v, now).1 ==
              if !LetThrough(cells, "rl:preview:" + v.ip.text, 600, 60, now) then TooMany
              else
                ByCookiesAnswer(l.policy, v, PasswordPage,
                  if b.expiry != NoExpiry && b.expiry.at < now then Gone
                  else if !ViewLeft(cells, v.link, l.policy, now) then Gone
                  else if cfg.publicEndpoint && b.category in {Image, Pdf}
                          && !l.policy.singleUse && l.policy.maxViews == 0
                  then ToStore
                  else Bytes(false))
  {
    assert "rl:preview:" + v.ip.text == LimiterKey(v.ip);
    var cells1 := Limited(cells, LimiterKey(v.ip), 600, 60, now).0;
    LimiterLeavesViews(cells, v.ip, v.link, now, now);
    ViewLeftExactly(cells1, v.link, l, now);
    ByCookiesExactly(l.policy, v, PasswordPage, Gone);
    EffectiveIsEarliest(l.expiry, b.expiry, now);
  }

  /** Who is asked for a password, and who to log in: on passive content, the visitor who
      passes what comes before, exactly when the stored policy wants it. */
  lemma AskedExactly(cfg: Config, w: World, cells: Cells, v: Visitor, now: int, l: Link, b: Backing)
    requires Found(w, v, now, l, b) && b.category !in {Html, Svg} && Views(cells, v.link, now) >= 0
    requires AddressListed(l.policy, v.ip)
    ensures var a := Handle(cfg, w, cells, Preview, v, now).1;
            var through := LetThrough(cells, "rl:preview:" + v.ip.text, 600, 60, now);
            var p := l.policy;
            && (v.session == NoSession ==>
                  (a == LoginRequired <==>
                     through && (p.kind == "account" || (p.account != NoAccount && p.account.required))))
            && (LoggedIn(p, v.session) && v.cookie != Unlock(v.link) ==>
                  (a == PasswordPage <==>
                     through && (p.kind == "password" || (p.password != NoPassword && p.password.enabled))))
  {
    PassiveExactly(cfg, w, cells, v, now, l, b);
  }

  /** The visitor is on the render origin: the host name before any port. */
  lemma RenderOriginExactly(cfg: Config, v: Visitor)
    requires ':' !in cfg.renderDomain
    ensures OnRenderDomain(cfg, v) <==>
              || cfg.renderDomain == "" || v.host == cfg.renderDomain
              || (|v.host| > |cfg.renderDomain| && v.host[..|cfg.renderDomain| + 1] == cfg.renderDomain + ":")
  {
    var rd := cfg.renderDomain;
    if |v.host| > |rd| && v.host[..|rd| + 1] == rd + ":" {
      assert v.host == rd + [':'] + v.host[|rd| + 1..];
      SplitAtFirst(rd, v.host[|rd| + 1..], ':');
    }
  }

  /** This grant is for the link, and for the current ten minutes or the ones before. */
  predicate Granted(v: Visitor, now: int) {
    v.grant.Grant? && v.grant.link == v.link
    && (v.grant.bucket == now / SECOND / 600 || v.grant.bucket == now / SECOND / 600 - 1)
  }

  lemma HandleIsServe(cfg: Config, w: World, cells: Cells, e: Endpoint, v: Visitor, now: int)
    ensures Handle(cfg, w, cells, e, v, now).1 ==
              if LetThrough(cells, "rl:preview:" + v.ip.text, 600, 60, now)
              then Serve(cfg, w, Limited(cells, LimiterKey(v.ip), 600, 60, now).0, e, v, now).1 else TooMany
  {
    assert "rl:preview:" + v.ip.text == LimiterKey(v.ip);
  }

  lemma WrapperServed(cfg: Config, w: World, cells: Cells, v: Visitor, now: int, l: Link, b: Backing)
    requires Found(w, v, now, l, b) && b.category in {Html, Svg}
    requires cfg.renderDomain != "" && OnRenderDomain(cfg, v)
    ensures Serve(cfg, w, cells, Preview, v, now).1 ==
              if !Granted(v, now) || !AddressListed(l.policy, v.ip) then Forbidden
              else if b.expiry != NoExpiry && b.expiry.at < now then Gone
              else Wrapper(v.grant)
  {
    AddressExactly(l.policy, v.ip);
    EffectiveIsEarliest(l.expiry, b.expiry, now);
  }

  lemma BounceServed(cfg: Config, w: World, cells: Cells, v: Visitor, now: int, l: Link, b: Backing)
    requires Found(w, v, now, l, b) && b.category in {Html, Svg}
    requires cfg.renderDomain != "" ==> !OnRenderDomain(cfg, v)
    ensures Serve(cfg, w, cells, Preview, v, now).1 ==
              ByCookiesAnswer(l.policy, v, PasswordPage,
                if b.expiry != NoExpiry && b.expiry.at < now then Gone
                else if cfg.renderDomain == "" then Wrapper(v.grant)
                else ToRender(Grant(v.link, now / SECOND / 600)))
  {
    ByCookiesExactly(l.policy, v, PasswordPage, Gone);
    EffectiveIsEarliest(l.expiry, b.expiry, now);
  }

  /** The pages of active content: a bounce from the control plane to the render origin,
      and the wrapper there; the wrapper at once when no render domain is set. */
  lemma ActivePageExactly(cfg: Config, w: World, cells: Cells, v: Visitor, now: int, l: Link, b: Backing)
    requires Found(w, v, now, l, b) && b.category in {Html, Svg}
    ensures var expired := b.expiry != NoExpiry && b.expiry.at < now;
            Handle(cfg, w, cells, Preview, v, now).1 ==
              if !LetThrough(cells, "rl:preview:" + v.ip.text, 600, 60, now) then TooMany
              else if cfg.renderDomain != "" && OnRenderDomain(cfg, v) then
                if !Granted(v, now) || !AddressListed(l.policy, v.ip) then Forbidden
                else if expired then Gone else Wrapper(v.grant)
              else
                ByCookiesAnswer(l.policy, v, PasswordPage,
                  if expired then Gone
                  else if cfg.renderDomain == "" then Wrapper(v.grant)
                  else ToRender(Grant(v.link, now / SECOND / 600)))
  {
    var cells1 := Limited(cells, LimiterKey(v.ip), 600, 60, now).0;
    HandleIsServe(cfg, w, cells, Preview, v, now);
    if cfg.renderDomain != "" && OnRenderDomain(cfg, v) {
      WrapperServed(cfg, w, cells1, v, now, l, b);
    } else {
      BounceServed(cfg, w, cells1, v, now, l, b);
    }
  }

  lemma RawServed(cfg: Config, w: World, cells: Cells, v: Visitor, now: int, l: Link, b: Backing)
    requires Found(w, v, now, l, b) && Views(cells, v.link, now) >= 0
    ensures var served :=
              if b.expiry != NoExpiry && b.expiry.at < now then Gone
              else if !ViewLeft(cells, v.link, l.policy, now) then Gone
              else Bytes(v.download && l.policy.allowDownload);
            Serve(cfg, w, cells, Raw, v, now).1 ==
              if b.category !in {Html, Svg} then NotFound
              else if cfg.renderDomain == "" then ByCookiesAnswer(l.policy, v, Forbidden, served)
              else if !OnRenderDomain(cfg, v) || !Granted(v, now) || !AddressListed(l.policy, v.ip) then Forbidden
              else served
  {
    ViewLeftExactly(cells, v.link, l, now);
    AddressExactly(l.policy, v.ip);
    ByCookiesExactly(l.policy, v, Forbidden, Gone);
    EffectiveIsEarliest(l.expiry, b.expiry, now);
  }

  /** The bytes of active content: on the render origin by a grant and the address, and
      by cookies when no render domain is set. */
  lemma RawExactly(cfg: Config, w: World, cells: Cells, v: Visitor, now: int, l: Link, b: Backing)
    requires Found(w, v, now, l, b) && Views(cells, v.link, now) >= 0
    ensures var served :=
              if b.expiry != NoExpiry && b.expiry.at < now then Gone
              else if !ViewLeft(cells, v.link, l.policy, now) then Gone
              else Bytes(v.download && l.policy.allowDownload);
            Handle(cfg, w, cells, Raw, v, now).1 ==
              if !LetThrough(cells, "rl:preview:" + v.ip.text, 600, 60, now) then TooMany
              else if b.category !in {Html, Svg} then NotFound
              else if cfg.renderDomain == "" then ByCookiesAnswer(l.policy, v, Forbidden, served)
              else if !OnRenderDomain(cfg, v) || !Granted(v, now) || !AddressListed(l.policy, v.ip) then Forbidden
              else served
  {
    HandleIsServe(cfg, w, cells, Raw, v, now);
    LimiterLeavesViews(cells, v.ip, v.link, now, now);
    RawServed(cfg, w, Limited(cells, LimiterKey(v.ip), 600, 60, now).0, v, now, l, b);
    SameViews(cells, Limited(cells, LimiterKey(v.ip), 600, 60, now).0, v.link, l.policy, now);
  }

  lemma SameViews(cells: Cells, cells': Cells, link: string, p: Policy, now: int)
    requires Views(cells, link, now) == Views(cells', link, now)
    ensures ViewLeft(cells, link, p, now) == ViewLeft(cells', link, p, now)
  {
  }

  /** What a visitor is told about the link itself, on every route. */
  lemma LinkRefusalsExactly(cfg: Config, w: World, cells: Cells, e: Endpoint, v: Visitor, now: int)
    requires LetThrough(cells, "rl:preview:" + v.ip.text, 600, 60, now)
    ensures var a := Handle(cfg, w, cells, e, v, now).1;
            && (v.link !in w.links || w.links[v.link].secret != v.secret ==> a == NotFound)
            && (v.link in w.links && w.links[v.link].secret == v.secret ==>
                  var l := w.links[v.link];
                  && (l.revoked ==> a == Gone)
                  && (!l.revoked && l.frozen ==> a == Frozen)
                  && (!l.revoked && !l.frozen && l.expiry != NoExpiry && l.expiry.at < now ==> a == Gone)
                  && (!l.revoked && !l.frozen && (l.expiry != NoExpiry ==> now <= l.expiry.at) ==>
                        l.file == NoFile || l.file.id !in w.files || !w.files[l.file.id].ready ==> a == Gone))
  {
    assert "rl:preview:" + v.ip.text == LimiterKey(v.ip);
  }

  /** The unlock form of a live link: a token for a password that the stored hash
      verifies, when the link asks for one; a link of kind "password" without a stored
      password stays locked. */
  lemma UnlockAnswers(w: World, cells: Cells, v: Visitor, password: string, now: int)
    requires v.link in w.links && w.links[v.link].secret == v.secret
    requires !w.links[v.link].revoked && !w.links[v.link].frozen
    requires w.links[v.link].expiry != NoExpiry ==> now <= w.links[v.link].expiry.at
    ensures var p := w.links[v.link].policy;
            TryUnlock(w, cells, v, password, now).1 ==
              if !LetThrough(cells, "rl:unlock:" + v.link + ":" + v.ip.text, 5, 900, now) then TooMany
              else if p.password == NoPassword || (p.kind != "password" && !p.password.enabled) then BadRequest
              else if password !in p.password.opens then Forbidden
              else Unlocked(Unlock(v.link))
  {
    assert "rl:unlock:" + v.link + ":" + v.ip.text == UnlockKey(v);
  }

  /** The limiter keys of two visitors are one exactly when it is the same address, and
      for the unlock form the same link too, as link ids hold no colon. */
  lemma LimiterKeysExactly(v: Visitor, u: Visitor)
    requires ':' !in v.link && ':' !in u.link
    ensures LimiterKey(v.ip) == LimiterKey(u.ip) <==> v.ip.text == u.ip.text
    ensures UnlockKey(v) == UnlockKey(u) <==> v.link == u.link && v.ip.text == u.ip.text
  {
    assert LimiterKey(v.ip)[11..] == v.ip.text && LimiterKey(u.ip)[11..] == u.ip.text;
    assert UnlockKey(v)[10..] == v.link + [':'] + v.ip.text && UnlockKey(u)[10..] == u.link + [':'] + u.ip.text;
    SplitAtFirst(v.link, v.ip.text, ':');
    SplitAtFirst(u.link, u.ip.text, ':');
  }
}

module VisitorService {
  import opened Arithmetic
  import opened TimedKeys
  import opened Expiries
  import opened Policies
  import opened Admission

  /** The API server: database rows, Redis, and the two configuration values. */
  class Server {
    const cfg: Config
    const redis: Client
    var links: map<string, Link>
    var files: map<string, Backing>

    constructor (cfg: Config, redis: Client)
      ensures this.cfg == cfg && this.redis == redis && links == map[] && files == map[]
    {
      this.cfg := cfg;
      this.redis := redis;
      links := map[];
      files := map[];
    }

    ghost function Rows(): World
      reads this
    {
      World(links, files)
    }

    method AdmitLink(v: Visitor, now: int) returns (g: Gate)
      ensures g == LinkGate(Rows(), v, now)
    {
      if v.link !in links { return Stop(NotFound); }
      var row := links[v.link];
      if row.secret != v.secret { return Stop(NotFound); }
      if row.revoked { return Stop(Gone); }
      if row.frozen { return Stop(Frozen); }
      if row.expiry.Expires? && row.expiry.at < now { return Stop(Gone); }
      return Pass;
    }

    method GateIp(p: Policy, v: Visitor) returns (g: Gate)
      ensures g == Demand(IpPasses(p, v.ip), Forbidden)
    {
      var ok := IpAllowed(p, v.ip);
      return if ok then Pass else Stop(Forbidden);
    }

    method GateAccount(p: Policy, v: Visitor) returns (g: Gate)
      ensures g == Demand(AccountRequired(p) ==> AccountPasses(p, v.session), LoginRequired)
    {
      if AccountRequired(p) {
        var ok := AccountAllowed(p, v.session);
        if !ok { return Stop(LoginRequired); }
      }
      return Pass;
    }

    /** gateIP, gateAccount and the unlock cookie, the three in a row. */
    method GateCookies(p: Policy, v: Visitor, locked: Answer) returns (g: Gate)
      ensures g == CookieGate(p, v, locked)
    {
      g := GateIp(p, v);
      if g.Stop? { return; }
      g := GateAccount(p, v);
      if g.Stop? { return; }
      if PasswordRequired(p) && v.cookie != Unlock(v.link) { return Stop(locked); }
    }

    method ValidRenderGrant(link: string, g: Token, now: int) returns (ok: bool)
      ensures ok <==> g == Grant(link, Bucket(now)) || g == Grant(link, Bucket(now) - 1)
    {
      if g == Nothing { return false; }
      var bucket := now / SECOND / 600;
      var accepted := [bucket, bucket - 1];
      for i := 0 to |accepted|
        invariant forall j :: 0 <= j < i ==> g != Grant(link, accepted[j])
      {
        if g == Grant(link, accepted[i]) { return true; }
      }
      assert g != Grant(link, accepted[0]) && g != Grant(link, accepted[1]);
      return false;
    }

    method ConsumeView(id: string, link: Link, now: int) returns (ok: bool)
      modifies redis
      ensures (redis.cells, ok) == CountView(old(redis.cells), id, link, now)
    {
      var cap := MaxViewsCap(link.policy);
      if cap == 0 && !link.policy.singleUse { return true; }
      var ttl := 0;
      if link.expiry.Expires? { ttl := link.expiry.at - now; }
      var count;
      ok, count := redis.ConsumeViewOf(id, cap, ttl, now);
    }

    /** handlePreviewRaw and the passive half of handlePreview end alike. */
    method Stream(e: Endpoint, v: Visitor, link: Link, backing: Backing, now: int) returns (a: Answer)
      modifies redis
      ensures redis.cells == CountView(old(redis.cells), v.link, link, now).0
      ensures a == if CountView(old(redis.cells), v.link, link, now).1
                   then ServeBytes(cfg, e, link, backing, v) else Gone
    {
      var ok := ConsumeView(v.link, link, now);
      if !ok { return Gone; }
      if e.Raw? { return Bytes(v.download && link.policy.allowDownload); }
      if MaxViewsCap(link.policy) == 0 && cfg.publicEndpoint {
        match backing.category {
          case Image => return ToStore;
          case Pdf => return ToStore;
          case _ =>
        }
      }
      return Bytes(false);
    }

    method ServeActive(v: Visitor, link: Link, backing: Backing, now: int) returns (a: Answer)
      requires Active(backing.category)
      ensures var g := VisitorGate(cfg, Preview, link, backing, v, now)
                       .Then(Demand(!Past(EffectiveExpiry(link.expiry, backing.expiry), now), Gone));
              a == if g.Stop? then g.answer
                   else if GoalOf(cfg, Preview, backing, v).Bounce? then ToRender(Grant(v.link, Bucket(now)))
                   else Wrapper(v.grant)
    {
      var expired := Past(EffectiveExpiry(link.expiry, backing.expiry), now);
      if cfg.renderDomain != "" && !OnRenderDomain(cfg, v) {
        var g := GateCookies(link.policy, v, PasswordPage);
        if g.Stop? { return g.answer; }
        if expired { return Gone; }
        return ToRender(Grant(v.link, now / SECOND / 600));
      }
      if cfg.renderDomain != "" {
        var ok := ValidRenderGrant(v.link, v.grant, now);
        if !ok { return Forbidden; }
        var g := GateIp(link.policy, v);
        if g.Stop? { return g.answer; }
      } else {
        var g := GateCookies(link.policy, v, PasswordPage);
        if g.Stop? { return g.answer; }
      }
      if expired { return Gone; }
      return Wrapper(v.grant);
    }

    method HandlePreview(v: Visitor, now: int) returns (a: Answer)
      modifies redis
      ensures (redis.cells, a) == Handle(cfg, Rows(), old(redis.cells), Preview, v, now)
    {
      var res := redis.RateLimitOf("preview:" + v.ip.text, 600, 60, now);
      if !res.allowed { return TooMany; }
      var g := AdmitLink(v, now);
      if g.Stop? { return g.answer; }
      var link := links[v.link];
      if link.file.NoFile? || link.file.id !in files || !files[link.file.id].ready { return Gone; }
      var backing := files[link.file.id];
      if Active(backing.category) {
        a := ServeActive(v, link, backing, now);
        return;
      }
      g := GateCookies(link.policy, v, PasswordPage);
      if g.Stop? { return g.answer; }
      if Past(EffectiveExpiry(link.expiry, backing.expiry), now) { return Gone; }
      a := Stream(Preview, v, link, backing, now);
    }

    method HandlePreviewRaw(v: Visitor, now: int) returns (a: Answer)
      modifies redis
      ensures (redis.cells, a) == Handle(cfg, Rows(), old(redis.cells), Raw, v, now)
    {
      var res := redis.RateLimitOf("preview:" + v.ip.text, 600, 60, now);
      if !res.allowed { return TooMany; }
      var g := AdmitLink(v, now);
      if g.Stop? { return g.answer; }
      var link := links[v.link];
      if link.file.NoFile? || link.file.id !in files || !files[link.file.id].ready { return Gone; }
      var backing := files[link.file.id];
      if !Active(backing.category) { return NotFound; }
      if cfg.renderDomain != "" {
        if !OnRenderDomain(cfg, v) { return Forbidden; }
        var ok := ValidRenderGrant(v.link, v.grant, now);
        if !ok { return Forbidden; }
        g := GateIp(link.policy, v);
        if g.Stop? { return g.answer; }
      } else {
        g := GateCookies(link.policy, v, Forbidden);
        if g.Stop? { return g.answer; }
      }
      if Past(EffectiveExpiry(link.expiry, backing.expiry), now) { return Gone; }
      a := Stream(Raw, v, link, backing, now);
    }

    method HandleUnlock(v: Visitor, password: string, now: int) returns (a: Answer)
      modifies redis
      ensures (redis.cells, a) == TryUnlock(Rows(), old(redis.cells), v, password, now)
    {
      var res := redis.RateLimitOf("unlock:" + v.link + ":" + v.ip.text, 5, 15 * 60, now);
      if !res.allowed { return TooMany; }
      var g := AdmitLink(v, now);
      if g.Stop? { return g.answer; }
      var p := links[v.link].policy;
      if !PasswordRequired(p) || p.password.NoPassword? { return BadRequest; }
      if password !in p.password.opens { return Forbidden; }
      return Unlocked(Unlock(v.link));
    }
  }
}

module AdmissionRuns {
  import opened Arithmetic
  import opened TimedKeys
  import opened Expiries
  import opened Policies
  import opened ViewCap
  import opened Admission

  /** issued is every token the server ever put in an answer. */
  datatype State = State(world: World, cells: Cells, issued: set<Token>)

  datatype Event =
    | Request(endpoint: Endpoint, v: Visitor, now: int)
    | TryPassword(v: Visitor, password: string, now: int)
    | Change(world: World)    // anything the rest of the system does to links and files

  function Reply(cfg: Config, s: State, ev: Event): (Cells, Answer)
    requires !ev.Change?
  {
    match ev
    case Request(e, v, now) => Handle(cfg, s.world, s.cells, e, v, now)
    case TryPassword(v, password, now) => TryUnlock(s.world, s.cells, v, password, now)
  }

  function Given(a: Answer): set<Token> {
    match a
    case ToRender(t) => {t}
    case Unlocked(t) => {t}
    case _ => {}
  }

  function Apply(cfg: Config, s: State, ev: Event): State {
    if ev.Change? then s.(world := ev.world)
    else
      var (cells, a) := Reply(cfg, s, ev);
      State(s.world, cells, s.issued + Given(a))
  }

  function Run(cfg: Config, s: State, es: seq<Event>): State {
    if es == [] then s else Apply(cfg, Run(cfg, s, es[..|es| - 1]), es[|es| - 1])
  }

  predicate Known(s: State, t: Token) { t.Nothing? || t.Junk? || t in s.issued }

  /** The visitor shows tokens the server has issued before, to anyone, or garbage. */
  predicate CanSend(s: State, ev: Event) { !ev.Change? ==> Known(s, ev.v.cookie) && Known(s, ev.v.grant) }

  predicate Later(ev: Event, now: int) { !ev.Change? ==> ev.now <= now }

  /** Possible runs: unforgeable tokens and a clock that does not go back. */
  predicate Possible(cfg: Config, s: State, es: seq<Event>) {
    && (forall i :: 0 <= i < |es| ==> CanSend(Run(cfg, s, es[..i]), es[i]))
    && (forall i, j :: 0 <= i < j < |es| && !es[j].Change? ==> Later(es[i], es[j].now))
  }

  predicate Start(s: State) { s.issued == {} && s.cells == map[] }

  /** The state in which step i is taken, and the answer it gets. */
  function Before(cfg: Config, s: State, es: seq<Event>, i: nat): State
    requires i <= |es|
  {
    Run(cfg, s, es[..i])
  }

  predicate AnsweredAt(cfg: Config, s: State, es: seq<Event>, i: nat, a: Answer)
    requires i < |es|
  {
    !es[i].Change? && Reply(cfg, Before(cfg, s, es, i), es[i]).1 == a
  }

  predicate Gives(t: Token, a: Answer) { t in Given(a) }

  /** Tokens come into circulation with the answers that carry them, and in no other way. */
  lemma IssuedExactly(cfg: Config, s: State, ev: Event)
    ensures ev.Change? ==> Apply(cfg, s, ev).issued == s.issued
    ensures !ev.Change? ==>
              var a := Reply(cfg, s, ev).1;
              Apply(cfg, s, ev).issued == s.issued + if a.ToRender? || a.Unlocked? then {a.token} else {}
  {
  }

  /** Every token in circulation was given in the answer to an earlier step. */
  lemma {:induction false} TokensTrace(cfg: Config, s: State, es: seq<Event>, t: Token)
    requires s.issued == {} && t in Run(cfg, s, es).issued
    ensures exists i, a :: 0 <= i < |es| && AnsweredAt(cfg, s, es, i, a) && Gives(t, a)
  {
    var last := |es| - 1;
    var front := es[..last];
    var before := Run(cfg, s, front);
    if t in before.issued {
      TokensTrace(cfg, s, front, t);
      var i, a :| 0 <= i < |front| && AnsweredAt(cfg, s, front, i, a) && Gives(t, a);
      assert front[..i] == es[..i];
      assert AnsweredAt(cfg, s, es, i, a);
    } else {
      var a := Reply(cfg, before, es[last]).1;
      assert AnsweredAt(cfg, s, es, last, a) && Gives(t, a);
    }
  }

  // ---- Render grants ----

  const RENDER_WINDOW: int := 600 * SECOND

  lemma BucketIsWindow(now: int)
    ensures Bucket(now) == now / RENDER_WINDOW
    ensures Bucket(now) * RENDER_WINDOW <= now < (Bucket(now) + 1) * RENDER_WINDOW
  {
  }

  /** From its issue on, a grant is valid up to the end of the window after the one in
      which it was issued: for 600 seconds at least, and less than 1200. */
  lemma GrantLifetime(v: Visitor, issued: int, now: int)
    requires v.grant == Grant(v.link, Bucket(issued)) && issued <= now
    ensures ValidGrant(v, now) <==> now < (Bucket(issued) + 2) * RENDER_WINDOW
    ensures now <= issued + RENDER_WINDOW ==> ValidGrant(v, now)
    ensures ValidGrant(v, now) ==> now < issued + 2 * RENDER_WINDOW
  {
    BucketIsWindow(issued);
    BucketIsWindow(now);
  }

  /** A bounce to the render origin for this link whose visitor passed the address,
      account and password gates with cookies on the control plane. */
  predicate Bounced(cfg: Config, s: State, ev: Event, link: string) {
    && ev.Request? && ev.endpoint.Preview? && ev.v.link == link
    && !OnRenderDomain(cfg, ev.v)
    && LinkOpen(s.world, ev.v, ev.now)
    && ByCookies(s.world.links[link].policy, ev.v)
    && Reply(cfg, s, ev).1 == ToRender(Grant(link, Bucket(ev.now)))
  }

  /** Only a bounce gives a grant, and only an unlock with the right password gives an
      unlock token. */
  lemma OnlyBouncesGrant(cfg: Config, s: State, ev: Event, link: string, bucket: int)
    requires !ev.Change? && Gives(Grant(link, bucket), Reply(cfg, s, ev).1)
    ensures Bounced(cfg, s, ev, link) && bucket == Bucket(ev.now)
  {
    match ev
    case Request(e, v, now) => PipelineRefinesConjunction(cfg, s.world, s.cells, e, v, now);
    case TryPassword(_, _, _) =>
  }

  predicate RightPassword(cfg: Config, s: State, ev: Event, link: string) {
    && ev.TryPassword? && ev.v.link == link && link in s.world.links
    && var l := s.world.links[link];
    && l.secret == ev.v.secret && !l.revoked && !l.frozen && (l.expiry.Expires? ==> ev.now <= l.expiry.at)
    && l.policy.password.Password? && ev.password in l.policy.password.opens
  }

  lemma OnlyPasswordsUnlock(cfg: Config, s: State, ev: Event, link: string)
    requires !ev.Change? && Gives(Unlock(link), Reply(cfg, s, ev).1)
    ensures RightPassword(cfg, s, ev, link)
  {
    match ev
    case Request(e, v, now) => PipelineRefinesConjunction(cfg, s.world, s.cells, e, v, now);
    case TryPassword(_, _, _) =>
  }

  /** Active bytes with a render domain set need a valid grant. */
  lemma ActiveBytesNeedGrant(cfg: Config, w: World, cells: Cells, e: Endpoint, v: Visitor, now: int)
    requires Content(Handle(cfg, w, cells, e, v, now).1) && cfg.renderDomain != ""
    requires v.link in w.links && Backed(w, w.links[v.link]) && Active(w.files[w.links[v.link].file.id].category)
    ensures ValidGrant(v, now)
  {
    PipelineRefinesConjunction(cfg, w, cells, e, v, now);
  }

  /** A valid grant comes from a bounce of this link less than 1200 seconds before. */
  lemma GrantTrace(cfg: Config, s: State, es: seq<Event>, k: nat)
    requires Start(s) && Possible(cfg, s, es) && k < |es|
    requires es[k].Request? && ValidGrant(es[k].v, es[k].now)
    ensures exists i: nat :: i < k && Bounced(cfg, Before(cfg, s, es, i), es[i], es[k].v.link)
                             && es[k].now - 2 * RENDER_WINDOW < es[i].now <= es[k].now
  {
    var v := es[k].v;
    assert CanSend(Before(cfg, s, es, k), es[k]);
    TokensTrace(cfg, s, es[..k], v.grant);
    var i, a :| 0 <= i < k && AnsweredAt(cfg, s, es[..k], i, a) && Gives(v.grant, a);
    assert es[..k][..i] == es[..i];
    OnlyBouncesGrant(cfg, Before(cfg, s, es, i), es[i], v.link, v.grant.bucket);
    assert Later(es[i], es[k].now);
    GrantLifetime(v, es[i].now, es[k].now);
  }

  /** Bytes of active content with a render domain set: an earlier request for the
      same link, less than 1200 seconds before, passed the address, account and
      password gates on the control plane, whatever happened to the link in between. */
  lemma ActiveBytesTrace(cfg: Config, s: State, es: seq<Event>, k: nat)
    requires Start(s) && Possible(cfg, s, es) && k < |es| && cfg.renderDomain != ""
    requires es[k].Request? && Content(Reply(cfg, Before(cfg, s, es, k), es[k]).1)
    requires var w := Before(cfg, s, es, k).world;
             var link := es[k].v.link;
             link in w.links && Backed(w, w.links[link]) && Active(w.files[w.links[link].file.id].category)
    ensures exists i: nat :: i < k && Bounced(cfg, Before(cfg, s, es, i), es[i], es[k].v.link)
                             && es[k].now - 2 * RENDER_WINDOW < es[i].now <= es[k].now
  {
    var state := Before(cfg, s, es, k);
    ActiveBytesNeedGrant(cfg, state.world, state.cells, es[k].endpoint, es[k].v, es[k].now);
    GrantTrace(cfg, s, es, k);
  }

  /** Whoever shows the unlock cookie of a link comes after the right password for it. */
  lemma UnlockTrace(cfg: Config, s: State, es: seq<Event>, k: nat)
    requires Start(s) && Possible(cfg, s, es) && k < |es|
    requires es[k].Request? && HasUnlock(es[k].v)
    ensures exists i: nat :: i < k && RightPassword(cfg, Before(cfg, s, es, i), es[i], es[k].v.link)
  {
    var link := es[k].v.link;
    assert CanSend(Before(cfg, s, es, k), es[k]);
    TokensTrace(cfg, s, es[..k], Unlock(link));
    var i, a :| 0 <= i < k && AnsweredAt(cfg, s, es[..k], i, a) && Gives(Unlock(link), a);
    assert es[..k][..i] == es[..i];
    OnlyPasswordsUnlock(cfg, Before(cfg, s, es, i), es[i], link);
  }

  /** The link asks for a password whenever it exists in the first k + 1 states. */
  predicate Protected(cfg: Config, s: State, es: seq<Event>, k: nat, link: string)
    requires k < |es|
  {
    forall i: nat :: i <= k ==>
      var w := Before(cfg, s, es, i).world;
      link in w.links ==>
        var p := w.links[link].policy;
        p.kind == "password" || (p.password.Password? && p.password.enabled)
  }

  /** No content of a protected link, passive or active and on any origin, before
      someone gave its right password. */
  lemma ProtectedContentTrace(cfg: Config, s: State, es: seq<Event>, k: nat)
    requires Start(s) && Possible(cfg, s, es) && k < |es|
    requires es[k].Request? && Content(Reply(cfg, Before(cfg, s, es, k), es[k]).1)
    requires Protected(cfg, s, es, k, es[k].v.link)
    ensures exists i: nat :: i < k && RightPassword(cfg, Before(cfg, s, es, i), es[i], es[k].v.link)
  {
    var link := es[k].v.link;
    var state := Before(cfg, s, es, k);
    PipelineRefinesConjunction(cfg, state.world, state.cells, es[k].endpoint, es[k].v, es[k].now);
    if HasUnlock(es[k].v) {
      UnlockTrace(cfg, s, es, k);
    } else {
      ActiveBytesTrace(cfg, s, es, k);
      var i: nat :| i < k && Bounced(cfg, Before(cfg, s, es, i), es[i], link);
      var p := Before(cfg, s, es, i).world.links[link].policy;
      assert p.kind == "password" || (p.password.Password? && p.password.enabled);
      UnlockTrace(cfg, s, es, i);
    }
  }

  // ---- The view cap over whole runs ----

  /** This step runs the counter script of the link. */
  predicate Spends(cfg: Config, s: State, ev: Event, link: string) {
    && ev.Request? && ev.v.link == link
    && LimiterAllows(s.cells, ev.v, ev.now)
    && AllGates(cfg, s.world, ev.endpoint, ev.v, ev.now)
    && WantsContent(ev.endpoint, s.world, ev.v)
    && Counted(s.world.links[link].policy)
  }

  predicate Serves(cfg: Config, s: State, ev: Event, link: string) {
    ev.Request? && ev.v.link == link && Content(Reply(cfg, s, ev).1)
  }

  /** A run with the books kept for one link: the instants at which its counter script
      ran, and how many answers carried its content. */
  datatype Tally = Tally(state: State, spent: seq<int>, served: nat)

  function Count(cfg: Config, t: Tally, ev: Event, link: string): Tally {
    Tally(Apply(cfg, t.state, ev),
          t.spent + (if Spends(cfg, t.state, ev, link) then [ev.now] else []),
          t.served + (if Serves(cfg, t.state, ev, link) then 1 else 0))
  }

  function TallyOf(cfg: Config, s: State, es: seq<Event>, link: string): Tally {
    if es == [] then Tally(s, [], 0)
    else Count(cfg, TallyOf(cfg, s, es[..|es| - 1], link), es[|es| - 1], link)
  }

  lemma {:induction false} TallyIsRun(cfg: Config, s: State, es: seq<Event>, link: string)
    ensures TallyOf(cfg, s, es, link).state == Run(cfg, s, es)
  {
    if es != [] { TallyIsRun(cfg, s, es[..|es| - 1], link); }
  }

  /** While the link exists, its cap and its expiry are these. */
  predicate FixedLink(w: World, link: string, cap: int, expiry: Expiry) {
    link in w.links ==>
      var p := w.links[link].policy;
      cap == (if p.singleUse then 1 else p.maxViews) && w.links[link].expiry == expiry
  }

  predicate FixedThroughout(cfg: Config, s: State, es: seq<Event>, link: string, cap: int, expiry: Expiry) {
    forall i :: 0 <= i <= |es| ==> FixedLink(Run(cfg, s, es[..i]).world, link, cap, expiry)
  }

  lemma PrefixOfPossible(cfg: Config, s: State, es: seq<Event>, n: nat)
    requires Possible(cfg, s, es) && n <= |es|
    ensures Possible(cfg, s, es[..n])
  {
    forall i | 0 <= i < n ensures CanSend(Run(cfg, s, es[..n][..i]), es[..n][i]) {
      assert es[..n][..i] == es[..i];
      assert CanSend(Run(cfg, s, es[..i]), es[i]);
    }
  }

  lemma PrefixOfFixed(cfg: Config, s: State, es: seq<Event>, link: string, cap: int, expiry: Expiry, n: nat)
    requires FixedThroughout(cfg, s, es, link, cap, expiry) && n <= |es|
    ensures FixedThroughout(cfg, s, es[..n], link, cap, expiry)
  {
    forall i | 0 <= i <= n ensures FixedLink(Run(cfg, s, es[..n][..i]).world, link, cap, expiry) {
      assert es[..n][..i] == es[..i];
    }
  }

  /** One step on the counter of a link with a fixed cap. */
  lemma StepOnCounter(cfg: Config, s: State, ev: Event, link: string, cap: int, expiry: Expiry)
    requires FixedLink(s.world, link, cap, expiry) && cap >= 1
    ensures var before := CellIn(s.cells, ViewKey(link));
            var after := CellIn(Apply(cfg, s, ev).cells, ViewKey(link));
            if Spends(cfg, s, ev, link) then
              && after == Admit(before, expiry, cap, ev.now).0
              && Serves(cfg, s, ev, link) == Admit(before, expiry, cap, ev.now).1
              && !Past(expiry, ev.now)
            else after == before && !Serves(cfg, s, ev, link)
  {
    match ev
    case Change(_) =>
    case TryPassword(v, _, _) =>
      assert UnlockKey(v)[0] != ViewKey(link)[0];
    case Request(e, v, now) =>
      assert LimiterKey(v.ip)[0] != ViewKey(link)[0];
      CounterMovesOnceOrNever(cfg, s.world, s.cells, e, v, now, ViewKey(link));
      PipelineRefinesConjunction(cfg, s.world, s.cells, e, v, now);
      ViewKeysDistinct(v.link, link);
  }

  lemma ViewKeysDistinct(a: string, b: string)
    ensures ViewKey(a) == ViewKey(b) <==> a == b
  {
    assert ViewKey(a)[5..] == a && ViewKey(b)[5..] == b;
  }

  predicate AllUpTo(ts: seq<int>, now: int) { forall i :: 0 <= i < |ts| ==> ts[i] <= now }

  lemma {:induction false} SpentBefore(cfg: Config, s: State, es: seq<Event>, link: string, now: int)
    requires forall j :: 0 <= j < |es| ==> Later(es[j], now)
    ensures AllUpTo(TallyOf(cfg, s, es, link).spent, now)
  {
    if es != [] {
      assert Later(es[|es| - 1], now);
      SpentBefore(cfg, s, es[..|es| - 1], link, now);
    }
  }

  lemma OneMoreAttempt(expiry: Expiry, cap: int, ts: seq<int>, now: int)
    requires Attempts(expiry, ts) && AllUpTo(ts, now) && !Past(expiry, now)
    ensures Attempts(expiry, ts + [now])
    ensures CellAfter(expiry, cap, ts + [now]) == Admit(CellAfter(expiry, cap, ts), expiry, cap, now).0
    ensures Admitted(expiry, cap, ts + [now])
         == Admitted(expiry, cap, ts) + if Admit(CellAfter(expiry, cap, ts), expiry, cap, now).1 then 1 else 0
  {
    assert (ts + [now])[..|ts|] == ts;
  }

  /** The books of the run are those of the counter alone. */
  predicate Agrees(t: Tally, link: string, cap: int, expiry: Expiry) {
    && Attempts(expiry, t.spent)
    && CellIn(t.state.cells, ViewKey(link)) == CellAfter(expiry, cap, t.spent)
    && t.served == Admitted(expiry, cap, t.spent)
  }

  /** What a step does to the books, in the counter's terms. */
  predicate BookedStep(t: Tally, t': Tally, link: string, cap: int, expiry: Expiry, now: int, spends: bool) {
    var before := CellIn(t.state.cells, ViewKey(link));
    var after := CellIn(t'.state.cells, ViewKey(link));
    var (cell, ok) := Admit(before, expiry, cap, now);
    if spends then
      && t'.spent == t.spent + [now] && after == cell && !Past(expiry, now)
      && t'.served == t.served + if ok then 1 else 0
    else t'.spent == t.spent && after == before && t'.served == t.served
  }

  lemma CountIsBooked(cfg: Config, t: Tally, ev: Event, link: string, cap: int, expiry: Expiry)
    requires FixedLink(t.state.world, link, cap, expiry) && cap >= 1
    ensures BookedStep(t, Count(cfg, t, ev, link), link, cap, expiry, if ev.Request? then ev.now else 0,
                       Spends(cfg, t.state, ev, link))
  {
    StepOnCounter(cfg, t.state, ev, link, cap, expiry);
    assert t.spent + [] == t.spent;
  }

  lemma BookedStepAgrees(t: Tally, t': Tally, link: string, cap: int, expiry: Expiry, now: int, spends: bool)
    requires Agrees(t, link, cap, expiry) && BookedStep(t, t', link, cap, expiry, now, spends)
    requires spends ==> AllUpTo(t.spent, now)
    ensures Agrees(t', link, cap, expiry)
  {
    if spends { OneMoreAttempt(expiry, cap, t.spent, now); }
  }

  lemma StepKeepsAgreement(cfg: Config, t: Tally, ev: Event, link: string, cap: int, expiry: Expiry)
    requires Agrees(t, link, cap, expiry) && cap >= 1
    requires FixedLink(t.state.world, link, cap, expiry) && (ev.Request? ==> AllUpTo(t.spent, ev.now))
    ensures Agrees(Count(cfg, t, ev, link), link, cap, expiry)
  {
    CountIsBooked(cfg, t, ev, link, cap, expiry);
    BookedStepAgrees(t, Count(cfg, t, ev, link), link, cap, expiry, if ev.Request? then ev.now else 0,
                     Spends(cfg, t.state, ev, link));
  }

  /** Projected on one link, a run of the whole server is a run of its counter alone. */
  lemma {:induction false} RunIsCounterRun(cfg: Config, s: State, es: seq<Event>, link: string,
                                           cap: int, expiry: Expiry)
    requires Start(s) && Possible(cfg, s, es) && cap >= 1
    requires FixedThroughout(cfg, s, es, link, cap, expiry)
    ensures Agrees(TallyOf(cfg, s, es, link), link, cap, expiry)
  {
    if es != [] {
      var last := |es| - 1;
      PrefixOfPossible(cfg, s, es, last);
      PrefixOfFixed(cfg, s, es, link, cap, expiry, last);
      RunIsCounterRun(cfg, s, es[..last], link, cap, expiry);
      ReadyForStep(cfg, s, es, link, cap, expiry);
      StepKeepsAgreement(cfg, TallyOf(cfg, s, es[..last], link), es[last], link, cap, expiry);
    }
  }

  lemma ReadyForStep(cfg: Config, s: State, es: seq<Event>, link: string, cap: int, expiry: Expiry)
    requires Possible(cfg, s, es) && FixedThroughout(cfg, s, es, link, cap, expiry) && es != []
    ensures var last := |es| - 1;
            var t := TallyOf(cfg, s, es[..last], link);
            FixedLink(t.state.world, link, cap, expiry) && (es[last].Request? ==> AllUpTo(t.spent, es[last].now))
  {
    var last := |es| - 1;
    TallyIsRun(cfg, s, es[..last], link);
    assert FixedLink(Run(cfg, s, es[..last]).world, link, cap, expiry);
    if es[last].Request? {
      forall j | 0 <= j < last ensures Later(es[..last][j], es[last].now) {
        assert Later(es[j], es[last].now);
      }
      SpentBefore(cfg, s, es[..last], link, es[last].now);
    }
  }

  /** The cap over whole runs of the server, with any other traffic and any other
      change in between: at most 2 * cap answers carry the content, and exactly the
      smaller of the attempts and the cap without an expiry or up to a second before it. */
  lemma ServedWithinCap(cfg: Config, s: State, es: seq<Event>, link: string, cap: int, expiry: Expiry)
    requires Start(s) && Possible(cfg, s, es) && cap >= 1
    requires FixedThroughout(cfg, s, es, link, cap, expiry)
    ensures TallyOf(cfg, s, es, link).served <= 2 * cap
    ensures var t := TallyOf(cfg, s, es, link);
            expiry.NoExpiry? || t.spent == [] || t.spent[|t.spent| - 1] <= expiry.at - SECOND ==>
              t.served == Min(|t.spent|, cap)
  {
    RunIsCounterRun(cfg, s, es, link, cap, expiry);
    var ts := TallyOf(cfg, s, es, link).spent;
    if expiry.NoExpiry? {
      CapIsExactWithoutExpiry(cap, ts);
    } else {
      CapBounds(expiry.at, cap, ts);
    }
  }
}

/** Visitors who did what they were asked to do get what they came for. */
module AdmissionCompletes {
  import opened Arithmetic
  import opened TimedKeys
  import opened Policies
  import opened Admission
  import opened AdmissionEffects
  import opened AdmissionRuns

  /** A visitor who was bounced can show the grant on the render origin, and within 600
      seconds gets the bytes there, as long as the link and its views allow it. */
  lemma BouncedVisitorIsServed(cfg: Config, s: State, v: Visitor, t: int, u: Visitor, now: int, l: Link, b: Backing)
    requires Reply(cfg, s, Request(Preview, v, t)).1 == ToRender(u.grant) && u.link == v.link && u.cookie == Nothing
    requires t <= now <= t + 600 * SECOND && cfg.renderDomain != "" && OnRenderDomain(cfg, u)
    requires var s' := Apply(cfg, s, Request(Preview, v, t));
             && Found(s'.world, u, now, l, b) && b.category in {Html, Svg}
             && (b.expiry.Expires? ==> now <= b.expiry.at) && AddressListed(l.policy, u.ip)
             && LetThrough(s'.cells, "rl:preview:" + u.ip.text, 600, 60, now)
             && Views(s'.cells, u.link, now) >= 0 && ViewLeft(s'.cells, u.link, l.policy, now)
    ensures var s' := Apply(cfg, s, Request(Preview, v, t));
            && CanSend(s', Request(Raw, u, now))
            && Reply(cfg, s', Request(Raw, u, now)).1 == Bytes(u.download && l.policy.allowDownload)
  {
    var s' := Apply(cfg, s, Request(Preview, v, t));
    IssuedExactly(cfg, s, Request(Preview, v, t));
    PipelineRefinesConjunction(cfg, s.world, s.cells, Preview, v, t);
    GrantLifetime(u, t, now);
    RawExactly(cfg, s'.world, s'.cells, u, now, l, b);
  }

  /** A visitor who gave the right password can show the unlock cookie, and is not asked
      again. */
  lemma UnlockedVisitorIsServed(cfg: Config, s: State, v: Visitor, password: string, t: int,
                                u: Visitor, now: int, l: Link, b: Backing)
    requires Reply(cfg, s, TryPassword(v, password, t)).1 == Unlocked(u.cookie)
    requires u.link == v.link && u.grant == Nothing
    requires var s' := Apply(cfg, s, TryPassword(v, password, t));
             && Found(s'.world, u, now, l, b) && b.category !in {Html, Svg}
             && (b.expiry.Expires? ==> now <= b.expiry.at)
             && AddressListed(l.policy, u.ip) && LoggedIn(l.policy, u.session)
             && LetThrough(s'.cells, "rl:preview:" + u.ip.text, 600, 60, now)
             && Views(s'.cells, u.link, now) >= 0 && ViewLeft(s'.cells, u.link, l.policy, now)
    ensures var s' := Apply(cfg, s, TryPassword(v, password, t));
            && CanSend(s', Request(Preview, u, now))
            && Content(Reply(cfg, s', Request(Preview, u, now)).1)
  {
    var s' := Apply(cfg, s, TryPassword(v, password, t));
    IssuedExactly(cfg, s, TryPassword(v, password, t));
    assert u.cookie == Unlock(u.link);
    PassiveExactly(cfg, s'.world, s'.cells, u, now, l, b);
  }
}

/** The view cap of a link whose expiry is changed while it is in use. */
module ExpiryChanges {
  import opened Arithmetic
  import opened TimedKeys
  import opened Expiries
  import opened Policies
  import opened ViewCap
  import opened Admission
  import opened AdmissionRuns

  /** The change gives the link a new expiry, or brings the link back. */
  predicate Moves(before: World, after: World, link: string) {
    link in after.links && (link in before.links ==> after.links[link].expiry != before.links[link].expiry)
  }

  /** The books of a run, with the number of expiries that the link has had so far and
      the number of counters that were started for it. */
  datatype Ledger = Ledger(t: Tally, periods: nat, counters: nat)

  /** The step starts a counter. */
  predicate Starts(cfg: Config, s: State, ev: Event, link: string) {
    Spends(cfg, s, ev, link) && Read(CellIn(s.cells, ViewKey(link)), ev.now).Absent?
  }

  function Write(cfg: Config, k: Ledger, ev: Event, link: string): Ledger {
    Ledger(Count(cfg, k.t, ev, link),
           k.periods + (if ev.Change? && Moves(k.t.state.world, ev.world, link) then 1 else 0),
           k.counters + (if Starts(cfg, k.t.state, ev, link) then 1 else 0))
  }

  function LedgerOf(cfg: Config, s: State, es: seq<Event>, link: string): Ledger {
    if es == [] then Ledger(Tally(s, [], 0), if link in s.world.links then 1 else 0, 0)
    else Write(cfg, LedgerOf(cfg, s, es[..|es| - 1], link), es[|es| - 1], link)
  }

  lemma {:induction false} LedgerIsTally(cfg: Config, s: State, es: seq<Event>, link: string)
    ensures LedgerOf(cfg, s, es, link).t == TallyOf(cfg, s, es, link)
  {
    if es != [] { LedgerIsTally(cfg, s, es[..|es| - 1], link); }
  }

  /** The expiry the link has now, if it exists. */
  datatype Current = NoLink | There(expiry: Expiry)

  function CurrentOf(w: World, link: string): Current {
    if link in w.links then There(w.links[link].expiry) else NoLink
  }

  /** Every counter but the last is full at most; one with a deadline was started in
      some period, and if in this one, its deadline is in the last second of it. */
  predicate Bounded(c: Cell, now: Current, cap: int, periods: nat, counters: nat, served: nat) {
    && (now.There? ==> periods >= 1)
    && match c
       case Absent => counters == 0 && served == 0
       case Held(e) =>
         && counters >= 1 && e.n >= 1 && served <= (counters - 1) * cap + Min(e.n, cap)
         && match e.deadline
            case Never => counters <= periods + 1
            case At(d) => counters <= periods && (counters == periods && now.There? ==> LastSecond(now.expiry, d))
  }

  predicate LastSecond(expiry: Expiry, d: int) { expiry.Expires? && d > expiry.at - SECOND }

  lemma NextCounter(counters: nat, cap: int)
    requires counters >= 1
    ensures (counters + 1 - 1) * cap == (counters - 1) * cap + cap
  {
  }

  /** A view in the current counter. */
  lemma ViewCounted(c: Cell, expiry: Expiry, cap: int, periods: nat, counters: nat, served: nat, t: int)
    requires cap >= 1 && Bounded(c, There(expiry), cap, periods, counters, served) && Read(c, t).Held?
    ensures var (c', ok) := Admit(c, expiry, cap, t);
            Bounded(c', There(expiry), cap, periods, counters, served + if ok then 1 else 0)
  {
  }

  /** A view that starts a counter. */
  lemma CounterStarted(c: Cell, expiry: Expiry, cap: int, periods: nat, counters: nat, served: nat, t: int)
    requires cap >= 1 && Bounded(c, There(expiry), cap, periods, counters, served)
    requires Read(c, t).Absent? && !Past(expiry, t)
    ensures var (c', ok) := Admit(c, expiry, cap, t);
            Bounded(c', There(expiry), cap, periods, counters + 1, served + if ok then 1 else 0)
  {
    if counters >= 1 { NextCounter(counters, cap); }
    if expiry.Expires? { FirstDeadlineInLastSecond(expiry, t); }
  }

  ghost predicate Inv(k: Ledger, link: string, cap: int) {
    Bounded(CellIn(k.t.state.cells, ViewKey(link)), CurrentOf(k.t.state.world, link), cap,
            k.periods, k.counters, k.t.served)
  }

  /** While the link exists, its cap is this. */
  predicate FixedCap(w: World, link: string, cap: int) {
    link in w.links ==> cap == if w.links[link].policy.singleUse then 1 else w.links[link].policy.maxViews
  }

  lemma ChangeKeepsInv(cfg: Config, k: Ledger, w: World, link: string, cap: int)
    requires Inv(k, link, cap)
    ensures Inv(Write(cfg, k, Change(w), link), link, cap)
  {
  }

  lemma SpendKeepsInv(cfg: Config, k: Ledger, ev: Event, link: string, cap: int)
    requires Inv(k, link, cap) && cap >= 1 && FixedCap(k.t.state.world, link, cap)
    requires Spends(cfg, k.t.state, ev, link)
    ensures Inv(Write(cfg, k, ev, link), link, cap)
  {
    var expiry := k.t.state.world.links[link].expiry;
    var c := CellIn(k.t.state.cells, ViewKey(link));
    StepOnCounter(cfg, k.t.state, ev, link, cap, expiry);
    SameWorld(cfg, k.t.state, ev);
    if Read(c, ev.now).Held? {
      ViewCounted(c, expiry, cap, k.periods, k.counters, k.t.served, ev.now);
    } else {
      CounterStarted(c, expiry, cap, k.periods, k.counters, k.t.served, ev.now);
    }
  }

  lemma SameWorld(cfg: Config, s: State, ev: Event)
    requires !ev.Change?
    ensures Apply(cfg, s, ev).world == s.world
  {
  }

  lemma OtherKeepsInv(cfg: Config, k: Ledger, ev: Event, link: string, cap: int)
    requires Inv(k, link, cap) && cap >= 1 && FixedCap(k.t.state.world, link, cap)
    requires !ev.Change? && !Spends(cfg, k.t.state, ev, link)
    ensures Inv(Write(cfg, k, ev, link), link, cap)
  {
    var w := k.t.state.world;
    StepOnCounter(cfg, k.t.state, ev, link, cap, if link in w.links then w.links[link].expiry else NoExpiry);
    SameWorld(cfg, k.t.state, ev);
  }

  ghost predicate FixedCapThroughout(cfg: Config, s: State, es: seq<Event>, link: string, cap: int) {
    forall i :: 0 <= i <= |es| ==> FixedCap(Run(cfg, s, es[..i]).world, link, cap)
  }

  lemma FixedCapBefore(cfg: Config, s: State, es: seq<Event>, link: string, cap: int)
    requires FixedCapThroughout(cfg, s, es, link, cap) && es != []
    ensures FixedCapThroughout(cfg, s, es[..|es| - 1], link, cap)
    ensures FixedCap(LedgerOf(cfg, s, es[..|es| - 1], link).t.state.world, link, cap)
  {
    var front := es[..|es| - 1];
    forall i | 0 <= i <= |front| ensures FixedCap(Run(cfg, s, front[..i]).world, link, cap) {
      assert front[..i] == es[..i];
    }
    LedgerIsTally(cfg, s, front, link);
    TallyIsRun(cfg, s, front, link);
    assert FixedCap(Run(cfg, s, es[..|es| - 1]).world, link, cap);
  }

  lemma {:induction false} RunKeepsInv(cfg: Config, s: State, es: seq<Event>, link: string, cap: int)
    requires Start(s) && cap >= 1 && FixedCapThroughout(cfg, s, es, link, cap)
    ensures Inv(LedgerOf(cfg, s, es, link), link, cap)
  {
    if es != [] {
      var k := LedgerOf(cfg, s, es[..|es| - 1], link);
      var ev := es[|es| - 1];
      FixedCapBefore(cfg, s, es, link, cap);
      RunKeepsInv(cfg, s, es[..|es| - 1], link, cap);
      if ev.Change? {
        ChangeKeepsInv(cfg, k, ev.world, link, cap);
      } else if Spends(cfg, k.t.state, ev, link) {
        SpendKeepsInv(cfg, k, ev, link, cap);
      } else {
        OtherKeepsInv(cfg, k, ev, link, cap);
      }
    }
  }

  lemma MulMonotone(a: nat, b: nat, cap: nat)
    requires a <= b
    ensures a * cap <= b * cap
  {
  }

  lemma FullCounters(counters: nat, periods: nat, cap: nat, n: int, served: nat)
    requires 1 <= counters <= periods + 1 && served <= (counters - 1) * cap + Min(n, cap)
    ensures served <= (periods + 1) * cap
  {
    MulMonotone(counters - 1, periods, cap);
    NextCounter(periods + 1, cap);
  }

  lemma BoundedServed(c: Cell, now: Current, cap: int, periods: nat, counters: nat, served: nat)
    requires cap >= 1 && Bounded(c, now, cap, periods, counters, served)
    ensures served <= (periods + 1) * cap
  {
    match c
    case Absent => MulMonotone(0, periods + 1, cap);
    case Held(e) => FullCounters(counters, periods, cap, e.n, served);
  }

  /** Over any run, with any other traffic and any changes but of the cap: a link that
      has had p expiries is served at most (p + 1) * cap times. Every new expiry may
      bring one more counter, and the last second one more in all. */
  lemma ServedWithinPeriods(cfg: Config, s: State, es: seq<Event>, link: string, cap: int)
    requires Start(s) && cap >= 1 && FixedCapThroughout(cfg, s, es, link, cap)
    ensures var k := LedgerOf(cfg, s, es, link); WithinPeriods(k.t.served, k.periods, cap)
  {
    var k := LedgerOf(cfg, s, es, link);
    RunKeepsInv(cfg, s, es, link, cap);
    InvBounds(k, link, cap);
  }

  predicate WithinPeriods(served: nat, periods: nat, cap: int) { served <= (periods + 1) * cap }

  lemma InvBounds(k: Ledger, link: string, cap: int)
    requires cap >= 1 && Inv(k, link, cap)
    ensures WithinPeriods(k.t.served, k.periods, cap)
  {
    BoundedServed(CellIn(k.t.state.cells, ViewKey(link)), CurrentOf(k.t.state.world, link), cap,
                  k.periods, k.counters, k.t.served);
  }
}

module LimiterRuns {
  import opened Arithmetic
  import opened TimedKeys
  import opened Policies
  import opened RateWindow
  import opened Admission
  import opened AdmissionRuns

  /** A limiter key with its limit and window: page and byte requests share one per
      address, password attempts have one per link and address. */
  datatype Limiter = Limiter(key: string, limit: int, window: int)

  function LimiterOf(ev: Event): Limiter
    requires !ev.Change?
  {
    match ev
    case Request(_, v, _) => Limiter(LimiterKey(v.ip), 600, 60)
    case TryPassword(v, _, _) => Limiter(UnlockKey(v), 5, 15 * 60)
  }

  predicate Calls(ev: Event, lim: Limiter) { !ev.Change? && LimiterOf(ev) == lim }

  ghost predicate IsLimiter(lim: Limiter) { exists ev: Event :: Calls(ev, lim) }

  /** The request was not answered with 429. */
  predicate GotThrough(cfg: Config, s: State, ev: Event) { !ev.Change? && !Reply(cfg, s, ev).1.TooMany? }

  /** A run with the books kept for one limiter and one closed interval [a, b]: the
      instants of all its requests, and how many of those in the interval got through. */
  datatype Book = Book(state: State, calls: seq<int>, through: nat)

  function Enter(cfg: Config, k: Book, ev: Event, lim: Limiter, a: int, b: int): Book {
    Book(AdmissionRuns.Apply(cfg, k.state, ev),
         k.calls + (if Calls(ev, lim) then [ev.now] else []),
         k.through + (if Calls(ev, lim) && GotThrough(cfg, k.state, ev) && a <= ev.now <= b then 1 else 0))
  }

  function BookOf(cfg: Config, s: State, es: seq<Event>, lim: Limiter, a: int, b: int): Book {
    if es == [] then Book(s, [], 0)
    else Enter(cfg, BookOf(cfg, s, es[..|es| - 1], lim, a, b), es[|es| - 1], lim, a, b)
  }

  lemma SameKeySameLimiter(a: Limiter, b: Limiter)
    requires IsLimiter(a) && IsLimiter(b) && a.key == b.key
    ensures a == b
  {
    var x, y :| Calls(x, a) && Calls(y, b);
    if x.Request? { KeysApart(x.v, y.v); } else { KeysApart(y.v, x.v); }
  }

  lemma KeysApart(v: Visitor, u: Visitor)
    ensures LimiterKey(v.ip) != UnlockKey(u)
  {
    assert LimiterKey(v.ip)[3] == 'p' && UnlockKey(u)[3] == 'u';
  }

  /** What a step does to a limiter's key, given whether it calls that limiter. */
  predicate LimiterStep(s: State, s': State, lim: Limiter, now: int, calls: bool, through: bool) {
    var before := CellIn(s.cells, lim.key);
    var after := CellIn(s'.cells, lim.key);
    var (cell, res) := RateLimit(before, now, lim.limit, lim.window);
    if calls then after == cell && through == res.allowed else after == before
  }

  lemma RequestOnLimiter(cfg: Config, s: State, e: Endpoint, v: Visitor, now: int, lim: Limiter)
    requires |lim.key| >= 3 && lim.key[..3] == "rl:"
    requires LimiterKey(v.ip) == lim.key ==> lim == Limiter(LimiterKey(v.ip), 600, 60)
    ensures var (cells, a) := Handle(cfg, s.world, s.cells, e, v, now);
            LimiterStep(s, s.(cells := cells), lim, now, LimiterKey(v.ip) == lim.key, !a.TooMany?)
  {
    assert ViewKey(v.link)[0] != lim.key[..3][0] == lim.key[0];
    NeverTooMany(cfg, s.world, e, v, now);
  }

  lemma PasswordOnLimiter(s: State, v: Visitor, password: string, now: int, lim: Limiter)
    requires UnlockKey(v) == lim.key ==> lim == Limiter(UnlockKey(v), 5, 15 * 60)
    ensures var (cells, a) := TryUnlock(s.world, s.cells, v, password, now);
            LimiterStep(s, s.(cells := cells), lim, now, UnlockKey(v) == lim.key, !a.TooMany?)
  {
  }

  lemma LimiterKeysStart(lim: Limiter)
    requires IsLimiter(lim)
    ensures |lim.key| >= 3 && lim.key[..3] == "rl:"
  {
    var ev :| Calls(ev, lim);
  }

  /** One step on a limiter's key: the other limiters, and the view counters, leave it
      alone. */
  lemma StepOnLimiter(cfg: Config, s: State, ev: Event, lim: Limiter)
    requires IsLimiter(lim)
    ensures LimiterStep(s, AdmissionRuns.Apply(cfg, s, ev), lim, if ev.Change? then 0 else ev.now,
                        Calls(ev, lim), GotThrough(cfg, s, ev))
  {
    if !ev.Change? {
      assert IsLimiter(LimiterOf(ev)) by { assert Calls(ev, LimiterOf(ev)); }
      if LimiterOf(ev).key == lim.key { SameKeySameLimiter(LimiterOf(ev), lim); }
      LimiterKeysStart(lim);
      match ev
      case Request(e, v, now) => RequestOnLimiter(cfg, s, e, v, now, lim);
      case TryPassword(v, password, now) => PasswordOnLimiter(s, v, password, now, lim);
    }
  }

  /** No gate answers 429. */
  lemma NeverTooMany(cfg: Config, w: World, e: Endpoint, v: Visitor, now: int)
    ensures Gates(cfg, w, e, v, now) != Stop(TooMany)
  {
  }

  /** The books of the run are those of the limiter alone. */
  predicate Agrees(k: Book, lim: Limiter, a: int, b: int) {
    && CellIn(k.state.cells, lim.key) == RateWindow.CellAfter(lim.limit, lim.window, k.calls)
    && k.through == AllowedIn(lim.limit, lim.window, k.calls, a, b)
  }

  /** What a request does to the books, in the limiter's terms. */
  predicate BookedCall(k: Book, k': Book, lim: Limiter, a: int, b: int, now: int, calls: bool) {
    var before := CellIn(k.state.cells, lim.key);
    var after := CellIn(k'.state.cells, lim.key);
    var (cell, res) := RateLimit(before, now, lim.limit, lim.window);
    if calls then
      && k'.calls == k.calls + [now] && after == cell
      && k'.through == k.through + if a <= now <= b && res.allowed then 1 else 0
    else k'.calls == k.calls && after == before && k'.through == k.through
  }

  lemma EnterIsBooked(cfg: Config, k: Book, ev: Event, lim: Limiter, a: int, b: int)
    requires IsLimiter(lim)
    ensures BookedCall(k, Enter(cfg, k, ev, lim, a, b), lim, a, b, if ev.Change? then 0 else ev.now, Calls(ev, lim))
  {
    StepOnLimiter(cfg, k.state, ev, lim);
    assert k.calls + [] == k.calls;
  }

  lemma BookedCallAgrees(k: Book, k': Book, lim: Limiter, a: int, b: int, now: int, calls: bool)
    requires Agrees(k, lim, a, b) && BookedCall(k, k', lim, a, b, now, calls)
    ensures Agrees(k', lim, a, b)
  {
    if calls { assert k'.calls[..|k.calls|] == k.calls; }
  }

  /** Projected on one limiter key, a run of the whole server is a run of that limiter
      alone, and its allowed calls are the requests that get through. */
  lemma {:induction false} RunIsLimiterRun(cfg: Config, s: State, es: seq<Event>, lim: Limiter, a: int, b: int)
    requires Start(s) && IsLimiter(lim)
    ensures Agrees(BookOf(cfg, s, es, lim, a, b), lim, a, b)
  {
    if es != [] {
      var k := BookOf(cfg, s, es[..|es| - 1], lim, a, b);
      var ev := es[|es| - 1];
      RunIsLimiterRun(cfg, s, es[..|es| - 1], lim, a, b);
      EnterIsBooked(cfg, k, ev, lim, a, b);
      BookedCallAgrees(k, Enter(cfg, k, ev, lim, a, b), lim, a, b, if ev.Change? then 0 else ev.now, Calls(ev, lim));
    }
  }

  lemma {:induction false} CallsBefore(cfg: Config, s: State, es: seq<Event>, lim: Limiter, a: int, b: int, now: int)
    requires forall j :: 0 <= j < |es| ==> Later(es[j], now)
    ensures AllUpTo(BookOf(cfg, s, es, lim, a, b).calls, now)
  {
    if es != [] {
      assert Later(es[|es| - 1], now);
      CallsBefore(cfg, s, es[..|es| - 1], lim, a, b, now);
    }
  }

  lemma {:induction false} CallsInOrder(cfg: Config, s: State, es: seq<Event>, lim: Limiter, a: int, b: int)
    requires Possible(cfg, s, es)
    ensures Ordered(BookOf(cfg, s, es, lim, a, b).calls)
  {
    if es != [] {
      var last := |es| - 1;
      PrefixOfPossible(cfg, s, es, last);
      CallsInOrder(cfg, s, es[..last], lim, a, b);
      if Calls(es[last], lim) {
        forall j | 0 <= j < last ensures Later(es[..last][j], es[last].now) {
          assert Later(es[j], es[last].now);
        }
        CallsBefore(cfg, s, es[..last], lim, a, b, es[last].now);
      }
    }
  }

  /** Over any run of the server, whatever else happens in between: in any interval as
      long as the limiter's window fewer than twice its limit get through. */
  lemma FewerThanTwiceGetThrough(cfg: Config, s: State, es: seq<Event>, lim: Limiter, a: int)
    requires Start(s) && Possible(cfg, s, es) && IsLimiter(lim)
    ensures BookOf(cfg, s, es, lim, a, a + lim.window * SECOND).through <= 2 * lim.limit - 1
  {
    var b := a + lim.window * SECOND;
    CallsInOrder(cfg, s, es, lim, a, b);
    RunIsLimiterRun(cfg, s, es, lim, a, b);
    LessThanTwiceTheLimit(lim.limit, lim.window, BookOf(cfg, s, es, lim, a, b).calls, a);
  }

  /** So at most nine passwords are ever checked for one link from one address in any
      15 minutes. */
  lemma AtMostNineGuesses(cfg: Config, s: State, es: seq<Event>, v: Visitor, a: int)
    requires Start(s) && Possible(cfg, s, es)
    ensures BookOf(cfg, s, es, Limiter(UnlockKey(v), 5, 15 * 60), a, a + 15 * 60 * SECOND).through <= 9
  {
    var lim := Limiter(UnlockKey(v), 5, 15 * 60);
    assert Calls(TryPassword(v, "", 0), lim);
    FewerThanTwiceGetThrough(cfg, s, es, lim, a);
  }

  /** A visitor who tries passwords at these instants. */
  function Guesses(v: Visitor, password: string, ts: seq<int>): (es: seq<Event>)
    ensures |es| == |ts| && forall i :: 0 <= i < |ts| ==> es[i] == TryPassword(v, password, ts[i])
  {
    seq(|ts|, i requires 0 <= i < |ts| => TryPassword(v, password, ts[i]))
  }

  lemma GuessesSnoc(v: Visitor, password: string, ts: seq<int>)
    requires ts != []
    ensures var es := Guesses(v, password, ts);
            && es != [] && es[..|es| - 1] == Guesses(v, password, ts[..|ts| - 1])
            && es[|es| - 1] == TryPassword(v, password, ts[|ts| - 1])
  {
  }

  lemma EnterGuess(cfg: Config, k: Book, v: Visitor, password: string, t: int, a: int, b: int)
    ensures Enter(cfg, k, TryPassword(v, password, t), Limiter(UnlockKey(v), 5, 15 * 60), a, b).calls == k.calls + [t]
  {
  }

  /** The guesses es are calls at the instants ts. */
  ghost predicate CalledAt(cfg: Config, s: State, es: seq<Event>, v: Visitor, ts: seq<int>, a: int, b: int) {
    BookOf(cfg, s, es, Limiter(UnlockKey(v), 5, 15 * 60), a, b).calls == ts
  }

  lemma OneGuess(cfg: Config, s: State, es: seq<Event>, v: Visitor, password: string, ts: seq<int>, a: int, b: int)
    requires es != [] && ts != [] && es[|es| - 1] == TryPassword(v, password, ts[|ts| - 1])
    requires CalledAt(cfg, s, es[..|es| - 1], v, ts[..|ts| - 1], a, b)
    ensures CalledAt(cfg, s, es, v, ts, a, b)
  {
    EnterGuess(cfg, BookOf(cfg, s, es[..|es| - 1], Limiter(UnlockKey(v), 5, 15 * 60), a, b),
               v, password, ts[|ts| - 1], a, b);
    assert ts == ts[..|ts| - 1] + [ts[|ts| - 1]];
  }

  lemma {:induction false} GuessesAreCalls(cfg: Config, s: State, v: Visitor, password: string, ts: seq<int>,
                                           a: int, b: int)
    ensures CalledAt(cfg, s, Guesses(v, password, ts), v, ts, a, b)
  {
    if ts != [] {
      GuessesSnoc(v, password, ts);
      GuessesAreCalls(cfg, s, v, password, ts[..|ts| - 1], a, b);
      OneGuess(cfg, s, Guesses(v, password, ts), v, password, ts, a, b);
    }
  }

  lemma GuessesArePossible(cfg: Config, s: State, v: Visitor, password: string, ts: seq<int>)
    requires Ordered(ts) && v.cookie.Nothing? && v.grant.Nothing?
    ensures Possible(cfg, s, Guesses(v, password, ts))
  {
  }

  /** And nine are reached: a visitor without any token gets nine tries through within
      15 minutes, whatever the links. */
  lemma NineGuessesGetThrough(cfg: Config, s: State, v: Visitor, password: string)
    requires Start(s) && v.cookie.Nothing? && v.grant.Nothing?
    ensures var es := Guesses(v, password, Burst(5, 15 * 60));
            && Possible(cfg, s, es)
            && BookOf(cfg, s, es, Limiter(UnlockKey(v), 5, 15 * 60), 1, 1 + 15 * 60 * SECOND).through == 9
  {
    var lim := Limiter(UnlockKey(v), 5, 15 * 60);
    var ts := Burst(5, 15 * 60);
    BoundIsReached(5, 15 * 60);
    GuessesArePossible(cfg, s, v, password, ts);
    GuessesAreCalls(cfg, s, v, password, ts, 1, 1 + 15 * 60 * SECOND);
    assert Calls(TryPassword(v, password, 0), lim);
    RunIsLimiterRun(cfg, s, Guesses(v, password, ts), lim, 1, 1 + 15 * 60 * SECOND);
  }

  /** A try that gets through is a check of the password, on a link that is open and
      asks for one. */
  lemma GotThroughIsChecked(cfg: Config, s: State, v: Visitor, password: string, now: int)
    requires LinkGate(s.world, v, now).Pass? && v.link in s.world.links
    requires var p := s.world.links[v.link].policy; PasswordRequired(p) && p.password.Password?
    ensures GotThrough(cfg, s, TryPassword(v, password, now)) <==>
              var right := password in s.world.links[v.link].policy.password.opens;
              TryUnlock(s.world, s.cells, v, password, now).1 == if right then Unlocked(Unlock(v.link)) else Forbidden
  {
  }
}
