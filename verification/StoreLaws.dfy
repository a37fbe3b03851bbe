/** What the store's calls amount to (core/store.go): exactly when each goes
    through, what it leaves alone, and which calls undo each other. */
module StoreLaws {
  import opened Text
  import opened Names
  import opened Records
  import Ops
  import opened AuditReplay

  // ---- Trimming ---------------------------------------------------------------

  /** Space, tab, line feed, vertical tab, form feed, carriage return. */
  predicate White(c: char) { c in {' ', '\t', '\n', '\U{0b}', '\U{0c}', '\r'} }

  predicate Blank(s: string) { forall i :: 0 <= i < |s| ==> White(s[i]) }

  lemma SpaceIsWhite(c: char)
    ensures Ops.IsSpace(c) <==> White(c)
  {
    assert '\t' as int == 9 && '\n' as int == 10 && '\U{0b}' as int == 11 && '\U{0c}' as int == 12 && '\r' as int == 13;
    assert (c as int) as char == c;
  }

  lemma Wider(c: char, a: string, t: string, b: string)
    requires White(c) && Blank(a) && Blank(b)
    ensures [c] + (a + t + b) == ([c] + a) + t + b && Blank([c] + a)
    ensures (a + t + b) + [c] == a + t + (b + [c]) && Blank(b + [c])
  {}

  /** Trimming cuts white space off both ends and nothing else. */
  lemma {:induction false} TrimMeans(s: string) returns (a: string, b: string)
    ensures var t := Ops.TrimSpace(s);
            && s == a + t + b && Blank(a) && Blank(b)
            && (t != "" ==> !White(t[0]) && !White(t[|t| - 1]))
    decreases |s|
  {
    var t := Ops.TrimSpace(s);
    if s != "" { SpaceIsWhite(s[0]); SpaceIsWhite(s[|s| - 1]); }
    if s == "" {
      a, b := "", "";
    } else if Ops.IsSpace(s[0]) {
      a, b := TrimMeans(s[1..]);
      assert s == [s[0]] + s[1..];
      Wider(s[0], a, t, b);
      a := [s[0]] + a;
    } else if Ops.IsSpace(s[|s| - 1]) {
      a, b := TrimMeans(s[..|s| - 1]);
      assert s == s[..|s| - 1] + [s[|s| - 1]];
      Wider(s[|s| - 1], a, t, b);
      b := b + [s[|s| - 1]];
    } else {
      a, b := "", "";
    }
  }

  // ---- Assets ---------------------------------------------------------------

  /** `p` is `path`, a dot, and more. */
  ghost predicate Below(path: string, p: string) { exists x :: p == path + "." + x }

  lemma ChildMeans(path: string, p: string)
    ensures Ops.IsChild(path, p) <==> Below(path, p)
  {
    if Ops.IsChild(path, p) {
      var x := p[|path + "."|..];
      assert p == path + "." + x;
    }
    if Below(path, p) {
      var x :| p == path + "." + x;
      assert p[..|path + "."|] == path + ".";
    }
  }

  ghost predicate AnyBelow(assets: map<string, Asset>, path: string) { exists p :: p in assets && Below(path, p) }

  lemma ChildrenMean(assets: map<string, Asset>, path: string)
    ensures Ops.Children(assets, path) != {} <==> AnyBelow(assets, path)
    ensures forall p :: p in Ops.Children(assets, path) <==> p in assets && Below(path, p)
    ensures !Below(path, path)
  {
    forall p ensures Ops.IsChild(path, p) <==> Below(path, p) { ChildMeans(path, p); }
    var kids := Ops.Children(assets, path);
    if AnyBelow(assets, path) {
      var p :| p in assets && Below(path, p);
      assert p in kids;
    }
    if kids != {} {
      var p :| p in kids;
      assert Below(path, p);
    }
    assert !Ops.IsChild(path, path);
  }

  /** A deletion is refused exactly if it may not cascade, and does nothing exactly
      if there is nothing. */
  lemma DeleteAnswers(assets: map<string, Asset>, path: string, cascade: bool)
    ensures var i := Ops.DeleteAsset(assets, path, cascade);
            var below := AnyBelow(assets, path);
            && (i == Answer(Ok(0)) <==> path !in assets && !below)
            && (i == Answer(Err(HasChildren)) <==> below && !cascade)
            && (i.Write? <==> (path in assets || below) && (below ==> cascade))
  {
    ChildrenMean(assets, path);
    var kids := Ops.Children(assets, path);
    assert path in assets ==> kids + {path} != {};
  }

  /** It takes the asset and all below it and nothing else, and counts what went. */
  lemma DeleteExact(assets: map<string, Asset>, path: string, cascade: bool)
    ensures var i := Ops.DeleteAsset(assets, path, cascade);
            i.Write? ==>
              && (forall p :: p in i.state <==> p in assets && p != path && !Below(path, p))
              && (forall p :: p in i.state ==> i.state[p] == assets[p])
              && i.result == Ok(|assets| - |i.state|)
  {
    DeleteKeeps(assets, path, cascade);
    forall p ensures Ops.IsChild(path, p) <==> Below(path, p) { ChildMeans(path, p); }
  }

  lemma DeleteKeeps(assets: map<string, Asset>, path: string, cascade: bool)
    ensures var i := Ops.DeleteAsset(assets, path, cascade);
            i.Write? ==>
              && (forall p :: p in i.state <==> p in assets && p != path && !Ops.IsChild(path, p))
              && (forall p :: p in i.state ==> i.state[p] == assets[p])
              && i.result == Ok(|assets| - |i.state|)
  {
    var kids := Ops.Children(assets, path);
    LessKeys(assets, if path in assets then kids + {path} else kids);
  }

  lemma {:induction false} LessKeys<V>(m: map<string, V>, gone: set<string>)
    requires gone <= m.Keys
    ensures |m - gone| == |m| - |gone|
  {
    assert (m - gone).Keys == m.Keys - gone;
    assert m.Keys == (m.Keys - gone) + gone;
  }

  /** A write goes through exactly if it expects nothing or the version there is;
      it changes one asset, counts it up, and never its path or creation time. */
  lemma PutExact(assets: map<string, Asset>, a: Asset, v: int, now: Time)
    requires a.path in assets ==> assets[a.path].path == a.path
    ensures var i := Ops.PutAsset(assets, a, v, now);
            var known := a.path in assets;
            && (i.Write? <==> v <= 0 || (known && assets[a.path].version == v))
            && (!i.Write? ==> i.result == Err(VersionConflict))
            && (i.Write? ==>
                  && i.state.Keys == assets.Keys + {a.path} && i.result == Ok(i.state[a.path])
                  && (forall p :: p in assets && p != a.path ==> i.state[p] == assets[p])
                  && i.state[a.path] == Asset(a.path, (if known then assets[a.path].version else 0) + 1, a.spec,
                                              if known then assets[a.path].createdAt else now, now))
  {}

  /** Creating an asset and deleting it again leaves things as they were. */
  lemma CreateDelete(assets: map<string, Asset>, a: Asset, now: Time)
    requires a.path !in assets && Ops.Children(assets, a.path) == {}
    ensures var made := Ops.PutAsset(assets, a, 0, now);
            made.Write? && Ops.DeleteAsset(made.state, a.path, false) == Write(assets, Ok(1))
  {
    var made := Ops.PutAsset(assets, a, 0, now).state;
    ChildMeans(a.path, a.path);
    assert !Ops.IsChild(a.path, a.path) by { ChildMeans(a.path, a.path); }
    forall p | p in made ensures !Ops.IsChild(a.path, p) {
      if p != a.path {
        assert p !in Ops.Children(assets, a.path);
      }
    }
    assert Ops.Children(made, a.path) == {};
    assert made - {a.path} == assets;
  }

  // ---- Alarms -----------------------------------------------------------------

  /** The index of the last row for `id`, or the number of rows. */
  function LastOf(input: seq<Alarm>, id: string): (r: nat)
    ensures r <= |input|
  {
    if input == [] then 0
    else
      var n := |input| - 1;
      if input[n].id == id then n
      else
        var r := LastOf(input[..n], id);
        if r == n then n + 1 else r
  }

  /** What a feed row says of an alarm; the rest is the store's own. */
  function Told(a: Alarm): (string, string, string, string) { (a.severity, a.state, a.summary, a.path) }

  function Kept(a: Alarm): (string, Time, string, Option<Time>) { (a.id, a.since, a.ackedBy, a.ackedAt) }

  lemma {:induction false} SeedSnoc(alarms: map<string, Alarm>, input: seq<Alarm>, a: Alarm)
    ensures Ops.SeedAll(alarms, input + [a]) == Ops.SeedOne(Ops.SeedAll(alarms, input), a)
    decreases |input|
  {
    if input == [] {
      assert [a][1..] == [] && input + [a] == [a];
    } else {
      SeedSnoc(Ops.SeedOne(alarms, input[0]), input[1..], a);
      assert (input + [a])[1..] == input[1..] + [a] && (input + [a])[0] == input[0];
    }
  }

  /** Feeding alarms: none is lost, each one named says what its last row says, and
      who acknowledged a known one, and when, stays. */
  lemma {:induction false} SeedMeans(alarms: map<string, Alarm>, input: seq<Alarm>, id: string)
    ensures var out := Ops.SeedAll(alarms, input);
            var l := LastOf(input, id);
            && (id in out <==> id in alarms || l < |input|)
            && (l < |input| ==> Told(out[id]) == Told(input[l]) && input[l].id == id)
            && (id in alarms ==> Kept(out[id]) == Kept(alarms[id]) && (l == |input| ==> out[id] == alarms[id]))
    decreases |input|
  {
    if input != [] {
      var init, a := input[..|input| - 1], input[|input| - 1];
      assert input == init + [a];
      SeedSnoc(alarms, init, a);
      SeedMeans(alarms, init, id);
    }
  }

  /** Feeding the same rows again changes nothing. */
  lemma SeedTwice(alarms: map<string, Alarm>, input: seq<Alarm>)
    ensures var once := Ops.SeedAll(alarms, input); Ops.SeedAll(once, input) == once
  {
    var once := Ops.SeedAll(alarms, input);
    var twice := Ops.SeedAll(once, input);
    forall id ensures id in twice <==> id in once { SeedMeans(alarms, input, id); SeedMeans(once, input, id); }
    forall id | id in once ensures twice[id] == once[id] {
      SeedMeans(alarms, input, id);
      SeedMeans(once, input, id);
      SameAlarmIs(twice[id], once[id]);
    }
  }

  lemma SameAlarmIs(a: Alarm, b: Alarm)
    requires Told(a) == Told(b) && Kept(a) == Kept(b)
    ensures a == b
  {}

  /** Only a firing alarm can be acknowledged, and then only once until the feed
      says it fires again; the acknowledgement names who and when. */
  lemma AckExact(alarms: map<string, Alarm>, id: string, who: string, now: Time, other: string, later: Time)
    requires id in alarms ==> alarms[id].id == id
    ensures var i := Ops.AckAlarm(alarms, id, who, now);
            && (i.Write? <==> id in alarms && alarms[id].state == "firing")
            && (i.Write? ==>
                  && i.state.Keys == alarms.Keys && (forall k :: k in alarms && k != id ==> i.state[k] == alarms[k])
                  && i.state[id].ackedBy == who && i.state[id].ackedAt == Some(now)
                  && Ops.AckAlarm(i.state, id, other, later) == Answer(Err(AlarmNotAckable))
                  && Ops.AckAlarm(Ops.SeedOne(i.state, alarms[id]), id, other, later).Write?)
  {}

  // ---- Tickets ----------------------------------------------------------------

  /** Another ticket that is not closed carries the same alarm. */
  ghost predicate Rival(tickets: map<string, Ticket>, t: Ticket) {
    && t.alarmId != "" && t.state != "closed"
    && exists k :: k in tickets && k != t.id && tickets[k].alarmId == t.alarmId && tickets[k].state != "closed"
  }

  /** A ticket is stored exactly if it has no rival and expects nothing or the
      version there is; it is stored as given, one version on, and no other
      ticket changes. */
  lemma PutTicketExact(tickets: map<string, Ticket>, t: Ticket, v: int)
    ensures var i := Ops.PutTicket(tickets, t, v);
            && (i.Write? <==> !Rival(tickets, t) && (v <= 0 || (t.id in tickets && tickets[t.id].version == v)))
            && (i.Write? ==>
                  i.state == tickets[t.id := t.(version := (if t.id in tickets then tickets[t.id].version else 0) + 1)]
                  && i.result == Ok(i.state[t.id]))
            && (!i.Write? ==> i.result == Err(if Rival(tickets, t) then DuplicateActiveTicket else VersionConflict))
  {
    assert Ops.Clashes(tickets, t) <==> Rival(tickets, t) by {
      if Rival(tickets, t) {
        var k :| k in tickets && k != t.id && tickets[k].alarmId == t.alarmId && tickets[k].state != "closed";
        assert Ops.Active(tickets[k]);
      }
    }
  }

  // ---- Spares -----------------------------------------------------------------

  /** An adjustment goes through exactly if it moves something and leaves no
      negative stock, and the opposite one undoes it but for the log. */
  lemma AdjustExact(s: Stock, id: string, d: int, ticket: string, at: Time, txn: string, at2: Time, txn2: string)
    requires id in s.spares && s.spares[id].qty >= 0
    ensures var i := Ops.AdjustSpare(s, id, d, ticket, at, txn);
            && (i.Write? <==> d != 0 && s.spares[id].qty + d >= 0)
            && (i.Write? ==>
                  && i.state.spares == s.spares[id := s.spares[id].(qty := s.spares[id].qty + d)]
                  && i.state.txns == s.txns + [SpareTxn(txn, id, d, ticket, at)]
                  && var back := Ops.AdjustSpare(i.state, id, -d, ticket, at2, txn2);
                     back.Write? && back.state.spares == s.spares)
  {
    var i := Ops.AdjustSpare(s, id, d, ticket, at, txn);
    if i.Write? {
      var back := Ops.AdjustSpare(i.state, id, -d, ticket, at2, txn2);
      assert back.state.spares[id] == s.spares[id];
    }
  }

  /** A spare is stored exactly if no other has its stock number. */
  lemma PutSpareExact(s: Stock, sp: SparePart)
    ensures var i := Ops.PutSpare(s, sp);
            if exists k :: k in s.spares && k != sp.id && s.spares[k].sku == sp.sku then i == Answer(Err(SkuExists))
            else i == Write(Stock(s.spares[sp.id := sp], s.txns), Ok(()))
  {}

  // ---- Tenants, orgs, sites -----------------------------------------------------

  ghost predicate HasName(orgs: map<string, Org>, tenantId: string, name: string) {
    exists k :: k in orgs && orgs[k].tenantId == tenantId && orgs[k].name == name
  }

  /** A tenant is made exactly if its trimmed name is a free slug and it has a
      display name; it starts at the lowest tier with one org. */
  lemma CreateTenantExact(v: Tenancy, rawId: string, rawName: string, p: string, now: Time, org: string, x: string,
                          y: string)
    ensures var i := Ops.CreateTenant(v, rawId, rawName, p, now, org, x, y);
            var id, name := Ops.TrimSpace(rawId), Ops.TrimSpace(rawName);
            && (i.Write? <==> ValidTenantSlug(id) && name != "" && id !in v.tenants)
            && (i.Write? ==>
                  && ViewOf(i.state) == View(TenantView(v.tenants)[id := (name, "label")],
                                             OrgView(v.orgs)[org := (id, "default")], SiteView(v.sites))
                  && |i.state.auds| == |v.auds| + 2)
  {
    var i := Ops.CreateTenant(v, rawId, rawName, p, now, org, x, y);
    if i.Write? {
      assert TenantView(i.state.tenants) == TenantView(v.tenants)[Ops.TrimSpace(rawId) :=
             (Ops.TrimSpace(rawName), "label")];
      assert OrgView(i.state.orgs) == OrgView(v.orgs)[org := (Ops.TrimSpace(rawId), "default")];
    }
  }

  /** An org is made exactly if its name is a slug free in an existing tenant, and
      deleting it again gives the view back. */
  lemma CreateOrgExact(v: Tenancy, t: string, name: string, p: string, now: Time, org: string, x: string, y: string)
    requires org !in v.orgs && SitesOk(v)
    ensures var i := Ops.CreateOrg(v, t, name, p, now, org, x);
            && (i.Write? <==> ValidTenantSlug(name) && t in v.tenants && !HasName(v.orgs, t, name))
            && (i.Write? ==>
                  && ViewOf(i.state) == ViewOf(v).(orgs := OrgView(v.orgs)[org := (t, name)])
                  && var back := Ops.DeleteOrg(i.state, org, p, now, y); back.Write? && ViewOf(back.state) == ViewOf(v))
  {
    var i := Ops.CreateOrg(v, t, name, p, now, org, x);
    if i.Write? {
      assert OrgView(i.state.orgs) == OrgView(v.orgs)[org := (t, name)];
      assert !Ops.OwnsSites(i.state.sites, org);
      assert i.state.orgs - {org} == v.orgs;
    }
  }

  lemma NameTakenMeans(v: Tenancy, id: string, name: string)
    requires TenancyOk(v) && id in v.orgs && name != v.orgs[id].name
    ensures Ops.NameTaken(v.orgs, v.orgs[id].tenantId, name, Some(id)) <==> HasName(v.orgs, v.orgs[id].tenantId, name)
  {
    if HasName(v.orgs, v.orgs[id].tenantId, name) {
      var k :| k in v.orgs && v.orgs[k].tenantId == v.orgs[id].tenantId && v.orgs[k].name == name;
      assert v.orgs[k].id == k && k != id;
    }
  }

  /** An org is renamed exactly if the new name is a slug that no other org of the
      tenant has; renaming it back gives the view back. */
  lemma RenameOrgExact(v: Tenancy, id: string, name: string, p: string, now: Time, x: string, y: string)
    requires TenancyOk(v) && id in v.orgs
    ensures var i := Ops.RenameOrg(v, id, name, p, now, x);
            var was := v.orgs[id];
            && (i.Write? <==> ValidTenantSlug(name) && !HasName(v.orgs, was.tenantId, name))
            && (i.result.Ok? <==> ValidTenantSlug(name) && (name == was.name || !HasName(v.orgs, was.tenantId, name)))
            && (i.Write? ==>
                  && ViewOf(i.state) == ViewOf(v).(orgs := OrgView(v.orgs)[id := (was.tenantId, name)])
                  && var back := Ops.RenameOrg(i.state, id, was.name, p, now, y);
                     back.Write? && ViewOf(back.state) == ViewOf(v))
  {
    var was := v.orgs[id];
    var i := Ops.RenameOrg(v, id, name, p, now, x);
    assert name == was.name ==> HasName(v.orgs, was.tenantId, name);
    if name != was.name {
      NameTakenMeans(v, id, name);
    }
    if i.Write? {
      assert OrgView(i.state.orgs) == OrgView(v.orgs)[id := (was.tenantId, name)];
      RenameBack(v, i.state, id, name, p, now, y);
    }
  }

  lemma RenameBack(v: Tenancy, u: Tenancy, id: string, name: string, p: string, now: Time, y: string)
    requires TenancyOk(v) && id in v.orgs && name != v.orgs[id].name
    requires u == v.(orgs := v.orgs[id := v.orgs[id].(name := name)], auds := u.auds)
    ensures var back := Ops.RenameOrg(u, id, v.orgs[id].name, p, now, y); back.Write? && ViewOf(back.state) == ViewOf(v)
  {
    var was := v.orgs[id];
    assert !Ops.NameTaken(u.orgs, was.tenantId, was.name, Some(id));
    var back := Ops.RenameOrg(u, id, was.name, p, now, y);
    assert back.state.orgs == v.orgs;
  }

  /** An org goes exactly if no site is mapped to it, a tenant exactly if it has no
      org. */
  lemma DeletesExact(v: Tenancy, id: string, p: string, now: Time, x: string)
    ensures var i := Ops.DeleteOrg(v, id, p, now, x);
            && (i.Write? <==> id in v.orgs && forall s :: s in v.sites ==> v.sites[s].orgId != id)
            && (i.Write? ==> ViewOf(i.state) == ViewOf(v).(orgs := OrgView(v.orgs) - {id}))
    ensures var i := Ops.DeleteTenant(v, id, p, now, x);
            && (i.Write? <==> id in v.tenants && forall o :: o in v.orgs ==> v.orgs[o].tenantId != id)
            && (i.Write? ==> ViewOf(i.state) == ViewOf(v).(tenants := TenantView(v.tenants) - {id}))
  {
    assert OrgView(v.orgs - {id}) == OrgView(v.orgs) - {id};
    assert TenantView(v.tenants - {id}) == TenantView(v.tenants) - {id};
  }

  /** The tier moves exactly upwards. */
  lemma TierExact(v: Tenancy, id: string, target: string, p: string, now: Time, x: string)
    requires TenantsOk(v) && id in v.tenants && target in {"label", "row", "db"}
    ensures var i := Ops.UpdateTenantTier(v, id, target, p, now, x);
            var t := v.tenants[id];
            var up := (t.tier, target) in {("label", "row"), ("label", "db"), ("row", "db")};
            && (up ==> i.Write? && i.result == Ok(()) && |i.state.auds| == |v.auds| + 1
                       && ViewOf(i.state) == ViewOf(v).(tenants :=
                             TenantView(v.tenants)[id := (t.displayName, target)]))
            && (t.tier == target ==> i == Answer(Ok(())))
            && (!up && t.tier != target ==> i.Write? && i.result == Err(TierDowngrade) && ViewOf(i.state) == ViewOf(v)
                                            && |i.state.auds| == |v.auds| + 1)
  {
    var i := Ops.UpdateTenantTier(v, id, target, p, now, x);
    var t := v.tenants[id];
    if i.Write? && i.result == Ok(()) {
      assert TenantView(i.state.tenants) == TenantView(v.tenants)[id := (t.displayName, target)];
    }
  }

  /** A site is attached exactly if its name is a slug and the org exists; it is
      then in that org alone, and detaching it leaves it without one. */
  lemma AttachExact(v: Tenancy, site: string, org: string, p: string, now: Time, x: string, y: string)
    ensures var i := Ops.AttachSiteToOrg(v, site, org, p, now, x);
            var there := site in v.sites && v.sites[site].orgId == org;
            && (i.result.Ok? <==> ValidSiteSlug(site) && org in v.orgs)
            && (i.Write? <==> i.result.Ok? && !there)
            && (i.Write? ==>
                  && ViewOf(i.state) == ViewOf(v).(sites := SiteView(v.sites)[site := org])
                  && i.state.sites[site].createdAt == (if site in v.sites then v.sites[site].createdAt else now)
                  && var back := Ops.DetachSiteFromOrg(i.state, site, p, now, y);
                     back.Write? && ViewOf(back.state) == ViewOf(v).(sites := SiteView(v.sites) - {site}))
  {
    var i := Ops.AttachSiteToOrg(v, site, org, p, now, x);
    if i.Write? {
      assert SiteView(i.state.sites) == SiteView(v.sites)[site := org];
      var back := Ops.DetachSiteFromOrg(i.state, site, p, now, y).state;
      assert SiteView(back.sites) == SiteView(v.sites) - {site};
    }
  }

  // ---- Role bindings --------------------------------------------------------------

  ghost predicate HasBinding(rows: seq<RoleBinding>, subject: string, scope: string) {
    exists i :: 0 <= i < |rows| && rows[i].subject == subject && rows[i].scope == scope
  }

  lemma FindMeans(rows: seq<RoleBinding>, subject: string, scope: string)
    ensures Ops.Find(rows, subject, scope) < |rows| <==> HasBinding(rows, subject, scope)
  {
    if HasBinding(rows, subject, scope) {
      var i :| 0 <= i < |rows| && rows[i].subject == subject && rows[i].scope == scope;
      assert Ops.At(rows, i, subject, scope);
    }
  }

  /** A new binding goes to the end, a known one keeps its place, id and creation
      time and takes the new origin; legacy if none is given. */
  lemma PutBindingExact(rows: seq<RoleBinding>, rb: RoleBinding, now: Time, fresh_: string)
    requires rb.subject != "" && rb.scope != ""
    ensures var i := Ops.PutRoleBinding(rows, rb, now, fresh_);
            var origin := if rb.origin == "" then "legacy" else rb.origin;
            && i.Write?
            && if !HasBinding(rows, rb.subject, rb.scope) then
                 && |i.state| == |rows| + 1 && i.state[..|rows|] == rows
                 && i.state[|rows|].subject == rb.subject && i.state[|rows|].scope == rb.scope
                 && i.state[|rows|].origin == origin && i.state[|rows|].id == (if rb.id == "" then fresh_ else rb.id)
               else
                 && |i.state| == |rows|
                 && exists k :: && 0 <= k < |rows| && rows[k].subject == rb.subject && rows[k].scope == rb.scope
                                && i.state == rows[k := i.state[k]] && i.state[k].origin == origin
                                && i.state[k].id == rows[k].id && i.state[k].subject == rb.subject
                                && i.state[k].scope == rb.scope && i.state[k].updatedAt == now
                                && (rows[k].createdAt != ZERO_TIME ==> i.state[k].createdAt == rows[k].createdAt)
  {
    FindMeans(rows, rb.subject, rb.scope);
    var k := Ops.Find(rows, rb.subject, rb.scope);
    if k < |rows| {
      assert Ops.At(rows, k, rb.subject, rb.scope);
    }
  }

  /** Adding a binding and deleting it again leaves the rows as they were. */
  lemma PutDeleteBinding(rows: seq<RoleBinding>, rb: RoleBinding, now: Time, fresh_: string)
    requires rb.subject != "" && rb.scope != "" && !HasBinding(rows, rb.subject, rb.scope)
    ensures var i := Ops.PutRoleBinding(rows, rb, now, fresh_);
            i.Write? && Ops.DeleteRoleBinding(i.state, rb.subject, rb.scope) == Write(rows, Ok(()))
  {
    var n := Ops.PutRoleBinding(rows, rb, now, fresh_).state;
    FindMeans(rows, rb.subject, rb.scope);
    assert n[..|rows|] == rows;
    forall j | 0 <= j < |rows| ensures !Ops.At(n, j, rb.subject, rb.scope) {
      assert n[j] == rows[j];
    }
    var k := Ops.Find(n, rb.subject, rb.scope);
    assert Ops.At(n, |rows|, rb.subject, rb.scope);
    assert k == |rows|;
    assert n[..k] + n[k + 1..] == rows;
  }
}
