/** The on-disk layout of the store and its reading back (core/store.go,
    load and save): maps become rows in key order, rows become maps. JSON is
    left abstract. */
module Disk {
  import opened Text
  import opened Records
  import opened Ordering

  datatype Shape = Shape(
    version: int,
    assets: seq<Asset>,
    alarms: seq<Alarm>,
    tickets: seq<Ticket>,
    pmSchedules: seq<PMSchedule>,
    inspections: seq<InspectionTemplate>,
    spares: seq<SparePart>,
    spareTxns: seq<SpareTxn>,
    setAudits: seq<SetAudit>,
    tenants: seq<Tenant>,
    orgs: seq<Org>,
    siteOrgs: seq<SiteOrg>,
    tenantAudits: seq<TenantAudit>,
    roleBindings: seq<RoleBinding>)

  ghost function Enumerate(s: set<string>): seq<string> {
    if s == {} then [] else var x :| x in s; [x] + Enumerate(s - {x})
  }

  ghost function SortedKeys(s: set<string>): seq<string> { Sort(Enumerate(s), Less) }

  ghost function Rows<V>(m: map<string, V>): seq<V> {
    Pick(m, SortedKeys(m.Keys))
  }

  /** The rows of `m` at the given keys. */
  ghost function Pick<V>(m: map<string, V>, ks: seq<string>): seq<V> {
    if ks == [] then []
    else if ks[0] in m then [m[ks[0]]] + Pick(m, ks[1..])
    else Pick(m, ks[1..])
  }

  predicate BindingLess(a: RoleBinding, b: RoleBinding) {
    if a.subject != b.subject then Less(a.subject, b.subject) else Less(a.scope, b.scope)
  }

  ghost function Encode(m: Mem): Shape {
    Shape(1, Rows(m.assets), Rows(m.alarms), Rows(m.tickets), Rows(m.pmSchedules), Rows(m.inspections),
          Rows(m.stock.spares), m.stock.txns, m.setAudits, Rows(m.tenancy.tenants), Rows(m.tenancy.orgs),
          Rows(m.tenancy.sites), m.tenancy.auds, Sort(m.roleBindings, BindingLess))
  }

  /** Each row stored under its own key, later rows over earlier ones. */
  function Index<V>(rows: seq<V>, key: V -> string): map<string, V> {
    if rows == [] then map[]
    else
      var last := rows[|rows| - 1];
      Index(rows[..|rows| - 1], key)[key(last) := last]
  }

  function AssetKey(a: Asset): string { a.path }
  function AlarmKey(a: Alarm): string { a.id }
  function TicketKey(t: Ticket): string { t.id }
  function PMKey(p: PMSchedule): string { p.id }
  function InspectionKey(i: InspectionTemplate): string { i.id }
  function SpareKey(s: SparePart): string { s.id }
  function TenantKey(t: Tenant): string { t.id }
  function OrgKey(o: Org): string { o.id }
  function SiteKey(s: SiteOrg): string { s.site }

  function Decode(d: Shape): Mem {
    Mem(Index(d.assets, AssetKey),
        Index(d.alarms, AlarmKey),
        Index(d.tickets, TicketKey),
        Index(d.pmSchedules, PMKey),
        Index(d.inspections, InspectionKey),
        Stock(Index(d.spares, SpareKey), d.spareTxns),
        d.setAudits,
        Tenancy(Index(d.tenants, TenantKey), Index(d.orgs, OrgKey),
                Index(d.siteOrgs, SiteKey), d.tenantAudits),
        d.roleBindings)
  }

  method IndexRows<V>(rows: seq<V>, key: V -> string) returns (m: map<string, V>)
    ensures m == Index(rows, key)
  {
    m := map[];
    for i := 0 to |rows|
      invariant m == Index(rows[..i], key)
    {
      assert rows[..i + 1][..i] == rows[..i];
      m := m[key(rows[i]) := rows[i]];
    }
    assert rows[..|rows|] == rows;
  }

  /** Every section of the file is indexed by its key. */
  method Load(file: Shape) returns (m: Mem)
    ensures m == Decode(file)
  {
    var assets := IndexRows(file.assets, AssetKey);
    var alarms := IndexRows(file.alarms, AlarmKey);
    var tickets := IndexRows(file.tickets, TicketKey);
    var pms := IndexRows(file.pmSchedules, PMKey);
    var inspections := IndexRows(file.inspections, InspectionKey);
    var spares := IndexRows(file.spares, SpareKey);
    var tenants := IndexRows(file.tenants, TenantKey);
    var orgs := IndexRows(file.orgs, OrgKey);
    var sites := IndexRows(file.siteOrgs, SiteKey);
    m := Mem(assets, alarms, tickets, pms, inspections, Stock(spares, file.spareTxns), file.setAudits,
             Tenancy(tenants, orgs, sites, file.tenantAudits), file.roleBindings);
  }

  // ---- Reading back what was written --------------------------------------

  /** Every row sits under the key it carries. */
  ghost predicate Keyed<V>(m: map<string, V>, key: V -> string) {
    forall k :: k in m ==> key(m[k]) == k
  }

  ghost predicate KeysOk(m: Mem) {
    && Keyed(m.assets, AssetKey)
    && Keyed(m.alarms, AlarmKey)
    && Keyed(m.tickets, TicketKey)
    && Keyed(m.pmSchedules, PMKey)
    && Keyed(m.inspections, InspectionKey)
    && Keyed(m.stock.spares, SpareKey)
    && Keyed(m.tenancy.tenants, TenantKey)
    && Keyed(m.tenancy.orgs, OrgKey)
    && Keyed(m.tenancy.sites, SiteKey)
  }

  lemma {:induction false} EnumerateAll(s: set<string>)
    ensures forall x :: x in Enumerate(s) <==> x in s
  {
    if s != {} {
      var rest := Enumerate(s)[1..];
      var x := Enumerate(s)[0];
      assert rest == Enumerate(s - {x});
      EnumerateAll(s - {x});
      assert Enumerate(s) == [x] + rest;
    }
  }

  lemma {:induction false} IndexPick<V>(m: map<string, V>, ks: seq<string>, key: V -> string)
    requires Keyed(m, key)
    ensures Index(Pick(m, ks), key) == map k | k in m && k in ks :: m[k]
  {
    if ks != [] {
      var init, last := ks[..|ks| - 1], ks[|ks| - 1];
      IndexPick(m, init, key);
      PickSnoc(m, init, last);
      assert ks == init + [last];
      assert forall k :: k in ks <==> k in init || k == last;
      if last in m {
        var rows := Pick(m, ks);
        assert rows[..|rows| - 1] == Pick(m, init);
      }
    }
  }

  lemma {:induction false} PickSnoc<V>(m: map<string, V>, ks: seq<string>, k: string)
    ensures Pick(m, ks + [k]) == if k in m then Pick(m, ks) + [m[k]] else Pick(m, ks)
  {
    if ks == [] {
      assert (ks + [k])[1..] == [];
    } else {
      PickSnoc(m, ks[1..], k);
      assert (ks + [k])[1..] == ks[1..] + [k];
    }
  }

  lemma IndexOfRows<V>(m: map<string, V>, key: V -> string)
    requires Keyed(m, key)
    ensures Index(Rows(m), key) == m
  {
    var ks := SortedKeys(m.Keys);
    LessStrictWeak();
    SortCorrect(Enumerate(m.Keys), Less);
    EnumerateAll(m.Keys);
    forall k | k in m ensures k in ks {
      assert k in multiset(Enumerate(m.Keys)) && k in multiset(ks);
    }
    IndexPick(m, ks, key);
  }

  lemma BindingStrictWeak()
    ensures StrictWeak(BindingLess)
  {
    LessStrictWeak();
    forall x, y, z | BindingLess(x, y) ensures BindingLess(x, z) || BindingLess(z, y) {
      LessTotal(x.subject, z.subject);
      LessTotal(z.subject, y.subject);
    }
  }

  /** Loading a saved store gives back every map and log; the role bindings
      come back sorted by subject and scope. */
  lemma LoadAfterSave(m: Mem)
    requires KeysOk(m)
    ensures Decode(Encode(m)) == m.(roleBindings := Sort(m.roleBindings, BindingLess))
    ensures multiset(Decode(Encode(m)).roleBindings) == multiset(m.roleBindings)
    ensures Sorted(Decode(Encode(m)).roleBindings, BindingLess)
  {
    IndexOfRows(m.assets, AssetKey);
    IndexOfRows(m.alarms, AlarmKey);
    IndexOfRows(m.tickets, TicketKey);
    IndexOfRows(m.pmSchedules, PMKey);
    IndexOfRows(m.inspections, InspectionKey);
    IndexOfRows(m.stock.spares, SpareKey);
    IndexOfRows(m.tenancy.tenants, TenantKey);
    IndexOfRows(m.tenancy.orgs, OrgKey);
    IndexOfRows(m.tenancy.sites, SiteKey);
    BindingStrictWeak();
    SortCorrect(m.roleBindings, BindingLess);
  }
}
