/** The drawn layout of a site (core/sitelayout.go): normalised and checked in
    place, written back into the assets it names. */
module Layout {
  import opened Text
  import opened Names
  import opened Records
  import opened FileStore
  import RiskPolicy
  import Tokens
  import Ops

  datatype Instance = Instance(id: string, path: string, typ: string, model: string, packType: string, x: real,
                               y: real, rot: real)

  datatype Edge = Edge(id: string, from: string, to: string, relation: string)

  /** The protocol dictionary: its types and relations, empty when not loaded,
      and which asset paths it parses. */
  datatype Dict = Dict(types: set<string>, relations: set<string>, parses: string -> bool)

  // ---- Normal form ----------------------------------------------------------------

  function Folded(s: string): string { RiskPolicy.Lower(Ops.TrimSpace(s)) }

  function Norm(i: Instance): Instance {
    i.(id := Ops.TrimSpace(i.id), path := Ops.TrimSpace(i.path), typ := Folded(i.typ))
  }

  function NormEdge(e: Edge): Edge {
    Edge(Ops.TrimSpace(e.id), Ops.TrimSpace(e.from), Ops.TrimSpace(e.to), Folded(e.relation))
  }

  predicate Trim(s: string) { s == "" || (!Ops.IsSpace(s[0]) && !Ops.IsSpace(s[|s| - 1])) }

  lemma {:induction false} TrimmedIsTrim(s: string)
    ensures Trim(Ops.TrimSpace(s))
    decreases |s|
  {
    if s != "" {
      if Ops.IsSpace(s[0]) {
        TrimmedIsTrim(s[1..]);
      } else if Ops.IsSpace(s[|s| - 1]) {
        TrimmedIsTrim(s[..|s| - 1]);
      }
    }
  }

  lemma TrimStays(s: string)
    requires Trim(s)
    ensures Ops.TrimSpace(s) == s
  {}

  lemma FoldedStays(s: string)
    ensures Folded(Folded(s)) == Folded(s)
  {
    var t := Ops.TrimSpace(s);
    TrimmedIsTrim(s);
    var l := RiskPolicy.Lower(t);
    assert t != "" ==> l[0] == RiskPolicy.LowerChar(t[0]) && l[|l| - 1] == RiskPolicy.LowerChar(t[|t| - 1]);
    TrimStays(l);
    assert RiskPolicy.Lower(l) == l;
  }

  lemma TrimTwice(s: string)
    ensures Ops.TrimSpace(Ops.TrimSpace(s)) == Ops.TrimSpace(s)
  {
    TrimmedIsTrim(s);
    TrimStays(Ops.TrimSpace(s));
  }

  lemma NormTwice(i: Instance, e: Edge)
    ensures Norm(Norm(i)) == Norm(i) && NormEdge(NormEdge(e)) == NormEdge(e)
  {
    TrimTwice(i.id);
    TrimTwice(i.path);
    FoldedStays(i.typ);
    TrimTwice(e.id);
    TrimTwice(e.from);
    TrimTwice(e.to);
    FoldedStays(e.relation);
  }

  /** Normalising trims ids and paths, and trims and lowers types and relations;
      the rest stays. */
  lemma NormMeans(i: Instance, e: Edge)
    ensures Trim(Norm(i).id) && Trim(Norm(i).path) && Trim(Norm(i).typ)
    ensures Trim(i.id) ==> Norm(i).id == i.id
    ensures Trim(i.path) ==> Norm(i).path == i.path
    ensures Trim(i.typ) && RiskPolicy.Lower(i.typ) == i.typ ==> Norm(i).typ == i.typ
    ensures Norm(i) == i.(id := Norm(i).id, path := Norm(i).path, typ := Norm(i).typ)
    ensures Trim(NormEdge(e).id) && Trim(NormEdge(e).from) && Trim(NormEdge(e).to) && Trim(NormEdge(e).relation)
    ensures Trim(e.id) && Trim(e.from) && Trim(e.to) ==>
              NormEdge(e).id == e.id && NormEdge(e).from == e.from && NormEdge(e).to == e.to
    ensures Trim(e.relation) && RiskPolicy.Lower(e.relation) == e.relation ==> NormEdge(e).relation == e.relation
    ensures RiskPolicy.Lower(Norm(i).typ) == Norm(i).typ && RiskPolicy.Lower(NormEdge(e).relation) ==
            NormEdge(e).relation
  {
    TrimmedIsTrim(i.id);
    TrimmedIsTrim(i.path);
    FoldedTrim(i.typ);
    TrimmedIsTrim(e.id);
    TrimmedIsTrim(e.from);
    TrimmedIsTrim(e.to);
    FoldedTrim(e.relation);
  }

  lemma FoldedTrim(s: string)
    ensures Trim(Folded(s)) && RiskPolicy.Lower(Folded(s)) == Folded(s)
  {
    var t := Ops.TrimSpace(s);
    TrimmedIsTrim(s);
    var l := RiskPolicy.Lower(t);
    assert t != "" ==> l[0] == RiskPolicy.LowerChar(t[0]) && l[|l| - 1] == RiskPolicy.LowerChar(t[|t| - 1]);
  }

  function NormAll(is_: seq<Instance>): seq<Instance> { seq(|is_|, k requires 0 <= k < |is_| => Norm(is_[k])) }

  function NormEdges(es: seq<Edge>): seq<Edge> { seq(|es|, k requires 0 <= k < |es| => NormEdge(es[k])) }

  // ---- What a valid layout is -----------------------------------------------------

  predicate Fits(i: Instance, site: string, d: Dict) {
    && i.id != "" && i.path != "" && i.typ != ""
    && (d.types == {} || i.typ in d.types) && d.parses(i.path)
    && (HasPrefix(i.path, site + ".") || i.path == site || i.typ == "site")
  }

  predicate InstancesOk(is_: seq<Instance>, site: string, d: Dict) {
    && (forall k :: 0 <= k < |is_| ==> Fits(is_[k], site, d))
    && (forall j, k :: 0 <= j < k < |is_| ==> is_[j].id != is_[k].id && is_[j].path != is_[k].path)
  }

  function Ids(is_: seq<Instance>): set<string> { set k | 0 <= k < |is_| :: is_[k].id }

  predicate EdgeFits(e: Edge, ids: set<string>, d: Dict) {
    && e.id != "" && e.from != "" && e.to != "" && e.from != e.to && e.from in ids && e.to in ids
    && (d.relations == {} || e.relation in d.relations)
  }

  predicate EdgesOk(es: seq<Edge>, ids: set<string>, d: Dict) { forall k :: 0 <= k < |es| ==> EdgeFits(es[k], ids, d) }

  function Paths(is_: seq<Instance>): set<string> { set k | 0 <= k < |is_| :: is_[k].path }

  /** One more instance is fine if it fits and its id and path are new. */
  lemma InstancesMore(all: seq<Instance>, i: nat, site: string, d: Dict)
    requires i < |all| && InstancesOk(all[..i], site, d)
    ensures InstancesOk(all[..i + 1], site, d) <==>
            Fits(all[i], site, d) && all[i].id !in Ids(all[..i]) && all[i].path !in Paths(all[..i])
    ensures Ids(all[..i + 1]) == Ids(all[..i]) + {all[i].id} && Paths(all[..i + 1]) == Paths(all[..i]) + {all[i].path}
  {
    var head, more := all[..i], all[..i + 1];
    assert more == head + [all[i]];
    if InstancesOk(more, site, d) {
      assert Fits(more[i], site, d);
      forall k | 0 <= k < i ensures head[k].id != all[i].id && head[k].path != all[i].path {
        assert more[k] == head[k];
      }
    }
  }

  lemma PrefixOk(all: seq<Instance>, i: nat, site: string, d: Dict)
    requires i <= |all| && InstancesOk(all, site, d)
    ensures InstancesOk(all[..i], site, d)
  {}

  /** The loop over instances: each trimmed in place, then checked against those
      before it. */
  method NormalizeInstances(a: array<Instance>, site: string, d: Dict) returns (ids: Option<set<string>>)
    modifies a
    ensures ids.Some? <==> InstancesOk(NormAll(old(a[..])), site, d)
    ensures ids.Some? ==> a[..] == NormAll(old(a[..])) && ids.value == Ids(a[..])
  {
    var seen: set<string>, paths: set<string> := {}, {};
    ghost var all := NormAll(a[..]);
    for i := 0 to a.Length
      invariant a[..i] == all[..i] && a[i..] == old(a[i..])
      invariant InstancesOk(all[..i], site, d) && seen == Ids(all[..i]) && paths == Paths(all[..i])
    {
      assert a[i] == a[i..][0] == old(a[i]);
      a[i] := a[i].(id := Ops.TrimSpace(a[i].id), path := Ops.TrimSpace(a[i].path), typ := Folded(a[i].typ));
      var inst := a[i];
      assert inst == all[i];
      InstancesMore(all, i, site, d);
      if inst.id == "" || inst.id in seen || inst.path == "" || inst.typ == ""
        || (d.types != {} && inst.typ !in d.types)
         || !d.parses(inst.path) || (!HasPrefix(inst.path, site + ".") && inst.path != site && inst.typ != "site")
         || inst.path in paths {
        if InstancesOk(all, site, d) { PrefixOk(all, i + 1, site, d); }
        return None;
      }
      seen, paths := seen + {inst.id}, paths + {inst.path};
    }
    assert all[..a.Length] == all && a[..a.Length] == a[..];
    ids := Some(seen);
  }

  method NormalizeEdges(a: array<Edge>, ids: set<string>, d: Dict) returns (ok: bool)
    modifies a
    ensures ok <==> EdgesOk(NormEdges(old(a[..])), ids, d)
    ensures ok ==> a[..] == NormEdges(old(a[..]))
  {
    ghost var all := NormEdges(a[..]);
    for i := 0 to a.Length
      invariant a[..i] == all[..i] && a[i..] == old(a[i..])
      invariant EdgesOk(all[..i], ids, d)
    {
      assert a[i] == a[i..][0] == old(a[i]);
      a[i] := Edge(Ops.TrimSpace(a[i].id), Ops.TrimSpace(a[i].from), Ops.TrimSpace(a[i].to), Folded(a[i].relation));
      var e := a[i];
      assert e == all[i] && all[..i + 1] == all[..i] + [all[i]];
      if e.id == "" || e.from == "" || e.to == "" || e.from == e.to || e.from !in ids || e.to !in ids {
        return false;
      }
      if d.relations != {} && e.relation !in d.relations {
        return false;
      }
    }
    assert all[..a.Length] == all && a[..a.Length] == a[..];
    ok := true;
  }

  function SanitizeSeg(s: string): string {
    var t := Ops.TrimSpace(s);
    if Contains(t, "..") || '/' in t || '\\' in t then "" else t
  }

  datatype SiteLayout = SiteLayout(site: string, instances: seq<Instance>, edges: seq<Edge>)

  function Normalized(l: SiteLayout): SiteLayout {
    SiteLayout(SanitizeSeg(l.site), NormAll(l.instances), NormEdges(l.edges))
  }

  /** Unique ids and paths under the site, edges between different known
      instances, types and relations from the dictionary. */
  predicate Valid(l: SiteLayout, d: Dict) {
    ValidSiteSlug(l.site) && InstancesOk(l.instances, l.site, d) && EdgesOk(l.edges, Ids(l.instances), d)
  }

  method NormalizeValidate(rawSite: string, a: array<Instance>, b: array<Edge>, d: Dict) returns (site: Option<string>)
    requires (a as object) != b
    modifies a, b
    ensures site.Some? <==> Valid(Normalized(SiteLayout(rawSite, old(a[..]), old(b[..]))), d)
    ensures site.Some? ==>
              SiteLayout(site.value, a[..], b[..]) == Normalized(SiteLayout(rawSite, old(a[..]), old(b[..])))
  {
    var s := SanitizeSeg(rawSite);
    if s == "" || !ValidSiteSlug(s) {
      return None;
    }
    var ids := NormalizeInstances(a, s, d);
    if ids.None? {
      return None;
    }
    var ok := NormalizeEdges(b, ids.value, d);
    if !ok {
      return None;
    }
    site := Some(s);
  }

  lemma SanitizeTwice(s: string)
    ensures SanitizeSeg(SanitizeSeg(s)) == SanitizeSeg(s)
  {
    TrimTwice(s);
    TrimStays("");
  }

  /** A second normalisation changes nothing. */
  lemma NormalizedTwice(l: SiteLayout)
    ensures Normalized(Normalized(l)) == Normalized(l)
  {
    SanitizeTwice(l.site);
    var n := Normalized(l);
    var e := Edge("", "", "", "");
    forall k | 0 <= k < |l.instances| ensures NormAll(n.instances)[k] == n.instances[k] {
      NormTwice(l.instances[k], e);
    }
    forall k | 0 <= k < |l.edges| ensures NormEdges(n.edges)[k] == n.edges[k] {
      NormTwice(Instance("", "", "", "", "", 0.0, 0.0, 0.0), l.edges[k]);
    }
    assert NormAll(n.instances) == n.instances && NormEdges(n.edges) == n.edges;
  }

  // ---- A free path ------------------------------------------------------------------

  function DigitChar(n: nat): char requires n < 10 { ('0' as int + n) as char }

  /** At least three digits. */
  function Pad3(i: nat): string {
    if i < 1000 then [DigitChar(i / 10 / 10), DigitChar(i / 10 % 10), DigitChar(i % 10)] else Tokens.Digits(i)
  }

  function Candidate(site: string, typ: string, i: nat): string { site + "." + typ + Pad3(i) }

  lemma SameDigit(m: nat, n: nat)
    requires m < 10 && n < 10 && DigitChar(m) == DigitChar(n)
    ensures m == n
  {}

  lemma PadsDiffer(i: nat, j: nat)
    requires i < 1000 && j < 1000 && Pad3(i) == Pad3(j)
    ensures i == j
  {
    var a, b := i / 10, j / 10;
    assert Pad3(i)[0] == Pad3(j)[0] && Pad3(i)[1] == Pad3(j)[1] && Pad3(i)[2] == Pad3(j)[2];
    SameDigit(a / 10, b / 10);
    SameDigit(a % 10, b % 10);
    SameDigit(i % 10, j % 10);
  }

  lemma CandidatesDiffer(site: string, typ: string, i: nat, j: nat)
    requires i < 1000 && j < 1000 && Candidate(site, typ, i) == Candidate(site, typ, j)
    ensures i == j
  {
    var stem := site + "." + typ;
    assert Candidate(site, typ, i)[|stem|..] == Pad3(i) && Candidate(site, typ, j)[|stem|..] == Pad3(j);
    PadsDiffer(i, j);
  }

  ghost function Candidates(site: string, typ: string, n: nat): set<string> {
    set i | 0 <= i < n :: Candidate(site, typ, i)
  }

  lemma CandidatesMore(site: string, typ: string, n: nat)
    requires 0 < n <= 1000
    ensures Candidates(site, typ, n) == Candidates(site, typ, n - 1) + {Candidate(site, typ, n - 1)}
    ensures Candidate(site, typ, n - 1) !in Candidates(site, typ, n - 1)
  {
    forall i | 0 <= i < n - 1 ensures Candidate(site, typ, i) != Candidate(site, typ, n - 1) {
      if Candidate(site, typ, i) == Candidate(site, typ, n - 1) { CandidatesDiffer(site, typ, i, n - 1); }
    }
  }

  lemma {:induction false} CandidateCount(site: string, typ: string, n: nat)
    requires n <= 1000
    ensures |Candidates(site, typ, n)| == n
  {
    if n > 0 {
      CandidateCount(site, typ, n - 1);
      CandidatesMore(site, typ, n);
    }
  }

  lemma {:induction false} PathCount(is_: seq<Instance>)
    ensures |Paths(is_)| <= |is_|
  {
    if is_ != [] {
      var init, last := is_[..|is_| - 1], is_[|is_| - 1];
      PathCount(init);
      assert Paths(is_) == Paths(init) + {last.path};
    }
  }

  lemma {:induction false} SubsetCount(a: set<string>, b: set<string>)
    requires a <= b
    ensures |a| <= |b|
  {
    if a != {} {
      var x :| x in a;
      SubsetCount(a - {x}, b - {x});
    }
  }

  /** Fewer than a thousand instances cannot use up a thousand names. */
  lemma SomeFree(site: string, typ: string, is_: seq<Instance>)
    requires |is_| < 1000
    ensures exists i :: 0 <= i < 1000 && Candidate(site, typ, i) !in Paths(is_)
  {
    if forall i :: 0 <= i < 1000 ==> Candidate(site, typ, i) in Paths(is_) {
      CandidateCount(site, typ, 1000);
      SubsetCount(Candidates(site, typ, 1000), Paths(is_));
      PathCount(is_);
      assert false;
    }
  }

  ghost predicate NoneFree(site: string, typ: string, used: set<string>) {
    forall j :: 0 <= j < 1000 ==> Candidate(site, typ, j) in used
  }

  /** `p` is a free name, and every name before it is taken. */
  ghost predicate FirstFree(site: string, typ: string, used: set<string>, p: string) {
    exists i :: 0 <= i < 1000 && p == Candidate(site, typ, i) && p !in used
                && forall j :: 0 <= j < i ==> Candidate(site, typ, j) in used
  }

  /** The first free name of a thousand; past that, the number of instances is
      used without looking. */
  method NextLayoutPath(site: string, is_: seq<Instance>, rawType: string) returns (p: string)
    ensures FirstFree(site, Folded(rawType), Paths(is_), p)
            || (NoneFree(site, Folded(rawType), Paths(is_)) && p == Candidate(site, Folded(rawType), |is_|))
    ensures p !in Paths(is_) <==>
            (exists i :: 0 <= i < 1000 && Candidate(site, Folded(rawType), i) !in Paths(is_))
            || Candidate(site, Folded(rawType), |is_|) !in Paths(is_)
    ensures |is_| < 1000 ==> p !in Paths(is_)
  {
    var typ := Folded(rawType);
    var used: set<string> := {};
    for k := 0 to |is_|
      invariant used == Paths(is_[..k])
    {
      assert is_[..k + 1] == is_[..k] + [is_[k]];
      used := used + {is_[k].path};
    }
    assert is_[..|is_|] == is_;
    if |is_| < 1000 { SomeFree(site, typ, is_); }
    for i := 0 to 1000
      invariant forall j :: 0 <= j < i ==> Candidate(site, typ, j) in used
    {
      p := Candidate(site, typ, i);
      if p !in used {
        return;
      }
    }
    p := Candidate(site, typ, |is_|);
  }

  function CrowdMember(site: string, typ: string, k: nat): Instance {
    var path := Candidate(site, typ, if k < 1000 then k else 1001);
    Instance(path, path, typ, "", "", 0.0, 0.0, 0.0)
  }

  function Crowd(site: string, typ: string): seq<Instance> {
    seq(1001, k requires 0 <= k < 1001 => CrowdMember(site, typ, k))
  }

  /** With more instances than names the path returned can be taken. */
  lemma CrowdTakesAll(site: string, typ: string)
    ensures forall i :: 0 <= i < 1000 ==> Candidate(site, typ, i) in Paths(Crowd(site, typ))
    ensures Candidate(site, typ, |Crowd(site, typ)|) in Paths(Crowd(site, typ))
  {
    var c := Crowd(site, typ);
    forall i | 0 <= i < 1000 ensures Candidate(site, typ, i) in Paths(c) {
      assert c[i].path == Candidate(site, typ, i);
    }
    assert c[1000].path == Candidate(site, typ, 1001);
  }

  lemma LongPad()
    ensures |Pad3(1001)| == 4
  {
    assert |Tokens.Digits(1)| == 1;
    assert |Tokens.Digits(10)| == 2;
    assert |Tokens.Digits(100)| == 3;
  }

  lemma CrowdPathsDiffer(site: string, typ: string, j: nat, k: nat)
    requires j < k < 1001
    ensures CrowdMember(site, typ, j).path != CrowdMember(site, typ, k).path
  {
    LongPad();
    if k < 1000 && Candidate(site, typ, j) == Candidate(site, typ, k) {
      CandidatesDiffer(site, typ, j, k);
    }
  }

  predicate Takes(d: Dict, site: string, typ: string) {
    && typ != "" && (d.types == {} || typ in d.types)
    && forall k :: 0 <= k < 1001 ==> d.parses(CrowdMember(site, typ, k).path)
  }

  /** That crowd is a layout like any other. */
  lemma CrowdValid(site: string, typ: string, d: Dict)
    requires ValidSiteSlug(site) && Takes(d, site, typ)
    ensures Valid(SiteLayout(site, Crowd(site, typ), []), d)
  {
    var c := Crowd(site, typ);
    forall k | 0 <= k < |c| ensures Fits(c[k], site, d) {
      assert c[k] == CrowdMember(site, typ, k);
      var path := c[k].path;
      assert path[..|site + "."|] == site + ".";
    }
    forall j, k | 0 <= j < k < |c| ensures c[j].id != c[k].id && c[j].path != c[k].path {
      CrowdPathsDiffer(site, typ, j, k);
    }
  }

  // ---- Writing back into the assets ---------------------------------------------------

  function PathOf(is_: seq<Instance>, id: string): string {
    if is_ == [] then "" else if is_[0].id == id then is_[0].path else PathOf(is_[1..], id)
  }

  method FindPath(is_: seq<Instance>, id: string) returns (p: string)
    ensures p == PathOf(is_, id)
  {
    for k := 0 to |is_|
      invariant PathOf(is_, id) == PathOf(is_[k..], id)
    {
      if is_[k].id == id {
        return is_[k].path;
      }
    }
    p := "";
  }

  /** The outgoing edges of an instance as (path, relation). */
  function Outs(es: seq<Edge>, is_: seq<Instance>, id: string): seq<(string, string)> {
    if es == [] then []
    else
      var e := es[|es| - 1];
      var to := PathOf(is_, e.to);
      Outs(es[..|es| - 1], is_, id) + (if e.from == id && to != "" then [(to, e.relation)] else [])
  }

  method CollectOuts(es: seq<Edge>, is_: seq<Instance>, id: string) returns (outs: seq<(string, string)>)
    ensures outs == Outs(es, is_, id)
  {
    outs := [];
    for k := 0 to |es|
      invariant outs == Outs(es[..k], is_, id)
    {
      assert es[..k + 1][..k] == es[..k];
      if es[k].from == id {
        var to := FindPath(is_, es[k].to);
        if to != "" {
          outs := outs + [(to, es[k].relation)];
        }
      }
    }
    assert es[..|es|] == es;
  }

  const TYPE := "type"
  const LAYOUT := "layout"
  const EDGES := "layout_edges"
  const MODEL := "model"
  const PACK := "pack_type"

  function NewSpec(i: Instance): Spec {
    map[TYPE := Str(i.typ), "lifecycle" := Str("planned"), "source" := Str("site-draw")]
  }

  predicate Typed(spec: Spec) { TYPE in spec && spec[TYPE] != Str("") }

  function WithLayout(spec: Spec, i: Instance): Spec { spec[LAYOUT := Placement(i.x, i.y, i.rot)] }

  function WithType(spec: Spec, i: Instance): Spec { if Typed(spec) then spec else spec[TYPE := Str(i.typ)] }

  function WithModel(spec: Spec, i: Instance): Spec { if i.model != "" then spec[MODEL := Str(i.model)] else spec }

  function WithPack(spec: Spec, i: Instance): Spec { if i.packType != "" then spec[PACK := Str(i.packType)] else spec }

  function WithEdges(spec: Spec, outs: seq<(string, string)>): Spec {
    if outs != [] then spec[EDGES := Edges(outs)] else spec - {EDGES}
  }

  /** The spec of an asset once the instance is written into it. */
  function Merged(spec: Spec, i: Instance, outs: seq<(string, string)>): Spec {
    WithEdges(WithPack(WithModel(WithLayout(WithType(spec, i), i), i), i), outs)
  }

  /** Only the layout keys change, and a missing type. */
  lemma MergeKeeps(spec: Spec, i: Instance, outs: seq<(string, string)>, k: string)
    requires k !in {LAYOUT, EDGES, MODEL, PACK} && (k == TYPE ==> Typed(spec))
    ensures k in Merged(spec, i, outs) <==> k in spec
    ensures k in spec ==> Merged(spec, i, outs)[k] == spec[k]
  {}

  /** What is written can be read back: the placement, the type unless there was
      one, the model and pack type if given, and the outgoing edges if any. */
  lemma MergeSays(spec: Spec, i: Instance, outs: seq<(string, string)>)
    ensures var m := Merged(spec, i, outs);
            && LAYOUT in m && m[LAYOUT] == Placement(i.x, i.y, i.rot)
            && TYPE in m && m[TYPE] == (if Typed(spec) then spec[TYPE] else Str(i.typ))
            && (i.model != "" ==> MODEL in m && m[MODEL] == Str(i.model))
            && (i.packType != "" ==> PACK in m && m[PACK] == Str(i.packType))
            && (i.model == "" ==> (MODEL in m <==> MODEL in spec) && (MODEL in spec ==> m[MODEL] == spec[MODEL]))
            && (i.packType == "" ==> (PACK in m <==> PACK in spec) && (PACK in spec ==> m[PACK] == spec[PACK]))
            && (EDGES in m <==> outs != []) && (outs != [] ==> m[EDGES] == Edges(outs))
  {}

  /** A new asset is marked as planned and drawn. */
  lemma NewSays(i: Instance, outs: seq<(string, string)>)
    requires i.typ != ""
    ensures var m := Merged(NewSpec(i), i, outs);
            && m.Keys - {MODEL, PACK, EDGES} == {TYPE, LAYOUT, "lifecycle", "source"}
            && m[TYPE] == Str(i.typ) && m["lifecycle"] == Str("planned") && m["source"] == Str("site-draw")
  {}

  /** With unique ids an id leads to the path of its instance. */
  lemma {:induction false} PathOfIs(is_: seq<Instance>, k: nat)
    requires k < |is_| && forall j, l :: 0 <= j < l < |is_| ==> is_[j].id != is_[l].id
    ensures PathOf(is_, is_[k].id) == is_[k].path
  {
    if k > 0 {
      assert is_[0].id != is_[k].id;
      PathOfIs(is_[1..], k - 1);
    }
  }

  /** The edges written are exactly those that leave the instance, in their order,
      each with its relation and the path it leads to. */
  lemma {:induction false} OutsMean(es: seq<Edge>, is_: seq<Instance>, id: string, to_: string, relation: string)
    ensures (to_, relation) in Outs(es, is_, id) <==>
            to_ != "" && exists e :: e in es && e.from == id && e.relation == relation && PathOf(is_, e.to) == to_
  {
    if es != [] {
      var init, e := es[..|es| - 1], es[|es| - 1];
      OutsMean(init, is_, id, to_, relation);
      assert es == init + [e];
    }
  }

  lemma {:induction false} OutsAppend(a: seq<Edge>, b: seq<Edge>, is_: seq<Instance>, id: string)
    ensures Outs(a + b, is_, id) == Outs(a, is_, id) + Outs(b, is_, id)
  {
    if b == [] {
      assert a + b == a;
    } else {
      OutsAppend(a, b[..|b| - 1], is_, id);
      assert (a + b)[..|a + b| - 1] == a + b[..|b| - 1];
    }
  }

  /** Writing the same instance again changes nothing. */
  lemma MergeTwice(spec: Spec, i: Instance, outs: seq<(string, string)>)
    requires i.typ != ""
    ensures Merged(Merged(spec, i, outs), i, outs) == Merged(spec, i, outs)
  {}

  /** A path below the site, which an asset can have. */
  predicate Placed(i: Instance, site: string) { i.path != site && '.' in i.path }

  function Target(assets: map<string, Asset>, i: Instance, l: SiteLayout): Spec {
    Merged(if i.path in assets then assets[i.path].spec else NewSpec(i), i, Outs(l.edges, l.instances, i.id))
  }

  ghost predicate SameAt(was: map<string, Asset>, is_: map<string, Asset>, p: string) {
    (p in is_ <==> p in was) && (p in was ==> is_[p] == was[p])
  }

  ghost predicate WrittenAt(was: map<string, Asset>, is_: map<string, Asset>, i: Instance, l: SiteLayout) {
    i.path in is_ && is_[i.path].spec == Target(was, i, l)
  }

  /** Path `p` is that of one of the first `n` instances that can be written. */
  ghost predicate Touched(l: SiteLayout, n: nat, p: string) {
    exists k :: 0 <= k < n && k < |l.instances| && l.instances[k].path == p && Placed(l.instances[k], l.site)
  }

  /** The assets after the first `n` instances. */
  ghost predicate WrittenBack(l: SiteLayout, was: map<string, Asset>, is_: map<string, Asset>, n: nat, complete: bool) {
    && (forall p :: !Touched(l, n, p) ==> SameAt(was, is_, p))
    && (forall k :: 0 <= k < n && k < |l.instances| && Placed(l.instances[k], l.site) ==>
          WrittenAt(was, is_, l.instances[k], l) || (!complete && SameAt(was, is_, l.instances[k].path)))
  }

  /** From `is_` to `next` the asset of instance `i` is written, if at all, and
      no other. */
  ghost predicate PutOne(is_: map<string, Asset>, next: map<string, Asset>, i: Instance, l: SiteLayout, ok: bool) {
    && (forall p :: p != i.path ==> SameAt(is_, next, p))
    && (if ok then WrittenAt(is_, next, i, l) else SameAt(is_, next, i.path))
  }

  lemma UntouchedSame(l: SiteLayout, was: map<string, Asset>, is_: map<string, Asset>, next: map<string, Asset>, n: nat,
                      complete: bool, ok: bool, p: string)
    requires n < |l.instances| && Placed(l.instances[n], l.site) && WrittenBack(l, was, is_, n, complete)
    requires PutOne(is_, next, l.instances[n], l, ok) && !Touched(l, n + 1, p)
    ensures SameAt(was, next, p)
  {
    assert p != l.instances[n].path && !Touched(l, n, p);
    assert SameAt(was, is_, p) && SameAt(is_, next, p);
  }

  lemma EarlierStays(l: SiteLayout, was: map<string, Asset>, is_: map<string, Asset>, next: map<string, Asset>, n: nat,
                     k: nat, complete: bool, ok: bool)
    requires k < n < |l.instances| && Placed(l.instances[k], l.site) && WrittenBack(l, was, is_, n, complete)
    requires PutOne(is_, next, l.instances[n], l, ok) && l.instances[k].path != l.instances[n].path
    ensures WrittenAt(was, next, l.instances[k], l) || (!complete && SameAt(was, next, l.instances[k].path))
  {
    assert SameAt(is_, next, l.instances[k].path);
  }

  lemma OneMore(l: SiteLayout, d: Dict, was: map<string, Asset>, is_: map<string, Asset>, next: map<string, Asset>,
                n: nat, complete: bool, ok: bool)
    requires Valid(l, d) && n < |l.instances| && Placed(l.instances[n], l.site) && WrittenBack(l, was, is_, n, complete)
    requires PutOne(is_, next, l.instances[n], l, ok)
    ensures WrittenBack(l, was, next, n + 1, complete && ok)
  {
    var i := l.instances[n];
    assert !Touched(l, n, i.path);
    assert SameAt(was, is_, i.path);
    forall p | !Touched(l, n + 1, p) ensures SameAt(was, next, p) {
      UntouchedSame(l, was, is_, next, n, complete, ok, p);
    }
    forall k | 0 <= k < n && Placed(l.instances[k], l.site)
      ensures WrittenAt(was, next, l.instances[k], l) || (!complete && SameAt(was, next, l.instances[k].path))
    {
      EarlierStays(l, was, is_, next, n, k, complete, ok);
    }
  }

  lemma PutIsOne(was: map<string, Asset>, next: map<string, Asset>, i: Instance, l: SiteLayout, now: Time, d: seq<Mem>,
                 d': seq<Mem>, m: Mem, r: Result<Asset>)
    requires Transaction(was, next, d, d', m,
                         Ops.PutAsset(was, Asset(i.path, 0, Target(was, i, l), ZERO_TIME, ZERO_TIME), 0, now), r)
    ensures PutOne(was, next, i, l, r.Ok?)
  {}

  /** Every asset named by the layout gets its keys, all of them exactly if no save
      fails; no other asset changes. */
  method Writeback(st: Store, l: SiteLayout, d: Dict, now: Time) returns (complete: bool)
    requires st.Valid() && Valid(l, d)
    modifies st`assets, st`saved, st`refused
    ensures st.Valid() && WrittenBack(l, old(st.assets), st.assets, |l.instances|, complete)
    ensures st.refused >= old(st.refused) && (complete <==> st.refused == old(st.refused))
  {
    ghost var was := st.assets;
    complete := true;
    for n := 0 to |l.instances|
      invariant st.Valid() && WrittenBack(l, was, st.assets, n, complete)
      invariant st.refused >= old(st.refused) && (complete <==> st.refused == old(st.refused))
    {
      var i := l.instances[n];
      if i.path == l.site || '.' !in i.path {
        SkipOne(l, was, st.assets, n, complete);
      } else {
        ghost var before, disk := st.assets, st.saved;
        var spec := if i.path in st.assets then st.assets[i.path].spec else NewSpec(i);
        var outs := CollectOuts(l.edges, l.instances, i.id);
        var r := st.PutAsset(Asset(i.path, 0, Merged(spec, i, outs), ZERO_TIME, ZERO_TIME), 0, now);
        PutIsOne(before, st.assets, i, l, now, disk, st.saved, st.Contents(), r);
        OneMore(l, d, was, before, st.assets, n, complete, r.Ok?);
        complete := complete && r.Ok?;
      }
    }
  }

  lemma SkipOne(l: SiteLayout, was: map<string, Asset>, is_: map<string, Asset>, n: nat, complete: bool)
    requires n < |l.instances| && !Placed(l.instances[n], l.site) && WrittenBack(l, was, is_, n, complete)
    ensures WrittenBack(l, was, is_, n + 1, complete)
  {
    forall p | !Touched(l, n + 1, p) ensures SameAt(was, is_, p) { assert !Touched(l, n, p); }
  }

  /** A second complete writeback leaves every spec as it is. */
  lemma WritebackTwice(l: SiteLayout, d: Dict, was: map<string, Asset>, once: map<string, Asset>,
                       twice: map<string, Asset>)
    requires Valid(l, d) && WrittenBack(l, was, once, |l.instances|, true)
             && WrittenBack(l, once, twice, |l.instances|, true)
    ensures forall p :: p in twice <==> p in once
    ensures forall p :: p in once ==> twice[p].spec == once[p].spec
  {
    forall p ensures (p in twice <==> p in once) && (p in once ==> twice[p].spec == once[p].spec) {
      if Touched(l, |l.instances|, p) {
        var k :| 0 <= k < |l.instances| && l.instances[k].path == p && Placed(l.instances[k], l.site);
        var i := l.instances[k];
        assert Fits(i, l.site, d);
        assert WrittenAt(was, once, i, l) && WrittenAt(once, twice, i, l);
        MergeTwice(if p in was then was[p].spec else NewSpec(i), i, Outs(l.edges, l.instances, i.id));
      } else {
        assert SameAt(once, twice, p);
      }
    }
  }

  /** A writeback stays within the site: an asset outside it changes only under an
      instance drawn as a site itself. */
  lemma WritebackWithin(l: SiteLayout, d: Dict, was: map<string, Asset>, is_: map<string, Asset>, complete: bool,
                        p: string)
    requires Valid(l, d) && WrittenBack(l, was, is_, |l.instances|, complete) && !SameAt(was, is_, p)
    ensures HasPrefix(p, l.site + ".") || exists i :: i in l.instances && i.path == p && i.typ == "site"
  {
    assert Touched(l, |l.instances|, p);
    var k :| 0 <= k < |l.instances| && l.instances[k].path == p && Placed(l.instances[k], l.site);
    assert Fits(l.instances[k], l.site, d) && l.instances[k] in l.instances;
  }
}
