/** Which points may be written and under what approval (core/setctl.go). */
module RiskPolicy {
  import opened Text
  import opened Records
  import Ops

  /** One row of the list of controllable points. */
  datatype Entry = Entry(suffix: string, class_: RiskClass)

  const MAINTENANCE := ".status"

  const ALLOW_LIST: seq<Entry> := [
    Entry("chiller.compressor.status", ClassA),
    Entry("fws.supply.temp", ClassA),
    Entry("cdu.pump.rpm", ClassA),
    Entry("chiller.valve.opening", ClassA),
    Entry("switchgear.breaker.status", ClassA),
    Entry("bess.pcs.power", ClassA),
    Entry("genset.status", ClassA),
    Entry("ups.status", ClassA),
    Entry("drycooler.fan.rpm", ClassB),
    Entry("cdu.valve.opening", ClassB),
    Entry("tcs.opening", ClassB),
    Entry("tou.status", ClassB),
    Entry("pdu.status", ClassB),
    Entry("node.status", ClassB),
    Entry("gpu.clock", ClassC),
    Entry(MAINTENANCE, ClassC)]

  function LowerChar(c: char): char { if 'A' <= c <= 'Z' then c - 'A' + 'a' else c }

  /** Lower case, ASCII only. */
  function Lower(s: string): (r: string)
    ensures |r| == |s|
  {
    seq(|s|, i requires 0 <= i < |s| => LowerChar(s[i]))
  }

  // ---- Instance numbers ---------------------------------------------------

  function Strip(p: string): string {
    if p == "" then ""
    else
      var init, last := p[..|p| - 1], p[|p| - 1];
      Strip(init) + (if IsDigit(last) then "" else [last])
  }

  method StripInstanceDigits(p: string) returns (r: string)
    ensures r == Strip(p)
  {
    r := "";
    var i := 0;
    while i < |p|
      invariant i <= |p| && r == Strip(p[..i])
    {
      if IsDigit(p[i]) {
        while i < |p| && IsDigit(p[i])
          invariant i <= |p| && r == Strip(p[..i])
          decreases |p| - i
        {
          assert p[..i + 1][..i] == p[..i];
          i := i + 1;
        }
      } else {
        assert p[..i + 1][..i] == p[..i];
        r := r + [p[i]];
        i := i + 1;
      }
    }
    assert p[..i] == p;
  }

  lemma {:induction false} StripAppend(a: string, b: string)
    ensures Strip(a + b) == Strip(a) + Strip(b)
  {
    if b == "" {
      assert a + b == a;
    } else {
      StripAppend(a, b[..|b| - 1]);
      assert (a + b)[..|a + b| - 1] == a + b[..|b| - 1];
    }
  }

  predicate NoDigits(s: string) { forall i :: 0 <= i < |s| ==> !IsDigit(s[i]) }

  lemma {:induction false} StripPlain(s: string)
    requires NoDigits(s)
    ensures Strip(s) == s
  {
    if s != "" {
      StripPlain(s[..|s| - 1]);
    }
  }

  /** Exactly the digits go: none is left, nothing is added, and what holds none
      stays. With `StripAppend` this says what is left of every text. */
  lemma {:induction false} StripMeans(p: string)
    ensures NoDigits(Strip(p)) && (forall c :: c in Strip(p) <==> c in p && !IsDigit(c)) && |Strip(p)| <= |p|
  {
    if p != "" {
      StripMeans(p[..|p| - 1]);
      assert p == p[..|p| - 1] + [p[|p| - 1]];
    }
  }

  // ---- Longest suffix -------------------------------------------------------

  /** `p` is the lower-cased path, `norm` the same without digits. */
  predicate Applies(e: Entry, p: string, norm: string) {
    if e.suffix == MAINTENANCE then HasSuffix(norm, MAINTENANCE) && Contains(norm, "maintenance")
    else HasSuffix(norm, e.suffix) || Contains(norm, "." + e.suffix) || HasSuffix(p, e.suffix)
  }

  /** `i` is the entry that decides: it applies, every longer one does not, and
      among the longest it comes first. */
  ghost predicate Decides(es: seq<Entry>, p: string, norm: string, i: nat) {
    && i < |es| && Applies(es[i], p, norm)
    && (forall j :: 0 <= j < |es| && Applies(es[j], p, norm) ==> |es[j].suffix| <= |es[i].suffix|)
    && (forall j :: 0 <= j < i && Applies(es[j], p, norm) ==> |es[j].suffix| < |es[i].suffix|)
  }

  ghost predicate NoneApplies(es: seq<Entry>, p: string, norm: string) {
    forall j :: 0 <= j < |es| ==> !Applies(es[j], p, norm)
  }

  lemma DecidesOnce(es: seq<Entry>, p: string, norm: string, i: nat, j: nat)
    requires Decides(es, p, norm, i) && Decides(es, p, norm, j)
    ensures i == j
  {}

  /** The class of the deciding entry, if there is one. */
  ghost function Verdict(es: seq<Entry>, p: string, norm: string): (r: Option<RiskClass>) {
    if exists i: nat :: Decides(es, p, norm, i) then
      var i: nat :| Decides(es, p, norm, i);
      Some(es[i].class_)
    else None
  }

  /** The risk class of a point path, if it may be written at all. */
  ghost function Classify(path: string): Option<RiskClass> {
    var p := Lower(Ops.TrimSpace(path));
    if p == "" then None else Verdict(ALLOW_LIST, p, Strip(p))
  }

  method LongestSuffix(es: seq<Entry>, p: string, norm: string) returns (r: Option<RiskClass>)
    ensures r == Verdict(es, p, norm)
    ensures r.None? <==> NoneApplies(es, p, norm)
  {
    var best := None;
    ghost var at: nat := 0;
    for i := 0 to |es|
      invariant best.None? ==> NoneApplies(es[..i], p, norm)
      invariant best.Some? ==> at < i && Decides(es[..i], p, norm, at) && best.value == es[at]
    {
      assert es[..i + 1] == es[..i] + [es[i]];
      if Applies(es[i], p, norm) && (best.None? || |es[i].suffix| > |best.value.suffix|) {
        best, at := Some(es[i]), i;
      }
    }
    assert es[..|es|] == es;
    r := if best.None? then None else Some(best.value.class_);
    if best.Some? {
      forall j: nat | Decides(es, p, norm, j) ensures j == at { DecidesOnce(es, p, norm, j, at); }
    }
  }

  method LookupRiskClass(path: string) returns (r: Option<RiskClass>)
    ensures r == Classify(path)
  {
    var p := Lower(Ops.TrimSpace(path));
    if p == "" {
      return None;
    }
    var norm := StripInstanceDigits(p);
    r := LongestSuffix(ALLOW_LIST, p, norm);
  }

  // ---- Instance numbers never change the class ------------------------------

  /** Ending in a suffix without digits survives the stripping of digits. */
  lemma SuffixSurvives(p: string, suffix: string)
    requires NoDigits(suffix) && HasSuffix(p, suffix)
    ensures HasSuffix(Strip(p), suffix)
  {
    var init := p[..|p| - |suffix|];
    assert p == init + suffix;
    StripAppend(init, suffix);
    StripPlain(suffix);
  }

  ghost predicate DigitFree(es: seq<Entry>) { forall i :: 0 <= i < |es| ==> NoDigits(es[i].suffix) }

  lemma AppliesByNorm(e: Entry, p: string, q: string)
    requires NoDigits(e.suffix) && Strip(p) == Strip(q)
    ensures Applies(e, p, Strip(p)) == Applies(e, q, Strip(q))
  {
    if HasSuffix(p, e.suffix) { SuffixSurvives(p, e.suffix); }
    if HasSuffix(q, e.suffix) { SuffixSurvives(q, e.suffix); }
  }

  lemma VerdictByNorm(es: seq<Entry>, p: string, q: string)
    requires DigitFree(es) && Strip(p) == Strip(q)
    ensures Verdict(es, p, Strip(p)) == Verdict(es, q, Strip(q))
  {
    forall j | 0 <= j < |es| ensures Applies(es[j], p, Strip(p)) == Applies(es[j], q, Strip(q)) {
      AppliesByNorm(es[j], p, q);
    }
    assert forall i: nat :: Decides(es, p, Strip(p), i) <==> Decides(es, q, Strip(q), i);
    forall i: nat, j: nat | Decides(es, p, Strip(p), i) && Decides(es, q, Strip(q), j) ensures i == j {
      DecidesOnce(es, p, Strip(p), i, j);
    }
  }

  /** Lower-case letters and dots only. */
  predicate Tidy(s: string) { s != "" && forall i :: 0 <= i < |s| ==> IsLower(s[i]) || s[i] == '.' }

  lemma TidyCooling()
    ensures Tidy("chiller.compressor.status") && Tidy("fws.supply.temp")
    ensures Tidy("cdu.pump.rpm") && Tidy("chiller.valve.opening")
  {}

  lemma TidyPower()
    ensures Tidy("switchgear.breaker.status") && Tidy("bess.pcs.power")
    ensures Tidy("genset.status") && Tidy("ups.status")
  {}

  lemma TidySecondary()
    ensures Tidy("drycooler.fan.rpm") && Tidy("cdu.valve.opening")
    ensures Tidy("tcs.opening") && Tidy("tou.status")
  {}

  lemma TidyCompute()
    ensures Tidy("pdu.status") && Tidy("node.status") && Tidy("gpu.clock") && Tidy(MAINTENANCE)
  {}

  lemma ListTidy()
    ensures forall i :: 0 <= i < |ALLOW_LIST| ==> Tidy(ALLOW_LIST[i].suffix)
  {
    TidyCooling();
    TidyPower();
    TidySecondary();
    TidyCompute();
  }

  lemma ListDigitFree()
    ensures DigitFree(ALLOW_LIST)
  {
    ListTidy();
    forall i | 0 <= i < |ALLOW_LIST| ensures NoDigits(ALLOW_LIST[i].suffix) { assert Tidy(ALLOW_LIST[i].suffix); }
  }

  lemma TidyStays(s: string)
    requires Tidy(s)
    ensures Lower(Ops.TrimSpace(s)) == s && Strip(s) == s
  {
    assert Ops.TrimSpace(s) == s;
    assert Lower(s) == s;
    StripPlain(s);
  }

  /** Every entry but the one for maintenance decides the path it spells. */
  lemma EntryDecides(es: seq<Entry>, i: nat)
    requires i < |es| && es[i].suffix != MAINTENANCE
    requires forall j :: 0 <= j < i ==> es[j].suffix != es[i].suffix
    ensures Decides(es, es[i].suffix, es[i].suffix, i)
  {
    var s := es[i].suffix;
    assert HasSuffix(s, s);
    forall j | 0 <= j < |es| && Applies(es[j], s, s)
      ensures |es[j].suffix| <= |s| && (|es[j].suffix| == |s| ==> es[j].suffix == s)
    {
      if HasSuffix(s, es[j].suffix) {
        assert |es[j].suffix| == |s| ==> s[|s| - |es[j].suffix|..] == s;
      }
    }
  }

  /** So every listed point, written as it is listed, has the class of its entry. */
  lemma Spelled(i: nat)
    requires i < 15
    ensures Classify(ALLOW_LIST[i].suffix) == Some(ALLOW_LIST[i].class_)
  {
    var s := ALLOW_LIST[i].suffix;
    ListTidy();
    TidyStays(s);
    ListDistinct(i);
    EntryRules(ALLOW_LIST, i);
  }

  lemma EntryRules(es: seq<Entry>, i: nat)
    requires i < |es| && es[i].suffix != MAINTENANCE
    requires forall j :: 0 <= j < i ==> es[j].suffix != es[i].suffix
    ensures Verdict(es, es[i].suffix, es[i].suffix) == Some(es[i].class_)
  {
    var s := es[i].suffix;
    EntryDecides(es, i);
    forall j: nat | Decides(es, s, s, j) ensures j == i { DecidesOnce(es, s, s, i, j); }
  }

  lemma ListDistinct(i: nat)
    requires i < 15
    ensures ALLOW_LIST[i].suffix != MAINTENANCE && forall j :: 0 <= j < i ==>
            ALLOW_LIST[j].suffix != ALLOW_LIST[i].suffix
  {}

  ghost predicate EndsIn(s: string, x: string) { exists a :: s == a + x }

  ghost predicate Holds(s: string, x: string) { exists a, b :: s == a + x + b }

  lemma SuffixMeans(s: string, x: string)
    ensures HasSuffix(s, x) <==> EndsIn(s, x)
  {
    if HasSuffix(s, x) {
      assert s == s[..|s| - |x|] + x;
    }
    if EndsIn(s, x) {
      var a :| s == a + x;
      assert s[|s| - |x|..] == x;
    }
  }

  lemma ContainsMeans(s: string, x: string)
    ensures Contains(s, x) <==> Holds(s, x)
  {
    if Contains(s, x) {
      var i :| 0 <= i <= |s| && x <= s[i..];
      assert s[i..] == x + s[i..][|x|..];
      assert s == s[..i] + x + s[i..][|x|..];
    }
    if Holds(s, x) {
      var a, b :| s == a + x + b;
      assert s[|a|..] == x + b && x <= s[|a|..];
    }
  }

  /** Instance numbers aside, an entry applies exactly to the paths that end in it
      or hold it after a dot; the one for maintenance to those that end in it and
      speak of maintenance. */
  lemma AppliesMeans(i: nat, p: string)
    requires i < |ALLOW_LIST|
    ensures var x := ALLOW_LIST[i].suffix;
            Applies(ALLOW_LIST[i], p, Strip(p)) <==>
            if x == MAINTENANCE then EndsIn(Strip(p), x) && Holds(Strip(p), "maintenance")
            else EndsIn(Strip(p), x) || Holds(Strip(p), "." + x)
  {
    var x := ALLOW_LIST[i].suffix;
    ListDigitFree();
    assert NoDigits(x);
    SuffixMeans(Strip(p), x);
    ContainsMeans(Strip(p), "." + x);
    ContainsMeans(Strip(p), "maintenance");
    if HasSuffix(p, x) { SuffixSurvives(p, x); }
  }

  /** A point may be written at all exactly if some entry applies to it. */
  lemma ListedExactly(path: string)
    ensures var p := Lower(Ops.TrimSpace(path));
            Classify(path).Some? <==> p != "" && !NoneApplies(ALLOW_LIST, p, Strip(p))
  {
    var p := Lower(Ops.TrimSpace(path));
    if !NoneApplies(ALLOW_LIST, p, Strip(p)) {
      var i := Longest(ALLOW_LIST, p, Strip(p));
    }
  }

  lemma {:induction false} Longest(es: seq<Entry>, p: string, norm: string) returns (i: nat)
    requires !NoneApplies(es, p, norm)
    ensures Decides(es, p, norm, i)
    decreases |es|
  {
    var init, last := es[..|es| - 1], es[|es| - 1];
    assert es == init + [last];
    if NoneApplies(init, p, norm) {
      i := |es| - 1;
    } else {
      i := Longest(init, p, norm);
      if Applies(last, p, norm) && |last.suffix| > |init[i].suffix| { i := |es| - 1; }
    }
  }

  /** The case of the letters never matters. */
  lemma CaseIrrelevant(path: string, path': string)
    requires Lower(path) == Lower(path')
    ensures Classify(path) == Classify(path')
  {
    TrimLower(path, path');
  }

  lemma LowerParts(s: string)
    requires s != ""
    ensures LowerChar(s[0]) == Lower(s)[0] && LowerChar(s[|s| - 1]) == Lower(s)[|s| - 1]
    ensures Lower(s[1..]) == Lower(s)[1..] && Lower(s[..|s| - 1]) == Lower(s)[..|s| - 1]
  {}

  lemma {:induction false} TrimLower(s: string, t: string)
    requires Lower(s) == Lower(t)
    ensures Lower(Ops.TrimSpace(s)) == Lower(Ops.TrimSpace(t))
    decreases |s|
  {
    if s != "" {
      assert |s| == |Lower(s)| == |t|;
      var n := |s| - 1;
      LowerParts(s);
      LowerParts(t);
      if Ops.IsSpace(s[0]) {
        TrimLower(s[1..], t[1..]);
      } else if Ops.IsSpace(s[n]) {
        TrimLower(s[..n], t[..n]);
      }
    }
  }

  /** Capitals and small letters are told apart by nothing else. */
  lemma LowerMeans(c: char)
    ensures LowerChar('A') == 'a' && LowerChar('Z') == 'z' && LowerChar(LowerChar(c)) == LowerChar(c)
    ensures !('A' <= c <= 'Z') ==> LowerChar(c) == c
    ensures 'A' <= c <= 'Z' ==> LowerChar(c) - 'a' == c - 'A'
  {}

  /** Two paths that differ only in instance numbers need the same approval. */
  lemma InstanceIrrelevant(path: string, path': string)
    requires var p, q := Lower(Ops.TrimSpace(path)), Lower(Ops.TrimSpace(path')); Strip(p) == Strip(q) != ""
    ensures Classify(path) == Classify(path')
  {
    ListDigitFree();
    VerdictByNorm(ALLOW_LIST, Lower(Ops.TrimSpace(path)), Lower(Ops.TrimSpace(path')));
  }
}
