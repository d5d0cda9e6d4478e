/**
 Weighted placement bands (src/placement-v2/placement-v2.engine.ts:92-123). Scores, confidences and evidence counts are
 non-negative; `BigInt` division truncates, which on them is the floor.
 */
module PlacementBands {
  import opened Basics

  datatype Diagnostic = Diagnostic(skill: string, score: nat, confidence: nat, evidence: nat)

  function Weight(m: Diagnostic): nat { m.evidence * m.confidence }

  function Num(ms: seq<Diagnostic>): nat {
    if ms == [] then 0 else Num(ms[..|ms| - 1]) + ms[|ms| - 1].score * Weight(ms[|ms| - 1])
  }

  function Den(ms: seq<Diagnostic>): nat {
    if ms == [] then 0 else Den(ms[..|ms| - 1]) + Weight(ms[|ms| - 1])
  }

  /** `r` is the integer nearest to num / den, the greater of two equally near ones. */
  ghost predicate NearestHalfUp(r: int, num: nat, den: nat) { 2 * num - den < 2 * den * r <= 2 * num + den }

  /** The band of some diagnostics: their weighted mean to the nearest integer, half up; none when nothing has weight. */
  ghost predicate IsBand(band: Option<int>, ms: seq<Diagnostic>) {
    (band.None? <==> Den(ms) == 0) && (band.Some? ==> NearestHalfUp(band.value, Num(ms), Den(ms)))
  }

  lemma LessByFactor(k: nat, a: int, b: int)
    requires k * a < k * b
    ensures a < b
  {
    if a >= b {
      MulMonotone(k, b, a);
    }
  }

  lemma MulMonotone(k: nat, a: int, b: int)
    requires a <= b
    ensures k * a <= k * b
  {
  }

  lemma NearestIsUnique(r: int, q: int, num: nat, den: nat)
    requires den > 0 && NearestHalfUp(r, num, den) && NearestHalfUp(q, num, den)
    ensures r == q
  {
    assert 2 * den * (q + 1) == 2 * den * q + 2 * den && 2 * den * (r + 1) == 2 * den * r + 2 * den;
    LessByFactor(2 * den, r, q + 1);
    LessByFactor(2 * den, q, r + 1);
  }

  /** Bounds of the shifted quotient bound its nearest integer. */
  lemma NearestWithin(r: int, num: nat, den: nat, lo: nat, hi: nat)
    requires den > 0 && NearestHalfUp(r, num, den)
    requires 2 * den * lo <= 2 * num + den < 2 * den * (hi + 1)
    ensures lo <= r <= hi
  {
    assert 2 * den * (r + 1) == 2 * den * r + 2 * den;
    LessByFactor(2 * den, lo, r + 1);
    LessByFactor(2 * den, r, hi + 1);
  }

  lemma FloorBounds(n: nat, d: nat)
    requires d > 0
    ensures d * (n / d) <= n < d * (n / d) + d
  {
  }

  method WeightedBand(ms: seq<Diagnostic>) returns (band: Option<int>)
    ensures IsBand(band, ms)
  {
    var num, den := 0, 0;
    for i := 0 to |ms|
      invariant num == Num(ms[..i]) && den == Den(ms[..i])
    {
      assert ms[..i + 1][..i] == ms[..i];
      var w := ms[i].evidence * ms[i].confidence;
      num := num + ms[i].score * w;
      den := den + w;
    }
    assert ms[..|ms|] == ms;
    if den == 0 {
      return None;
    }
    FloorBounds(2 * num + den, 2 * den);
    var r := (2 * num + den) / (2 * den);
    assert 2 * den * r <= 2 * num + den < 2 * den * r + 2 * den;
    band := Some(r);
  }

  // ---- between the scores ----

  /** Lower and upper bounds of the positively weighted scores bound the mean. */
  lemma {:induction false} MeanBetween(ms: seq<Diagnostic>, lo: nat, hi: nat)
    requires forall i :: 0 <= i < |ms| && Weight(ms[i]) > 0 ==> lo <= ms[i].score <= hi
    ensures lo * Den(ms) <= Num(ms) <= hi * Den(ms)
  {
    hide Weight;
    if ms != [] {
      var rest, last := ms[..|ms| - 1], ms[|ms| - 1];
      MeanBetween(rest, lo, hi);
      OneMoreTerm(Num(rest), Den(rest), last.score, Weight(last), lo, hi);
    }
  }

  lemma OneMoreTerm(n: nat, d: nat, score: nat, w: nat, lo: nat, hi: nat)
    requires lo * d <= n <= hi * d && (w > 0 ==> lo <= score <= hi)
    ensures lo * (d + w) <= n + score * w <= hi * (d + w)
  {
    if w > 0 {
      MulMonotone(w, lo, score);
      MulMonotone(w, score, hi);
    }
    assert lo * (d + w) == lo * d + w * lo && hi * (d + w) == hi * d + w * hi && score * w == w * score;
  }

  lemma Doubled(n: nat, d: nat, lo: nat, hi: nat)
    requires d > 0 && lo * d <= n <= hi * d
    ensures 2 * d * lo <= 2 * n + d < 2 * d * (hi + 1)
  {
    assert 2 * d * lo == 2 * (lo * d) && 2 * d * (hi + 1) == 2 * (hi * d) + 2 * d;
  }

  /** A band lies between the least and the greatest positively weighted score. */
  lemma BandBetweenScores(ms: seq<Diagnostic>, band: Option<int>, lo: nat, hi: nat)
    requires IsBand(band, ms)
    requires forall i :: 0 <= i < |ms| && Weight(ms[i]) > 0 ==> lo <= ms[i].score <= hi
    ensures band.Some? ==> lo <= band.value <= hi
  {
    MeanBetween(ms, lo, hi);
    var n, d := Num(ms), Den(ms);
    hide Num, Den, Weight, NearestHalfUp;
    if band.Some? {
      Doubled(n, d, lo, hi);
      NearestWithin(band.value, n, d, lo, hi);
    }
  }

  // ---- independence of order ----

  function RemoveAt(ms: seq<Diagnostic>, i: nat): seq<Diagnostic>
    requires i < |ms|
  {
    ms[..i] + ms[i + 1..]
  }

  lemma {:induction false} SumsWithout(ms: seq<Diagnostic>, i: nat)
    requires i < |ms|
    ensures Num(ms) == Num(RemoveAt(ms, i)) + ms[i].score * Weight(ms[i])
    ensures Den(ms) == Den(RemoveAt(ms, i)) + Weight(ms[i])
  {
    var rest, without := ms[..|ms| - 1], RemoveAt(ms, i);
    if i == |ms| - 1 {
      assert without == rest;
    } else {
      SumsWithout(rest, i);
      assert without[..|without| - 1] == RemoveAt(rest, i) && without[|without| - 1] == ms[|ms| - 1];
    }
  }

  lemma WithoutLast(a: seq<Diagnostic>, b: seq<Diagnostic>) returns (i: nat)
    requires multiset(a) == multiset(b) && |a| > 0
    ensures i < |b| && b[i] == a[|a| - 1] && multiset(a[..|a| - 1]) == multiset(RemoveAt(b, i))
  {
    var last := a[|a| - 1];
    assert last in multiset(a);
    i :| 0 <= i < |b| && b[i] == last;
    assert a == a[..|a| - 1] + [last];
    assert b == b[..i] + [last] + b[i + 1..];
    assert multiset(a[..|a| - 1]) == multiset(a) - multiset{last};
    assert multiset(RemoveAt(b, i)) == multiset(b) - multiset{last};
  }

  lemma {:induction false} SumsIgnoreOrder(a: seq<Diagnostic>, b: seq<Diagnostic>)
    requires multiset(a) == multiset(b)
    ensures Num(a) == Num(b) && Den(a) == Den(b)
  {
    hide RemoveAt, Weight;
    if |a| == 0 {
      assert |multiset(b)| == 0;
    } else {
      var i := WithoutLast(a, b);
      SumsIgnoreOrder(a[..|a| - 1], RemoveAt(b, i));
      SumsWithout(b, i);
    }
  }

  /** A band is determined by the diagnostics, whatever their order. */
  lemma BandIgnoresOrder(a: seq<Diagnostic>, b: seq<Diagnostic>, band: Option<int>, other: Option<int>)
    requires multiset(a) == multiset(b) && IsBand(band, a) && IsBand(other, b)
    ensures band == other
  {
    SumsIgnoreOrder(a, b);
    hide NearestHalfUp, Num, Den;
    if band.Some? {
      NearestIsUnique(band.value, other.value, Num(a), Den(a));
    }
  }

  // ---- domain bands ----

  predicate Measured(m: Diagnostic, minEvidence: nat) { m.evidence >= minEvidence }

  predicate InDomain(domains: map<string, string>, m: Diagnostic, d: string) {
    m.skill in domains && domains[m.skill] == d
  }

  function WithEvidence(ms: seq<Diagnostic>, minEvidence: nat): seq<Diagnostic> {
    if ms == [] then []
    else WithEvidence(ms[..|ms| - 1], minEvidence) + if Measured(ms[|ms| - 1], minEvidence) then [ms[|ms| - 1]] else []
  }

  function Group(ms: seq<Diagnostic>, domains: map<string, string>, d: string): seq<Diagnostic> {
    if ms == [] then []
    else Group(ms[..|ms| - 1], domains, d) + if InDomain(domains, ms[|ms| - 1], d) then [ms[|ms| - 1]] else []
  }

  function Others(ms: seq<Diagnostic>, domains: map<string, string>, d: string): seq<Diagnostic> {
    if ms == [] then []
    else Others(ms[..|ms| - 1], domains, d) + if InDomain(domains, ms[|ms| - 1], d) then [] else [ms[|ms| - 1]]
  }

  datatype DomainBand = DomainBand(domain: string, band: Option<int>, skillCount: nat)

  method Filter(ms: seq<Diagnostic>, minEvidence: nat) returns (kept: seq<Diagnostic>)
    ensures kept == WithEvidence(ms, minEvidence)
  {
    kept := [];
    for i := 0 to |ms|
      invariant kept == WithEvidence(ms[..i], minEvidence)
    {
      assert ms[..i + 1][..i] == ms[..i];
      if ms[i].evidence >= minEvidence {
        kept := kept + [ms[i]];
      }
    }
    assert ms[..|ms|] == ms;
  }

  /** The diagnostics of each domain, in order; a skill without a domain is in none. */
  method GroupByDomain(ms: seq<Diagnostic>, domains: map<string, string>) returns (groups: map<string, seq<Diagnostic>>)
    ensures forall d :: d != "" ==> (if d in groups then groups[d] else []) == Group(ms, domains, d)
  {
    groups := map[];
    for i := 0 to |ms|
      invariant forall d :: d != "" ==> (if d in groups then groups[d] else []) == Group(ms[..i], domains, d)
    {
      assert ms[..i + 1][..i] == ms[..i];
      if ms[i].skill in domains && domains[ms[i].skill] != "" {
        var d := domains[ms[i].skill];
        groups := groups[d := (if d in groups then groups[d] else []) + [ms[i]]];
      }
    }
    assert ms[..|ms|] == ms;
  }

  /** One band per listed domain, over the diagnostics of that domain with enough evidence. */
  method DomainBands(codes: seq<string>, domains: map<string, string>, ms: seq<Diagnostic>, minEvidence: nat)
    returns (bands: seq<DomainBand>)
    requires forall c :: c in codes ==> c != ""
    ensures |bands| == |codes|
    ensures forall i :: 0 <= i < |codes| ==>
              var group := Group(WithEvidence(ms, minEvidence), domains, codes[i]);
              bands[i].domain == codes[i] && bands[i].skillCount == |group| && IsBand(bands[i].band, group)
  {
    hide IsBand, Group;
    var kept := Filter(ms, minEvidence);
    var groups := GroupByDomain(kept, domains);
    bands := [];
    for i := 0 to |codes|
      invariant |bands| == i
      invariant forall j :: 0 <= j < i ==>
                  var group := Group(kept, domains, codes[j]);
                  bands[j].domain == codes[j] && bands[j].skillCount == |group| && IsBand(bands[j].band, group)
    {
      assert codes[i] in codes;
      var group := if codes[i] in groups then groups[codes[i]] else [];
      assert group == Group(kept, domains, codes[i]);
      var band := WeightedBand(group);
      bands := bands + [DomainBand(codes[i], band, |group|)];
    }
  }

  method OverallBand(ms: seq<Diagnostic>, minEvidence: nat) returns (band: Option<int>)
    ensures IsBand(band, WithEvidence(ms, minEvidence))
  {
    var kept := Filter(ms, minEvidence);
    band := WeightedBand(kept);
  }

  // ---- the overall band lies between the domain bands ----

  lemma SumsMore(ms: seq<Diagnostic>, m: Diagnostic)
    ensures Num(ms + [m]) == Num(ms) + m.score * Weight(m) && Den(ms + [m]) == Den(ms) + Weight(m)
  {
    assert (ms + [m])[..|ms|] == ms;
  }

  lemma {:induction false} SumsSplit(ms: seq<Diagnostic>, domains: map<string, string>, d: string)
    ensures Num(ms) == Num(Group(ms, domains, d)) + Num(Others(ms, domains, d))
    ensures Den(ms) == Den(Group(ms, domains, d)) + Den(Others(ms, domains, d))
  {
    if ms != [] {
      var rest, last := ms[..|ms| - 1], ms[|ms| - 1];
      hide InDomain, Weight, Num, Den;
      SumsSplit(rest, domains, d);
      var g, o := Group(rest, domains, d), Others(rest, domains, d);
      SumsMore(rest, last);
      assert rest + [last] == ms;
      var inside := InDomain(domains, last, d);
      assert Group(ms, domains, d) == if inside then g + [last] else g;
      assert Others(ms, domains, d) == if inside then o else o + [last];
      hide Group, Others;
      if inside {
        SumsMore(g, last);
      } else {
        SumsMore(o, last);
      }
    }
  }

  lemma {:induction false} GroupOfOthers(ms: seq<Diagnostic>, domains: map<string, string>, d: string, e: string)
    ensures Group(Others(ms, domains, d), domains, e) == if e == d then [] else Group(ms, domains, e)
  {
    if ms != [] {
      var rest, last := ms[..|ms| - 1], ms[|ms| - 1];
      GroupOfOthers(rest, domains, d, e);
      var o := Others(rest, domains, d);
      assert (o + [last])[..|o|] == o;
      assert o + [] == o;
    }
  }

  lemma {:induction false} OthersIn(ms: seq<Diagnostic>, domains: map<string, string>, d: string)
    ensures forall m :: m in Others(ms, domains, d) ==> m in ms && !InDomain(domains, m, d)
  {
    if ms != [] {
      OthersIn(ms[..|ms| - 1], domains, d);
    }
  }

  ghost predicate AllListed(ms: seq<Diagnostic>, domains: map<string, string>, codes: seq<string>) {
    forall m :: m in ms ==> m.skill in domains && domains[m.skill] in codes
  }

  /** The band of `g`, when it has one, is at least `lo`; in whole numbers. */
  ghost predicate AtLeast(g: seq<Diagnostic>, lo: nat) { 2 * Den(g) * lo <= 2 * Num(g) + Den(g) }

  ghost predicate AtMost(g: seq<Diagnostic>, hi: nat) { Den(g) > 0 ==> 2 * Num(g) + Den(g) < 2 * Den(g) * (hi + 1) }

  ghost predicate GroupFits(ms: seq<Diagnostic>, domains: map<string, string>, d: string, lo: nat, hi: nat) {
    AtLeast(Group(ms, domains, d), lo) && AtMost(Group(ms, domains, d), hi)
  }

  lemma EmptyFits(lo: nat, hi: nat)
    ensures AtLeast([], lo) && AtMost([], hi)
  {
  }

  lemma {:induction false} GroupsBound(ms: seq<Diagnostic>, domains: map<string, string>, codes: seq<string>, lo: nat, hi: nat)
    requires AllListed(ms, domains, codes)
    requires forall c :: c in codes ==> GroupFits(ms, domains, c, lo, hi)
    ensures AtLeast(ms, lo) && AtMost(ms, hi)
    decreases |codes|
  {
    hide AtLeast, AtMost, Group, Others;
    if |codes| == 0 {
      if |ms| > 0 {
        SomeMember(ms);
      }
      EmptyFits(lo, hi);
    } else {
      var c := codes[0];
      assert c in codes;
      RestFits(ms, domains, codes, lo, hi);
      GroupsBound(Others(ms, domains, c), domains, codes[1..], lo, hi);
      Combine(ms, domains, c, lo, hi);
    }
  }

  /** Setting one domain aside leaves the others as they were. */
  lemma RestFits(ms: seq<Diagnostic>, domains: map<string, string>, codes: seq<string>, lo: nat, hi: nat)
    requires |codes| > 0 && AllListed(ms, domains, codes)
    requires forall c :: c in codes ==> GroupFits(ms, domains, c, lo, hi)
    ensures AllListed(Others(ms, domains, codes[0]), domains, codes[1..])
    ensures forall e :: e in codes[1..] ==> GroupFits(Others(ms, domains, codes[0]), domains, e, lo, hi)
  {
    hide AtLeast, AtMost, Group, Others;
    var c, others := codes[0], Others(ms, domains, codes[0]);
    OthersIn(ms, domains, c);
    EmptyFits(lo, hi);
    assert codes == [c] + codes[1..];
    assert AllListed(others, domains, codes[1..]);
    forall e | e in codes[1..] ensures GroupFits(others, domains, e, lo, hi) {
      GroupOfOthers(ms, domains, c, e);
      assert e in codes;
    }
  }

  lemma SomeMember(ms: seq<Diagnostic>)
    requires |ms| > 0
    ensures exists m :: m in ms
  {
    assert ms[0] in ms;
  }

  lemma Combine(ms: seq<Diagnostic>, domains: map<string, string>, d: string, lo: nat, hi: nat)
    requires GroupFits(ms, domains, d, lo, hi)
    requires AtLeast(Others(ms, domains, d), lo) && AtMost(Others(ms, domains, d), hi)
    ensures AtLeast(ms, lo) && AtMost(ms, hi)
  {
    var g, o := Group(ms, domains, d), Others(ms, domains, d);
    SumsSplit(ms, domains, d);
    NoWeightNoNum(g);
    NoWeightNoNum(o);
    hide Num, Den, Group, Others;
    Add(Num(g), Den(g), Num(o), Den(o), lo, hi);
  }

  lemma Distribute(a: nat, b: nat, k: nat)
    ensures 2 * (a + b) * k == 2 * a * k + 2 * b * k
  {
  }

  lemma Add(n: nat, d: nat, n': nat, d': nat, lo: nat, hi: nat)
    requires 2 * d * lo <= 2 * n + d && 2 * d' * lo <= 2 * n' + d'
    requires (d > 0 ==> 2 * n + d < 2 * d * (hi + 1)) && (d' > 0 ==> 2 * n' + d' < 2 * d' * (hi + 1))
    requires (d == 0 ==> n == 0) && (d' == 0 ==> n' == 0)
    ensures 2 * (d + d') * lo <= 2 * (n + n') + (d + d')
    ensures d + d' > 0 ==> 2 * (n + n') + (d + d') < 2 * (d + d') * (hi + 1)
  {
    Distribute(d, d', lo);
    Distribute(d, d', hi + 1);
  }

  /** A band that exists bounds its group from both sides. */
  lemma BandBounds(g: seq<Diagnostic>, band: Option<int>, lo: nat, hi: nat)
    requires IsBand(band, g) && (band.Some? ==> lo <= band.value <= hi)
    ensures AtLeast(g, lo) && AtMost(g, hi)
  {
    NoWeightNoNum(g);
    hide Num, Den, NearestHalfUp;
    if band.Some? {
      NearestBounds(band.value, Num(g), Den(g), lo, hi);
    }
  }

  lemma NearestBounds(r: int, num: nat, den: nat, lo: nat, hi: nat)
    requires NearestHalfUp(r, num, den) && lo <= r <= hi
    ensures 2 * den * lo <= 2 * num + den < 2 * den * (hi + 1)
  {
    MulMonotone(2 * den, lo, r);
    MulMonotone(2 * den, r + 1, hi + 1);
    assert 2 * den * (r + 1) == 2 * den * r + 2 * den;
  }

  lemma {:induction false} NoWeightNoNum(ms: seq<Diagnostic>)
    ensures Den(ms) == 0 ==> Num(ms) == 0
  {
    if ms != [] {
      NoWeightNoNum(ms[..|ms| - 1]);
    }
  }

  /**
   When every skill with evidence has a listed domain, the overall band lies between the least and the greatest of the
   measured domain bands.
   */
  lemma OverallBetweenDomains(codes: seq<string>, domains: map<string, string>, ms: seq<Diagnostic>, minEvidence: nat,
                              bands: seq<Option<int>>, overall: Option<int>, lo: nat, hi: nat)
    requires AllListed(WithEvidence(ms, minEvidence), domains, codes) && IsBand(overall, WithEvidence(ms, minEvidence))
    requires |bands| == |codes|
    requires forall i :: 0 <= i < |codes| ==>
               IsBand(bands[i], Group(WithEvidence(ms, minEvidence), domains, codes[i]))
               && (bands[i].Some? ==> lo <= bands[i].value <= hi)
    ensures overall.Some? ==> lo <= overall.value <= hi
  {
    var kept := WithEvidence(ms, minEvidence);
    hide IsBand, AtLeast, AtMost, Group, Num, Den, NearestHalfUp, AllListed;
    forall c | c in codes ensures GroupFits(kept, domains, c, lo, hi) {
      var i :| 0 <= i < |codes| && codes[i] == c;
      BandBounds(Group(kept, domains, c), bands[i], lo, hi);
    }
    GroupsBound(kept, domains, codes, lo, hi);
    OverallWithin(kept, overall, lo, hi);
  }

  lemma OverallWithin(ms: seq<Diagnostic>, band: Option<int>, lo: nat, hi: nat)
    requires IsBand(band, ms) && AtLeast(ms, lo) && AtMost(ms, hi)
    ensures band.Some? ==> lo <= band.value <= hi
  {
    hide Num, Den, NearestHalfUp;
    if band.Some? {
      NearestWithin(band.value, Num(ms), Den(ms), lo, hi);
    }
  }
}
