/**
 * The plugin catalog and its generation from release records (internal/plugins/catalog.go and
 * publication.go). The syntax of ids, names, contract constraints, URLs and checksums is a parameter.
 */
module Catalog {
  import opened Options
  import opened VersionOrder

  datatype Terms = Terms(platforms: seq<string>, backend: string, frontend: string, abi: int)

  datatype Release = Release(version: string, terms: Terms, url: string, sha256: string)

  datatype Entry = Entry(id: string, name: string, description: string, latest: string, versions: seq<Release>)

  datatype Record = Record(schema: int, plugin: Entry)

  datatype Checks = Checks(
    parse: Parser, id: string -> bool, blank: string -> bool, terms: Terms -> bool,
    url: string -> bool, checksum: string -> bool)

  /** The empty string is no version: the running maximum of Validate starts from it. */
  predicate Sane(k: Checks) {
    k.parse("").None?
  }

  // ---- sequences -----------------------------------------------------------------------------

  predicate Distinct<T, K(==)>(s: seq<T>, key: T -> K) {
    forall i, j :: 0 <= i < j < |s| ==> key(s[i]) != key(s[j])
  }

  lemma Twice<T>(s: seq<T>, i: nat, j: nat)
    requires i < j < |s| && s[i] == s[j]
    ensures multiset(s)[s[i]] >= 2
  {
    assert s == s[..i] + [s[i]] + s[i + 1..j] + [s[j]] + s[j + 1..];
  }

  lemma TwoOf<T>(s: seq<T>, x: T) returns (i: nat, j: nat)
    requires multiset(s)[x] >= 2
    ensures i < j < |s| && s[i] == x == s[j]
  {
    i :| i < |s| && s[i] == x;
    var rest := s[..i] + s[i + 1..];
    assert s == s[..i] + [x] + s[i + 1..];
    assert multiset(s) == multiset(rest) + multiset{x};
    assert x in rest;
    var m: nat :| m < |rest| && rest[m] == x;
    if m < i {
      i, j := m, i;
    } else {
      j := m + 1;
    }
  }

  /** Having distinct keys does not depend on the order. */
  lemma DistinctPermuted<T, K>(s: seq<T>, t: seq<T>, key: T -> K)
    requires multiset(s) == multiset(t) && Distinct(s, key)
    ensures Distinct(t, key)
  {
    forall i, j | 0 <= i < j < |t|
      ensures key(t[i]) != key(t[j])
    {
      assert t[i] in multiset(s) && t[j] in multiset(s);
      if t[i] == t[j] {
        Twice(t, i, j);
        var a, b := TwoOf(s, t[i]);
      }
    }
  }

  predicate Ascending<T>(s: seq<T>, less: (T, T) -> bool) {
    forall i, j :: 0 <= i < j < |s| ==> less(s[i], s[j])
  }

  lemma FirstIsLeast<T>(s: seq<T>, x: T, less: (T, T) -> bool)
    requires Ascending(s, less) && x in s
    ensures x == s[0] || less(s[0], x)
  {
  }

  /** A strictly ascending sequence is determined by its members. */
  lemma {:induction false} AscendingUnique<T>(a: seq<T>, b: seq<T>, less: (T, T) -> bool)
    requires forall x, y :: x in a && y in a ==> !(less(x, y) && less(y, x))
    requires Ascending(a, less) && Ascending(b, less)
    requires forall x :: x in a <==> x in b
    ensures a == b
  {
    assert |b| > 0 ==> b[0] in b && b[0] in a;
    if a != [] {
      assert a[0] in b;
      FirstIsLeast(a, b[0], less);
      FirstIsLeast(b, a[0], less);
      assert a == [a[0]] + a[1..] && b == [b[0]] + b[1..];
      forall x
        ensures x in a[1..] <==> x in b[1..]
      {
        assert x in a[1..] ==> less(a[0], x);
        assert x in b[1..] ==> less(b[0], x);
        assert x in a <==> x in b;
      }
      AscendingUnique(a[1..], b[1..], less);
    }
  }

  ghost predicate Orders<T(!new)>(less: (T, T) -> bool, s: seq<T>) {
    && (forall x, y :: x in s && y in s ==> !(less(x, y) && less(y, x)))
    && (forall x, y, z :: x in s && y in s && z in s && !less(y, x) && !less(z, y) ==> !less(z, x))
  }

  predicate Sorted<T>(s: seq<T>, less: (T, T) -> bool) {
    forall i, j :: 0 <= i < j < |s| ==> !less(s[j], s[i])
  }

  lemma InsertSorted<T(!new)>(s: seq<T>, r: seq<T>, x: T, i: nat, less: (T, T) -> bool)
    requires Orders(less, s) && Sorted(r, less) && x in s && i <= |r|
    requires forall m :: 0 <= m < |r| ==> r[m] in s
    requires forall m :: i <= m < |r| ==> less(x, r[m])
    requires i == 0 || !less(x, r[i - 1])
    ensures Sorted(r[..i] + [x] + r[i..], less)
  {
    var t := r[..i] + [x] + r[i..];
    forall a, b | 0 <= a < b < |t|
      ensures !less(t[b], t[a])
    {
      if b == i {
        assert t[a] == r[a];
        assert a < i - 1 ==> !less(r[i - 1], r[a]);
      } else if a == i {
        assert t[b] == r[b - 1];
      }
    }
  }

  method Insert<T(!new)>(ghost s: seq<T>, r: seq<T>, x: T, less: (T, T) -> bool) returns (t: seq<T>)
    requires Orders(less, s) ==> Sorted(r, less)
    requires x in s && forall m :: 0 <= m < |r| ==> r[m] in s
    ensures multiset(t) == multiset(r) + multiset{x}
    ensures Orders(less, s) ==> Sorted(t, less)
  {
    var i := |r|;
    while 0 < i && less(x, r[i - 1])
      invariant 0 <= i <= |r|
      invariant forall m :: i <= m < |r| ==> less(x, r[m])
    {
      i := i - 1;
    }
    t := r[..i] + [x] + r[i..];
    assert r == r[..i] + r[i..];
    if Orders(less, s) {
      InsertSorted(s, r, x, i, less);
    }
  }

  /** sort.Slice: some permutation; in order if `less` orders the elements at all. */
  method SortSlice<T(!new)>(s: seq<T>, less: (T, T) -> bool) returns (r: seq<T>)
    ensures multiset(r) == multiset(s)
    ensures Orders(less, s) ==> Sorted(r, less)
  {
    r := [];
    assert Sorted(r, less);
    hide Orders, Sorted;
    for n := 0 to |s|
      invariant multiset(r) == multiset(s[..n])
      invariant Orders(less, s) ==> Sorted(r, less)
    {
      forall m | 0 <= m < |r|
        ensures r[m] in s
      {
        assert r[m] in multiset(s[..n]);
      }
      r := Insert(s, r, s[n], less);
      assert s[..n + 1] == s[..n] + [s[n]];
    }
    assert s[..|s|] == s;
  }

  // ---- validation ----------------------------------------------------------------------------

  function VersionOf(v: Release): string {
    v.version
  }

  function IdOf(p: Entry): string {
    p.id
  }

  predicate ReleaseOk(k: Checks, v: Release) {
    k.parse(v.version).Some? && k.terms(v.terms) && k.url(v.url) && k.checksum(v.sha256)
  }

  /** `latest` is one of the versions, and none comes after it. */
  predicate IsLatest(k: Checks, latest: string, versions: seq<Release>) {
    && (exists i :: 0 <= i < |versions| && versions[i].version == latest)
    && (forall i :: 0 <= i < |versions| ==> !Before(k.parse, latest, versions[i].version))
  }

  predicate EntryOk(k: Checks, p: Entry) {
    && k.id(p.id) && !k.blank(p.name) && p.versions != []
    && (forall v :: v in p.versions ==> ReleaseOk(k, v))
    && Distinct(p.versions, VersionOf)
    && IsLatest(k, p.latest, p.versions)
  }

  predicate Valid(k: Checks, plugins: seq<Entry>) {
    && (forall p :: p in plugins ==> EntryOk(k, p))
    && Distinct(plugins, IdOf)
  }

  /** The running maximum moves to the next version exactly if that one is later. */
  lemma LatestOfMore(k: Checks, latest: string, versions: seq<Release>, v: Release)
    requires Sane(k) && k.parse(v.version).Some?
    requires forall w :: w in versions ==> k.parse(w.version).Some?
    requires if versions == [] then latest == "" else IsLatest(k, latest, versions)
    ensures IsLatest(k, if latest == "" || Before(k.parse, latest, v.version) then v.version else latest,
                     versions + [v])
  {
    hide Before;
    var s := versions + [v];
    BeforeIsStrictTotal(k.parse, v.version, v.version, v.version);
    assert s[|versions|] == v;
    if versions != [] {
      var m :| 0 <= m < |versions| && versions[m].version == latest;
      assert s[m] == versions[m] && versions[m] in versions;
      forall i | 0 <= i < |s| && Before(k.parse, latest, v.version)
        ensures !Before(k.parse, v.version, s[i].version)
      {
        if i < |versions| {
          assert s[i] == versions[i] && versions[i] in versions;
          BeforeIsStrictTotal(k.parse, latest, v.version, s[i].version);
        }
      }
    }
  }

  lemma LatestUnique(k: Checks, a: string, b: string, versions: seq<Release>)
    requires forall v :: v in versions ==> k.parse(v.version).Some?
    requires IsLatest(k, a, versions) && IsLatest(k, b, versions)
    ensures a == b
  {
    var i :| 0 <= i < |versions| && versions[i].version == a;
    var j :| 0 <= j < |versions| && versions[j].version == b;
    assert versions[i] in versions && versions[j] in versions;
    BeforeIsStrictTotal(k.parse, a, b, a);
  }

  method ValidateEntry(k: Checks, p: Entry) returns (ok: bool)
    requires Sane(k)
    ensures ok <==> EntryOk(k, p)
  {
    hide Before, IsLatest;
    if !k.id(p.id) || k.blank(p.name) || p.versions == [] {
      return false;
    }
    var seen, latest := {}, "";
    for n := 0 to |p.versions|
      invariant forall i :: 0 <= i < n ==> ReleaseOk(k, p.versions[i])
      invariant seen == set i | 0 <= i < n :: p.versions[i].version
      invariant Distinct(p.versions[..n], VersionOf)
      invariant if n == 0 then latest == "" else IsLatest(k, latest, p.versions[..n])
    {
      var v := p.versions[n];
      assert v in p.versions;
      if k.parse(v.version).None? || !k.terms(v.terms) {
        return false;
      }
      if v.version in seen {
        var i :| 0 <= i < n && p.versions[i].version == v.version;
        assert VersionOf(p.versions[i]) == VersionOf(p.versions[n]);
        return false;
      }
      seen := seen + {v.version};
      if !k.url(v.url) || !k.checksum(v.sha256) {
        return false;
      }
      assert p.versions[..n + 1] == p.versions[..n] + [v];
      LatestOfMore(k, latest, p.versions[..n], v);
      if latest == "" || Before(k.parse, latest, v.version) {
        latest := v.version;
      }
    }
    assert p.versions[..|p.versions|] == p.versions;
    if IsLatest(k, p.latest, p.versions) {
      LatestUnique(k, p.latest, latest, p.versions);
    }
    return p.latest == latest;
  }

  /** A catalog document; its array of plugins may be missing. */
  datatype Document = Document(schema: int, plugins: Option<seq<Entry>>)

  predicate ValidDocument(k: Checks, c: Document) {
    c.schema == 1 && c.plugins.Some? && Valid(k, c.plugins.value)
  }

  method Validate(k: Checks, c: Document) returns (ok: bool)
    requires Sane(k)
    ensures ok <==> ValidDocument(k, c)
  {
    hide EntryOk;
    if c.schema != 1 || c.plugins.None? {
      return false;
    }
    var plugins := c.plugins.value;
    var ids := {};
    for n := 0 to |plugins|
      invariant forall i :: 0 <= i < n ==> EntryOk(k, plugins[i])
      invariant ids == set i | 0 <= i < n :: plugins[i].id
      invariant Distinct(plugins[..n], IdOf)
    {
      assert plugins[n] in plugins;
      ok := ValidateEntry(k, plugins[n]);
      if !ok {
        return;
      }
      if plugins[n].id in ids {
        var i :| 0 <= i < n && plugins[i].id == plugins[n].id;
        assert IdOf(plugins[i]) == IdOf(plugins[n]);
        return false;
      }
      ids := ids + {plugins[n].id};
      assert plugins[..n + 1] == plugins[..n] + [plugins[n]];
    }
    assert plugins[..|plugins|] == plugins;
    return true;
  }

  // ---- sorting -------------------------------------------------------------------------------

  function ById(): (Entry, Entry) -> bool {
    (a: Entry, b: Entry) => StringBefore(a.id, b.id)
  }

  function LatestFirst(k: Checks): (Release, Release) -> bool {
    (a: Release, b: Release) => Before(k.parse, b.version, a.version)
  }

  predicate Versions(k: Checks, versions: seq<Release>) {
    forall v :: v in versions ==> k.parse(v.version).Some?
  }

  lemma ByIdOrders(s: seq<Entry>)
    ensures Orders(ById(), s)
  {
    forall x, y | x in s && y in s
      ensures !(ById()(x, y) && ById()(y, x))
    {
      StringIrreflexive(x.id);
      StringOrderLaws(x.id, y.id, x.id);
    }
    forall x, y, z | x in s && y in s && z in s && !ById()(y, x) && !ById()(z, y)
      ensures !ById()(z, x)
    {
      StringOrderLaws(z.id, x.id, y.id);
      StringOrderLaws(x.id, y.id, z.id);
      StringOrderLaws(y.id, z.id, x.id);
    }
  }

  lemma LatestFirstOrders(k: Checks, s: seq<Release>)
    requires Versions(k, s)
    ensures Orders(LatestFirst(k), s)
  {
    hide Before;
    forall x, y | x in s && y in s
      ensures !(LatestFirst(k)(x, y) && LatestFirst(k)(y, x))
    {
      BeforeIsStrictTotal(k.parse, x.version, y.version, x.version);
    }
    forall x, y, z | x in s && y in s && z in s && !LatestFirst(k)(y, x) && !LatestFirst(k)(z, y)
      ensures !LatestFirst(k)(z, x)
    {
      BeforeIsStrictTotal(k.parse, x.version, y.version, z.version);
      BeforeIsStrictTotal(k.parse, y.version, z.version, x.version);
      BeforeIsStrictTotal(k.parse, x.version, z.version, y.version);
    }
  }

  /** What sorting does to one entry. */
  ghost predicate Arranged(k: Checks, q: Entry, p: Entry) {
    && p == q.(versions := p.versions, latest := p.latest)
    && multiset(p.versions) == multiset(q.versions)
    && (Versions(k, q.versions) ==> Sorted(p.versions, LatestFirst(k)))
    && p.latest == if p.versions == [] then q.latest else p.versions[0].version
  }

  ghost predicate ArrangedAll(k: Checks, mid: seq<Entry>, r: seq<Entry>) {
    && Sorted(mid, ById())
    && |r| == |mid| && forall i :: 0 <= i < |r| ==> Arranged(k, mid[i], r[i])
  }

  /** The entries in the order of their ids, each with its versions sorted. */
  ghost predicate SortsTo(k: Checks, plugins: seq<Entry>, r: seq<Entry>) {
    exists mid :: multiset(mid) == multiset(plugins) && ArrangedAll(k, mid, r)
  }

  method Sort(k: Checks, plugins: seq<Entry>) returns (r: seq<Entry>)
    ensures SortsTo(k, plugins, r)
  {
    hide Sorted, Orders;
    r := SortSlice(plugins, ById());
    ByIdOrders(plugins);
    ghost var mid := r;
    for n := 0 to |r|
      invariant |r| == |mid|
      invariant forall i :: n <= i < |r| ==> r[i] == mid[i]
      invariant forall i :: 0 <= i < n ==> Arranged(k, mid[i], r[i])
    {
      var versions := SortSlice(r[n].versions, LatestFirst(k));
      if Versions(k, r[n].versions) {
        LatestFirstOrders(k, r[n].versions);
      }
      var p := r[n].(versions := versions);
      if versions != [] {
        p := p.(latest := versions[0].version);
      }
      r := r[n := p];
    }
    assert multiset(mid) == multiset(plugins) && ArrangedAll(k, mid, r);
  }

  // ---- generation ----------------------------------------------------------------------------

  predicate RecordOk(k: Checks, r: Record) {
    r.schema == 1 && |r.plugin.versions| == 1 && EntryOk(k, r.plugin)
  }

  /** What a record is about. */
  function Key(r: Record): (string, string) {
    (r.plugin.id, r.plugin.latest)
  }

  /** All the releases of one plugin, in the order of the records. */
  function ReleasesOf(records: seq<Record>, id: string): seq<Release> {
    if records == [] then []
    else
      var last := records[|records| - 1].plugin;
      ReleasesOf(records[..|records| - 1], id) + if last.id == id then last.versions else []
  }

  predicate SameHeader(p: Entry, q: Entry) {
    p.id == q.id && p.name == q.name && p.description == q.description && p.latest == q.latest
  }

  /** The header of `p` is that of a record with a greatest version. */
  predicate Leads(k: Checks, records: seq<Record>, p: Entry) {
    && (exists r :: r in records && SameHeader(r.plugin, p))
    && (forall r :: r in records && r.plugin.id == p.id ==> !Before(k.parse, p.latest, r.plugin.latest))
  }

  predicate Gathered(k: Checks, records: seq<Record>, p: Entry) {
    p.versions == ReleasesOf(records, p.id) && Leads(k, records, p)
  }

  predicate Listed(plugins: seq<Entry>, id: string) {
    exists i :: 0 <= i < |plugins| && plugins[i].id == id
  }

  /** The plugins gathered from the records, before sorting. */
  predicate Merged(k: Checks, records: seq<Record>, plugins: seq<Entry>) {
    && Distinct(plugins, IdOf)
    && (forall i :: 0 <= i < |plugins| ==> Gathered(k, records, plugins[i]))
    && (forall r :: r in records ==> Listed(plugins, r.plugin.id))
  }

  predicate AllOk(k: Checks, records: seq<Record>) {
    forall r :: r in records ==> RecordOk(k, r)
  }

  lemma RecordFacts(k: Checks, r: Record)
    requires RecordOk(k, r)
    ensures ReleaseOk(k, r.plugin.versions[0]) && r.plugin.latest == r.plugin.versions[0].version
    ensures k.parse(r.plugin.latest).Some?
  {
    assert r.plugin.versions[0] in r.plugin.versions;
  }

  /** One more record of a plugin that is already there. */
  lemma LeadsMore(k: Checks, records: seq<Record>, p: Entry, r: Record)
    requires AllOk(k, records + [r]) && Leads(k, records, p) && r.plugin.id == p.id
    ensures Leads(k, records + [r],
                  if Before(k.parse, p.latest, r.plugin.latest)
                  then p.(name := r.plugin.name, description := r.plugin.description, latest := r.plugin.latest)
                  else p)
  {
    hide Before, EntryOk;
    var all := records + [r];
    assert r in all;
    var m :| m in records && SameHeader(m.plugin, p);
    assert m in all;
    RecordFacts(k, r);
    RecordFacts(k, m);
    forall x | x in all && x.plugin.id == p.id
      ensures !Before(k.parse, r.plugin.latest, r.plugin.latest)
      ensures x in records && Before(k.parse, p.latest, r.plugin.latest) ==> !Before(k.parse, r.plugin.latest, x.plugin.latest)
    {
      RecordFacts(k, x);
      BeforeIsStrictTotal(k.parse, p.latest, r.plugin.latest, x.plugin.latest);
      BeforeIsStrictTotal(k.parse, r.plugin.latest, r.plugin.latest, r.plugin.latest);
    }
  }

  /** The entry that one more record of the same plugin makes of `p`. */
  function Joined(k: Checks, p: Entry, r: Entry): Entry {
    var q := if Before(k.parse, p.latest, r.latest)
             then p.(name := r.name, description := r.description, latest := r.latest) else p;
    q.(versions := p.versions + r.versions)
  }

  lemma ReleasesOfMore(records: seq<Record>, r: Record, id: string)
    ensures ReleasesOf(records + [r], id) == ReleasesOf(records, id) + if r.plugin.id == id then r.plugin.versions else []
  {
    assert (records + [r])[..|records|] == records;
  }

  lemma {:induction false} NoReleases(records: seq<Record>, id: string)
    requires forall r :: r in records ==> r.plugin.id != id
    ensures ReleasesOf(records, id) == []
  {
    if records != [] {
      assert records[|records| - 1] in records;
      NoReleases(records[..|records| - 1], id);
    }
  }

  /** Records of other plugins leave an entry alone. */
  lemma GatheredOther(k: Checks, records: seq<Record>, p: Entry, r: Record)
    requires Gathered(k, records, p) && r.plugin.id != p.id
    ensures Gathered(k, records + [r], p)
  {
    hide Before;
    ReleasesOfMore(records, r, p.id);
    var m :| m in records && SameHeader(m.plugin, p);
    assert m in records + [r];
  }

  lemma GatheredSame(k: Checks, records: seq<Record>, p: Entry, r: Record)
    requires AllOk(k, records + [r]) && Gathered(k, records, p) && r.plugin.id == p.id
    ensures Gathered(k, records + [r], Joined(k, p, r.plugin))
  {
    LeadsMore(k, records, p, r);
    ReleasesOfMore(records, r, p.id);
    hide Before, RecordOk, AllOk;
  }

  lemma GatheredFirst(k: Checks, records: seq<Record>, r: Record)
    requires AllOk(k, records + [r]) && forall x :: x in records ==> x.plugin.id != r.plugin.id
    ensures Gathered(k, records + [r], r.plugin)
  {
    hide Before;
    var all := records + [r];
    assert r in all;
    RecordFacts(k, r);
    NoReleases(records, r.plugin.id);
    ReleasesOfMore(records, r, r.plugin.id);
    BeforeIsStrictTotal(k.parse, r.plugin.latest, r.plugin.latest, r.plugin.latest);
    assert SameHeader(r.plugin, r.plugin);
  }

  lemma MergeKnown(k: Checks, records: seq<Record>, plugins: seq<Entry>, r: Record, i: nat)
    requires AllOk(k, records + [r]) && Merged(k, records, plugins)
    requires i < |plugins| && plugins[i].id == r.plugin.id
    ensures Merged(k, records + [r], plugins[i := Joined(k, plugins[i], r.plugin)])
  {
    hide Before, Gathered, AllOk;
    var all, next := records + [r], plugins[i := Joined(k, plugins[i], r.plugin)];
    GatheredSame(k, records, plugins[i], r);
    forall j | 0 <= j < |next|
      ensures next[j].id == plugins[j].id && Gathered(k, all, next[j])
    {
      assert j < i || i < j ==> IdOf(plugins[j]) != IdOf(plugins[i]);
      if j != i {
        GatheredOther(k, records, plugins[j], r);
      }
    }
    assert forall id :: Listed(plugins, id) ==> Listed(next, id);
  }

  lemma MergeNew(k: Checks, records: seq<Record>, plugins: seq<Entry>, r: Record)
    requires AllOk(k, records + [r]) && Merged(k, records, plugins)
    requires !Listed(plugins, r.plugin.id)
    ensures Merged(k, records + [r], plugins + [r.plugin])
  {
    hide Before, Gathered, AllOk;
    var all, next := records + [r], plugins + [r.plugin];
    GatheredFirst(k, records, r);
    forall j | 0 <= j < |next|
      ensures Gathered(k, all, next[j])
    {
      if j < |plugins| {
        GatheredOther(k, records, plugins[j], r);
      }
    }
    assert next[|plugins|] == r.plugin;
    forall id | Listed(plugins, id)
      ensures Listed(next, id)
    {
      var j :| 0 <= j < |plugins| && plugins[j].id == id;
      assert next[j].id == id;
    }
  }

  // ---- what is generated ---------------------------------------------------------------------

  /** Every record is good, and no plugin is released twice in the same version. */
  predicate Accepts(k: Checks, records: seq<Record>) {
    AllOk(k, records) && Distinct(records, Key)
  }

  /** `r` released `v` as a version of the plugin. */
  predicate Releases(r: Record, id: string, v: Release) {
    r.plugin.id == id && r.plugin.versions == [v]
  }

  predicate Released(records: seq<Record>, id: string, v: Release) {
    exists r :: r in records && Releases(r, id, v)
  }

  /** The record of the first version gives the entry its name, description and latest version. */
  predicate Headed(records: seq<Record>, p: Entry) {
    p.versions != [] && exists r :: r in records && Releases(r, p.id, p.versions[0]) && SameHeader(r.plugin, p)
  }

  ghost predicate EntryOf(k: Checks, records: seq<Record>, p: Entry) {
    && Headed(records, p)
    && Ascending(p.versions, LatestFirst(k))
    && (forall v :: v in p.versions <==> Released(records, p.id, v))
  }

  /**
   * The catalog of some records, told from the set of records alone: plugins by ascending id, each exactly
   * once; its versions from latest to earliest, exactly those released.
   */
  ghost predicate CatalogOf(k: Checks, records: seq<Record>, plugins: seq<Entry>) {
    && Ascending(plugins, ById())
    && (forall i :: 0 <= i < |plugins| ==> EntryOf(k, records, plugins[i]))
    && (forall r :: r in records ==> Listed(plugins, r.plugin.id))
  }

  lemma {:induction false} ReleasesOfMembers(k: Checks, records: seq<Record>, id: string)
    requires AllOk(k, records)
    ensures forall v :: v in ReleasesOf(records, id) <==> Released(records, id, v)
  {
    hide EntryOk;
    if records != [] {
      var before, last := records[..|records| - 1], records[|records| - 1];
      assert records == before + [last] && last in records;
      ReleasesOfMembers(k, before, id);
      assert last.plugin.versions == [last.plugin.versions[0]];
      forall v
        ensures v in ReleasesOf(records, id) <==> Released(records, id, v)
      {
        assert Released(records, id, v) <==> Released(before, id, v) || Releases(last, id, v);
      }
    }
  }

  lemma {:induction false} ReleasesOfDistinct(k: Checks, records: seq<Record>, id: string)
    requires Accepts(k, records)
    ensures Distinct(ReleasesOf(records, id), VersionOf)
  {
    hide EntryOk;
    if records != [] {
      var before, last := records[..|records| - 1], records[|records| - 1];
      assert records == before + [last] && last in records;
      ReleasesOfDistinct(k, before, id);
      ReleasesOfMembers(k, before, id);
      RecordFacts(k, last);
      var was := ReleasesOf(before, id);
      forall i | 0 <= i < |was| && last.plugin.id == id
        ensures VersionOf(was[i]) != last.plugin.latest
      {
        assert was[i] in was;
        var r :| r in before && Releases(r, id, was[i]);
        RecordFacts(k, r);
        var j :| 0 <= j < |before| && before[j] == r;
        assert Key(records[j]) != Key(records[|records| - 1]);
      }
    }
  }

  /** A version that was released twice is there twice. */
  lemma {:induction false} ReleasesOfTwice(k: Checks, records: seq<Record>, a: nat, b: nat)
    requires AllOk(k, records) && a < b < |records| && Key(records[a]) == Key(records[b])
    ensures !Distinct(ReleasesOf(records, records[b].plugin.id), VersionOf)
  {
    hide EntryOk;
    var before, last := records[..|records| - 1], records[|records| - 1];
    var id := records[b].plugin.id;
    assert records == before + [last] && last in records;
    if b < |before| {
      ReleasesOfTwice(k, before, a, b);
      var was, now := ReleasesOf(before, id), ReleasesOf(records, id);
      var i, j :| 0 <= i < j < |was| && VersionOf(was[i]) == VersionOf(was[j]);
      assert now[i] == was[i] && now[j] == was[j];
    } else {
      ReleasesOfMembers(k, before, id);
      RecordFacts(k, last);
      var r := before[a];
      assert r in records;
      RecordFacts(k, r);
      var was, now := ReleasesOf(before, id), ReleasesOf(records, id);
      assert Releases(r, id, r.plugin.versions[0]);
      assert r.plugin.versions[0] in was;
      var i :| 0 <= i < |was| && was[i] == r.plugin.versions[0];
      assert now[i] == was[i] && now[|was|] == last.plugin.versions[0];
      assert VersionOf(now[i]) == VersionOf(now[|was|]);
    }
  }

  lemma ArrangedMembers(k: Checks, records: seq<Record>, q: Entry, p: Entry)
    requires AllOk(k, records) && Gathered(k, records, q) && Arranged(k, q, p)
    ensures forall v :: v in p.versions <==> Released(records, p.id, v)
    ensures p.versions != [] && Sorted(p.versions, LatestFirst(k))
    ensures forall v :: v in p.versions ==> ReleaseOk(k, v)
  {
    hide EntryOk, Sorted, Before;
    ReleasesOfMembers(k, records, p.id);
    forall v
      ensures v in p.versions <==> v in q.versions
    {
      assert v in multiset(p.versions) <==> v in multiset(q.versions);
    }
    forall v | v in p.versions
      ensures ReleaseOk(k, v)
    {
      var r :| r in records && Releases(r, p.id, v);
      RecordFacts(k, r);
    }
    var m :| m in records && SameHeader(m.plugin, q);
    RecordFacts(k, m);
    assert Releases(m, p.id, m.plugin.versions[0]);
    assert m.plugin.versions[0] in p.versions;
  }

  /** Different versions in order are strictly in order, so the first is the latest. */
  lemma FirstIsLatest(k: Checks, versions: seq<Release>)
    requires versions != [] && Versions(k, versions)
    requires Sorted(versions, LatestFirst(k)) && Distinct(versions, VersionOf)
    ensures Ascending(versions, LatestFirst(k)) && IsLatest(k, versions[0].version, versions)
  {
    hide Before;
    forall i, j | 0 <= i < j < |versions|
      ensures LatestFirst(k)(versions[i], versions[j])
    {
      assert versions[i] in versions && versions[j] in versions;
      assert VersionOf(versions[i]) != VersionOf(versions[j]);
      assert !LatestFirst(k)(versions[j], versions[i]);
      BeforeIsStrictTotal(k.parse, versions[i].version, versions[j].version, versions[i].version);
    }
    BeforeIsStrictTotal(k.parse, versions[0].version, versions[0].version, versions[0].version);
    forall i | 0 <= i < |versions|
      ensures !Before(k.parse, versions[0].version, versions[i].version)
    {
      assert versions[i] in versions && versions[0] in versions;
      assert i > 0 ==> LatestFirst(k)(versions[0], versions[i]);
      BeforeIsStrictTotal(k.parse, versions[0].version, versions[i].version, versions[0].version);
    }
  }

  /** The record that leads is the one that released the first version. */
  lemma LeaderIsFirst(k: Checks, records: seq<Record>, q: Entry, p: Entry)
    requires Accepts(k, records) && Gathered(k, records, q) && Arranged(k, q, p)
    requires p.versions != [] && Versions(k, p.versions) && IsLatest(k, p.versions[0].version, p.versions)
    requires Distinct(p.versions, VersionOf)
    requires forall v :: v in p.versions <==> Released(records, p.id, v)
    ensures Headed(records, p)
  {
    hide EntryOk, Before, Sorted;
    var m :| m in records && SameHeader(m.plugin, q);
    RecordFacts(k, m);
    var v := m.plugin.versions[0];
    assert Releases(m, p.id, v);
    assert v in p.versions;
    var i :| 0 <= i < |p.versions| && p.versions[i] == v;
    assert p.versions[0] in p.versions;
    var r :| r in records && Releases(r, p.id, p.versions[0]);
    RecordFacts(k, r);
    BeforeIsStrictTotal(k.parse, v.version, p.versions[0].version, v.version);
    assert VersionOf(p.versions[i]) == VersionOf(p.versions[0]);
    assert i == 0;
  }

  lemma VersionsParse(k: Checks, versions: seq<Release>)
    requires forall v :: v in versions ==> ReleaseOk(k, v)
    ensures Versions(k, versions)
  {
  }

  /** An entry with the header of a good record passes for its id and name. */
  lemma GoodHead(k: Checks, r: Record, p: Entry)
    requires RecordOk(k, r) && SameHeader(r.plugin, p) && p.versions != []
    requires (forall v :: v in p.versions ==> ReleaseOk(k, v)) && Distinct(p.versions, VersionOf)
    requires IsLatest(k, p.latest, p.versions)
    ensures EntryOk(k, p)
  {
    hide IsLatest, Distinct, ReleaseOk;
  }

  /** One entry of the result, when nothing was released twice. */
  lemma EntryIsRight(k: Checks, records: seq<Record>, q: Entry, p: Entry)
    requires Accepts(k, records) && Gathered(k, records, q) && Arranged(k, q, p)
    ensures EntryOf(k, records, p) && EntryOk(k, p)
  {
    hide Before, Sorted, Leads, Key, Distinct, IsLatest, ReleaseOk, EntryOk, LatestFirst, Ascending, ReleasesOf, Released;
    ArrangedMembers(k, records, q, p);
    ReleasesOfDistinct(k, records, p.id);
    DistinctPermuted(q.versions, p.versions, VersionOf);
    VersionsParse(k, p.versions);
    FirstIsLatest(k, p.versions);
    LeaderIsFirst(k, records, q, p);
    var r :| r in records && Releases(r, p.id, p.versions[0]) && SameHeader(r.plugin, p);
    assert RecordOk(k, r);
    GoodHead(k, r, p);
  }

  /** Conversely, a good entry shows that nothing was released twice for that plugin. */
  lemma GoodEntryIsDistinct(k: Checks, q: Entry, p: Entry)
    requires Arranged(k, q, p) && EntryOk(k, p)
    ensures Distinct(q.versions, VersionOf)
  {
    DistinctPermuted(p.versions, q.versions, VersionOf);
  }

  // ---- the theorems --------------------------------------------------------------------------

  lemma MidGathered(k: Checks, records: seq<Record>, plugins: seq<Entry>, mid: seq<Entry>)
    requires Merged(k, records, plugins) && multiset(mid) == multiset(plugins)
    ensures Merged(k, records, mid)
  {
    hide Gathered;
    DistinctPermuted(plugins, mid, IdOf);
    forall i | 0 <= i < |mid|
      ensures Gathered(k, records, mid[i])
    {
      assert mid[i] in multiset(plugins);
      var j :| 0 <= j < |plugins| && plugins[j] == mid[i];
    }
    forall id | Listed(plugins, id)
      ensures Listed(mid, id)
    {
      var j :| 0 <= j < |plugins| && plugins[j].id == id;
      assert plugins[j] in multiset(mid);
      var i :| 0 <= i < |mid| && mid[i] == plugins[j];
    }
  }

  lemma SortedIdsAscend(k: Checks, mid: seq<Entry>, r: seq<Entry>)
    requires ArrangedAll(k, mid, r) && Distinct(mid, IdOf)
    ensures Ascending(r, ById()) && Distinct(r, IdOf)
    ensures forall id :: Listed(mid, id) ==> Listed(r, id)
  {
    hide Versions, LatestFirst;
    forall i, j | 0 <= i < j < |r|
      ensures ById()(r[i], r[j]) && IdOf(r[i]) != IdOf(r[j])
    {
      assert Arranged(k, mid[i], r[i]) && Arranged(k, mid[j], r[j]);
      assert IdOf(mid[i]) != IdOf(mid[j]);
      assert !ById()(mid[j], mid[i]);
      StringTotal(mid[i].id, mid[j].id);
    }
    forall id | Listed(mid, id)
      ensures Listed(r, id)
    {
      var i :| 0 <= i < |mid| && mid[i].id == id;
      assert Arranged(k, mid[i], r[i]);
    }
  }

  lemma GoodRecordsMakeTheCatalog(k: Checks, records: seq<Record>, mid: seq<Entry>, r: seq<Entry>)
    requires Accepts(k, records) && Merged(k, records, mid) && ArrangedAll(k, mid, r)
    ensures CatalogOf(k, records, r) && Valid(k, r)
  {
    SortedIdsAscend(k, mid, r);
    hide Accepts, Gathered, Arranged, EntryOf, EntryOk, Sorted, Ascending, Distinct, Listed;
    forall i | 0 <= i < |r|
      ensures EntryOf(k, records, r[i]) && EntryOk(k, r[i])
    {
      EntryIsRight(k, records, mid[i], r[i]);
    }
  }

  lemma RepeatedReleaseIsRefused(k: Checks, records: seq<Record>, mid: seq<Entry>, r: seq<Entry>)
    requires AllOk(k, records) && Merged(k, records, mid) && ArrangedAll(k, mid, r)
    requires !Accepts(k, records)
    ensures !Valid(k, r)
  {
    hide AllOk, Arranged, EntryOk, Sorted, Leads, ReleasesOf;
    var a, b :| 0 <= a < b < |records| && Key(records[a]) == Key(records[b]);
    ReleasesOfTwice(k, records, a, b);
    assert records[b] in records;
    var i :| 0 <= i < |mid| && mid[i].id == records[b].plugin.id;
    assert Gathered(k, records, mid[i]);
    assert r[i] in r;
    if EntryOk(k, r[i]) {
      GoodEntryIsDistinct(k, mid[i], r[i]);
    }
  }

  /** Records of one plugin are found by a table from id to position. */
  ghost predicate Indexed(plugins: seq<Entry>, indexes: map<string, nat>) {
    && (forall id :: id in indexes ==> indexes[id] < |plugins| && plugins[indexes[id]].id == id)
    && (forall i :: 0 <= i < |plugins| ==> plugins[i].id in indexes)
  }

  /** A record is checked as a catalog of its own. */
  lemma RecordOkIff(k: Checks, r: Record)
    ensures RecordOk(k, r) <==> r.schema == 1 && |r.plugin.versions| == 1 && Valid(k, [r.plugin])
  {
    assert r.plugin in [r.plugin];
    hide EntryOk;
  }

  lemma NothingMerged(k: Checks)
    ensures AllOk(k, []) && Merged(k, [], [])
  {
  }

  /** One good record into the list. */
  method MergeOne(k: Checks, ghost records: seq<Record>, plugins: seq<Entry>, indexes: map<string, nat>, r: Record)
    returns (more: seq<Entry>, positions: map<string, nat>)
    requires AllOk(k, records + [r]) && Merged(k, records, plugins) && Indexed(plugins, indexes)
    ensures Merged(k, records + [r], more) && Indexed(more, positions)
  {
    hide AllOk, Before, Gathered, Merged;
    if r.plugin.id in indexes {
      var i := indexes[r.plugin.id];
      MergeKnown(k, records, plugins, r, i);
      var p := plugins[i];
      if Before(k.parse, p.latest, r.plugin.latest) {
        p := p.(name := r.plugin.name, description := r.plugin.description, latest := r.plugin.latest);
      }
      p := p.(versions := p.versions + r.plugin.versions);
      more, positions := plugins[i := p], indexes;
    } else {
      MergeNew(k, records, plugins, r);
      more, positions := plugins + [r.plugin], indexes[r.plugin.id := |plugins|];
    }
  }

  method Merge(k: Checks, records: seq<Record>) returns (plugins: seq<Entry>, ok: bool)
    requires Sane(k)
    ensures ok <==> AllOk(k, records)
    ensures ok ==> Merged(k, records, plugins)
  {
    hide RecordOk, EntryOk, Merged, Valid;
    var indexes: map<string, nat>;
    plugins, indexes, ok := [], map[], true;
    NothingMerged(k);
    for n := 0 to |records|
      invariant AllOk(k, records[..n]) && Merged(k, records[..n], plugins) && Indexed(plugins, indexes)
    {
      var r := records[n];
      assert r in records && records[..n + 1] == records[..n] + [r];
      RecordOkIff(k, r);
      if r.schema != 1 || |r.plugin.versions| != 1 {
        return plugins, false;
      }
      ok := Validate(k, Document(1, Some([r.plugin])));
      if !ok {
        return;
      }
      plugins, indexes := MergeOne(k, records[..n], plugins, indexes, r);
    }
    assert records[..|records|] == records;
    ok := true;
  }

  /**
   * Generation succeeds exactly for good records without a repeated release; what it returns is the
   * catalog of the records, and passes validation.
   */
  method GenerateCatalog(k: Checks, records: seq<Record>) returns (r: Option<seq<Entry>>)
    requires Sane(k)
    ensures r.Some? <==> Accepts(k, records)
    ensures r.Some? ==> CatalogOf(k, records, r.value) && Valid(k, r.value)
  {
    hide AllOk, Merged, CatalogOf, Valid, Sorted, Arranged;
    var plugins, ok := Merge(k, records);
    if !ok {
      return None;
    }
    var sorted := Sort(k, plugins);
    ghost var mid :| multiset(mid) == multiset(plugins) && ArrangedAll(k, mid, sorted);
    MidGathered(k, records, plugins, mid);
    ok := Validate(k, Document(1, Some(sorted)));
    if Accepts(k, records) {
      GoodRecordsMakeTheCatalog(k, records, mid, sorted);
    } else {
      RepeatedReleaseIsRefused(k, records, mid, sorted);
    }
    return if ok then Some(sorted) else None;
  }

  lemma EntryUnique(k: Checks, records: seq<Record>, p: Entry, q: Entry)
    requires Accepts(k, records) && EntryOf(k, records, p) && EntryOf(k, records, q) && p.id == q.id
    ensures p == q
  {
    hide Before, EntryOk;
    forall x, y | x in p.versions && y in p.versions
      ensures !(LatestFirst(k)(x, y) && LatestFirst(k)(y, x))
    {
      var a :| a in records && Releases(a, p.id, x);
      var b :| b in records && Releases(b, p.id, y);
      RecordFacts(k, a);
      RecordFacts(k, b);
      BeforeIsStrictTotal(k.parse, x.version, y.version, x.version);
    }
    AscendingUnique(p.versions, q.versions, LatestFirst(k));
    var a :| a in records && Releases(a, p.id, p.versions[0]) && SameHeader(a.plugin, p);
    var b :| b in records && Releases(b, p.id, p.versions[0]) && SameHeader(b.plugin, q);
    RecordFacts(k, a);
    RecordFacts(k, b);
    var i :| 0 <= i < |records| && records[i] == a;
    var j :| 0 <= j < |records| && records[j] == b;
    assert Key(records[i]) == Key(records[j]);
    assert i == j;
  }

  function Ids(plugins: seq<Entry>): (r: seq<string>)
    ensures |r| == |plugins| && forall i :: 0 <= i < |r| ==> r[i] == plugins[i].id
  {
    seq(|plugins|, i requires 0 <= i < |plugins| => plugins[i].id)
  }

  lemma HeadRecord(k: Checks, records: seq<Record>, p: Entry)
    requires EntryOf(k, records, p)
    ensures exists r :: r in records && r.plugin.id == p.id
  {
    var r :| r in records && Releases(r, p.id, p.versions[0]) && SameHeader(r.plugin, p);
  }

  lemma ListedIn(k: Checks, records: seq<Record>, c: seq<Entry>, id: string)
    requires CatalogOf(k, records, c)
    ensures id in Ids(c) <==> exists r :: r in records && r.plugin.id == id
  {
    hide EntryOf;
    if id in Ids(c) {
      var i :| 0 <= i < |c| && Ids(c)[i] == id;
      HeadRecord(k, records, c[i]);
    }
    if r :| r in records && r.plugin.id == id {
      var i :| 0 <= i < |c| && c[i].id == id;
      assert Ids(c)[i] == id;
    }
  }

  /** There is only one catalog of some good records. */
  lemma CatalogUnique(k: Checks, records: seq<Record>, c: seq<Entry>, d: seq<Entry>)
    requires Accepts(k, records) && CatalogOf(k, records, c) && CatalogOf(k, records, d)
    ensures c == d
  {
    hide Accepts, EntryOf;
    forall x, y
      ensures !(StringBefore(x, y) && StringBefore(y, x))
    {
      StringIrreflexive(x);
      StringOrderLaws(x, y, x);
    }
    forall id
      ensures id in Ids(c) <==> id in Ids(d)
    {
      ListedIn(k, records, c, id);
      ListedIn(k, records, d, id);
    }
    assert forall i, j :: 0 <= i < j < |c| ==> ById()(c[i], c[j]);
    assert forall i, j :: 0 <= i < j < |d| ==> ById()(d[i], d[j]);
    AscendingUnique(Ids(c), Ids(d), StringBefore);
    forall i | 0 <= i < |c|
      ensures c[i] == d[i]
    {
      assert Ids(c)[i] == Ids(d)[i];
      EntryUnique(k, records, c[i], d[i]);
    }
  }

  /**
   * Order independence: any two orders of the same records are both refused, or give one and the same
   * catalog, whatever the sorting did in between.
   */
  lemma OrderIndependent(k: Checks, records: seq<Record>, permuted: seq<Record>, c: seq<Entry>, d: seq<Entry>)
    requires multiset(records) == multiset(permuted)
    ensures Accepts(k, records) <==> Accepts(k, permuted)
    ensures Accepts(k, records) && CatalogOf(k, records, c) && CatalogOf(k, permuted, d) ==> c == d
  {
    hide RecordOk, Ascending;
    forall r
      ensures r in records <==> r in permuted
    {
      assert r in multiset(records) <==> r in multiset(permuted);
    }
    if Distinct(records, Key) {
      DistinctPermuted(records, permuted, Key);
    }
    if Distinct(permuted, Key) {
      DistinctPermuted(permuted, records, Key);
    }
    if Accepts(k, records) && CatalogOf(k, records, c) && CatalogOf(k, permuted, d) {
      SameRecords(k, records, permuted, d);
      CatalogUnique(k, records, c, d);
    }
  }

  lemma SameRecords(k: Checks, records: seq<Record>, permuted: seq<Record>, d: seq<Entry>)
    requires forall r :: r in records <==> r in permuted
    requires CatalogOf(k, permuted, d)
    ensures CatalogOf(k, records, d)
  {
    hide Ascending, Releases, SameHeader, Listed;
    forall i | 0 <= i < |d|
      ensures EntryOf(k, records, d[i])
    {
      assert EntryOf(k, permuted, d[i]);
      assert forall v :: Released(records, d[i].id, v) <==> Released(permuted, d[i].id, v);
    }
  }

  // ---- publication policy --------------------------------------------------------------------

  datatype Rule = Rule(id: string, source: string, publish: bool)

  function RuleId(r: Rule): string {
    r.id
  }

  predicate PolicyOk(k: Checks, path: string -> bool, rules: seq<Rule>) {
    (forall r :: r in rules ==> k.id(r.id) && path(r.source)) && Distinct(rules, RuleId)
  }

  predicate Publishable(rules: seq<Rule>, id: string) {
    exists r :: r in rules && r.id == id && r.publish
  }

  function Public(rules: seq<Rule>, records: seq<Record>): seq<Record> {
    if records == [] then []
    else
      var last := records[|records| - 1];
      Public(rules, records[..|records| - 1]) + if Publishable(rules, last.plugin.id) then [last] else []
  }

  /** One more rule is good if it is good itself and its id is new. */
  lemma PolicyGrows(k: Checks, path: string -> bool, rules: seq<Rule>, n: nat)
    requires n < |rules|
    ensures PolicyOk(k, path, rules[..n + 1]) <==>
      PolicyOk(k, path, rules[..n]) && k.id(rules[n].id) && path(rules[n].source)
      && forall i :: 0 <= i < n ==> rules[i].id != rules[n].id
    ensures !PolicyOk(k, path, rules[..n + 1]) ==> !PolicyOk(k, path, rules)
  {
    hide Distinct;
    assert rules[..n + 1] == rules[..n] + [rules[n]];
    assert forall r :: r in rules[..n + 1] ==> r in rules;
    DistinctGrows(rules[..n], rules[n]);
    DistinctPrefix(rules, n + 1);
  }

  lemma DistinctGrows(s: seq<Rule>, r: Rule)
    ensures Distinct(s + [r], RuleId) <==> Distinct(s, RuleId) && forall i :: 0 <= i < |s| ==> s[i].id != r.id
  {
    var more := s + [r];
    assert more[|s|] == r && forall i :: 0 <= i < |s| ==> more[i] == s[i];
    if Distinct(more, RuleId) {
      forall i | 0 <= i < |s|
        ensures s[i].id != r.id
      {
        assert RuleId(more[i]) != RuleId(more[|s|]);
      }
    }
  }

  lemma DistinctPrefix(s: seq<Rule>, n: nat)
    requires n <= |s|
    ensures Distinct(s, RuleId) ==> Distinct(s[..n], RuleId)
  {
  }

  /** A rule is found only in a policy that is good throughout. */
  method FindRule(k: Checks, path: string -> bool, rules: seq<Rule>, id: string) returns (r: Option<Rule>)
    ensures r.Some? <==> PolicyOk(k, path, rules) && Publishable(rules, id)
    ensures r.Some? ==> r.value in rules && r.value.id == id && r.value.publish
  {
    hide PolicyOk;
    var found: Option<Rule>, seen := None, {};
    EmptyPolicy(k, path);
    for n := 0 to |rules|
      invariant PolicyOk(k, path, rules[..n])
      invariant forall s :: s in seen <==> exists i :: 0 <= i < n && rules[i].id == s
      invariant found.Some? ==> found.value in rules[..n] && found.value.id == id
      invariant forall i :: 0 <= i < n && rules[i].id == id ==> found == Some(rules[i])
    {
      PolicyGrows(k, path, rules, n);
      if !k.id(rules[n].id) || !path(rules[n].source) || rules[n].id in seen {
        return None;
      }
      seen := seen + {rules[n].id};
      if rules[n].id == id {
        found := Some(rules[n]);
        assert rules[..n + 1][n] == rules[n];
      }
    }
    assert rules[..|rules|] == rules;
    if found.None? || !found.value.publish {
      return None;
    }
    return found;
  }

  lemma EmptyPolicy(k: Checks, path: string -> bool)
    ensures PolicyOk(k, path, [])
  {
  }

  lemma {:induction false} PublicMembers(rules: seq<Rule>, records: seq<Record>, r: Record)
    ensures multiset(Public(rules, records))[r] == if Publishable(rules, r.plugin.id) then multiset(records)[r] else 0
  {
    hide Publishable;
    if records != [] {
      var before, last := records[..|records| - 1], records[|records| - 1];
      assert records == before + [last];
      PublicMembers(rules, before, r);
    }
  }

  /** The public records too depend on the order of the records in their order only. */
  lemma PublicPermuted(rules: seq<Rule>, records: seq<Record>, permuted: seq<Record>)
    requires multiset(records) == multiset(permuted)
    ensures multiset(Public(rules, records)) == multiset(Public(rules, permuted))
  {
    forall r: Record
      ensures multiset(Public(rules, records))[r] == multiset(Public(rules, permuted))[r]
    {
      PublicMembers(rules, records, r);
      PublicMembers(rules, permuted, r);
    }
  }

  /** Only publishable plugins get in, and a bad record of one that is not publishable does no harm. */
  method GeneratePublicCatalog(k: Checks, path: string -> bool, records: seq<Record>, rules: seq<Rule>)
    returns (r: Option<seq<Entry>>)
    requires Sane(k)
    ensures r.Some? <==> PolicyOk(k, path, rules) && Accepts(k, Public(rules, records))
    ensures r.Some? ==> CatalogOf(k, Public(rules, records), r.value) && Valid(k, r.value)
    ensures r.Some? ==> forall p :: p in r.value ==> Publishable(rules, p.id)
  {
    hide Publishable, Accepts, Valid, EntryOf, PolicyOk;
    var seen := {};
    EmptyPolicy(k, path);
    for n := 0 to |rules|
      invariant PolicyOk(k, path, rules[..n])
      invariant forall s :: s in seen <==> exists i :: 0 <= i < n && rules[i].id == s
    {
      PolicyGrows(k, path, rules, n);
      if !k.id(rules[n].id) || !path(rules[n].source) || rules[n].id in seen {
        return None;
      }
      seen := seen + {rules[n].id};
    }
    assert rules[..|rules|] == rules;
    var public: seq<Record> := [];
    for n := 0 to |records|
      invariant public == Public(rules, records[..n])
    {
      var rule := FindRule(k, path, rules, records[n].plugin.id);
      assert records[..n + 1][..n] == records[..n];
      if rule.Some? {
        public := public + [records[n]];
      }
    }
    assert records[..|records|] == records;
    r := GenerateCatalog(k, public);
    if r.Some? {
      OnlyPublishable(k, rules, records, r.value);
    }
  }

  lemma OnlyPublishable(k: Checks, rules: seq<Rule>, records: seq<Record>, c: seq<Entry>)
    requires CatalogOf(k, Public(rules, records), c)
    ensures forall p :: p in c ==> Publishable(rules, p.id)
  {
    hide Publishable, Ascending;
    forall p | p in c
      ensures Publishable(rules, p.id)
    {
      assert EntryOf(k, Public(rules, records), p);
      var r :| r in Public(rules, records) && Releases(r, p.id, p.versions[0]) && SameHeader(r.plugin, p);
      assert r in multiset(Public(rules, records));
      PublicMembers(rules, records, r);
    }
  }

  // ---- status --------------------------------------------------------------------------------

  datatype Installed = Installed(id: string, version: string, registry: Option<string>)

  /** Of several installations of one plugin from this registry, the last listed one counts. */
  function LastFrom(installed: seq<Installed>, id: string, registry: string): Option<Installed> {
    if installed == [] then None
    else
      var last := installed[|installed| - 1];
      if last.id == id && last.registry == Some(registry) then Some(last)
      else LastFrom(installed[..|installed| - 1], id, registry)
  }

  /** `latest` is the latest of the compatible versions; empty if there is none. */
  predicate LatestCompatible(k: Checks, fits: Release -> bool, versions: seq<Release>, latest: string) {
    if latest == "" then forall v :: v in versions ==> !fits(v)
    else
      && (exists v :: v in versions && fits(v) && v.version == latest)
      && (forall v :: v in versions && fits(v) ==> !Before(k.parse, latest, v.version))
  }

  lemma LatestCompatibleMore(k: Checks, fits: Release -> bool, versions: seq<Release>, latest: string, v: Release)
    requires Sane(k) && Versions(k, versions + [v]) && LatestCompatible(k, fits, versions, latest)
    ensures LatestCompatible(k, fits, versions + [v],
                             if fits(v) && (latest == "" || Before(k.parse, latest, v.version)) then v.version else latest)
  {
    hide Before;
    var all := versions + [v];
    assert v in all;
    BeforeIsStrictTotal(k.parse, v.version, v.version, v.version);
    if latest != "" {
      var m :| m in versions && fits(m) && m.version == latest;
      assert m in all;
      forall w | w in versions && fits(w) && Before(k.parse, latest, v.version)
        ensures !Before(k.parse, v.version, w.version)
      {
        assert w in all;
        BeforeIsStrictTotal(k.parse, latest, v.version, w.version);
      }
    }
  }

  datatype CatalogStatus = CatalogStatus(
    entry: Entry, latestCompatible: string, incompatibility: Option<string>, updateAvailable: bool)

  /** `problem` tells what makes a release unfit for this host, if anything does. */
  function Fits(problem: Release -> Option<string>): Release -> bool {
    (v: Release) => problem(v).None?
  }

  predicate StatusOf(
      k: Checks, problem: Release -> Option<string>, installed: seq<Installed>, registry: string, s: CatalogStatus)
  {
    var p := s.entry;
    && LatestCompatible(k, Fits(problem), p.versions, s.latestCompatible)
    && (forall v :: v in p.versions && v.version == p.latest ==> s.incompatibility == problem(v))
    && (s.updateAvailable <==>
          && s.latestCompatible != "" && LastFrom(installed, p.id, registry).Some?
          && CompareVersions(k.parse, s.latestCompatible, LastFrom(installed, p.id, registry).value.version) > 0)
  }

  /** The loop over the versions: the latest that fits, and what is wrong with the latest one. */
  method Compatible(k: Checks, problem: Release -> Option<string>, p: Entry)
    returns (latest: string, incompatibility: Option<string>)
    requires Sane(k) && EntryOk(k, p)
    ensures LatestCompatible(k, Fits(problem), p.versions, latest)
    ensures forall v :: v in p.versions && v.version == p.latest ==> incompatibility == problem(v)
  {
    hide Before, IsLatest, LatestCompatible;
    latest, incompatibility := "", None;
    NothingFits(k, Fits(problem));
    for n := 0 to |p.versions|
      invariant LatestCompatible(k, Fits(problem), p.versions[..n], latest)
      invariant incompatibility.None? ==> forall i :: 0 <= i < n && p.versions[i].version == p.latest ==> problem(p.versions[i]).None?
      invariant incompatibility.Some? ==>
        exists i :: 0 <= i < n && p.versions[i].version == p.latest && problem(p.versions[i]) == incompatibility
    {
      var v := p.versions[n];
      assert p.versions[..n + 1] == p.versions[..n] + [v];
      assert Versions(k, p.versions[..n] + [v]) by {
        forall w | w in p.versions[..n] + [v]
          ensures k.parse(w.version).Some?
        {
          assert w in p.versions;
          assert ReleaseOk(k, w);
        }
      }
      LatestCompatibleMore(k, Fits(problem), p.versions[..n], latest, v);
      if v.version == p.latest && problem(v).Some? {
        incompatibility := problem(v);
      }
      if problem(v).None? && (latest == "" || Before(k.parse, latest, v.version)) {
        latest := v.version;
      }
    }
    assert p.versions[..|p.versions|] == p.versions;
    forall v | v in p.versions && v.version == p.latest
      ensures incompatibility == problem(v)
    {
      var j :| 0 <= j < |p.versions| && p.versions[j] == v;
      if incompatibility.Some? {
        var i :| 0 <= i < |p.versions| && p.versions[i].version == p.latest && problem(p.versions[i]) == incompatibility;
        assert VersionOf(p.versions[i]) == VersionOf(p.versions[j]);
      }
    }
  }

  lemma NothingFits(k: Checks, fits: Release -> bool)
    ensures LatestCompatible(k, fits, [], "")
  {
  }

  method Updatable(k: Checks, latest: string, id: string, installed: seq<Installed>, registry: string) returns (update: bool)
    ensures update <==>
      && latest != "" && LastFrom(installed, id, registry).Some?
      && CompareVersions(k.parse, latest, LastFrom(installed, id, registry).value.version) > 0
  {
    hide CompareVersions;
    update := false;
    for n := 0 to |installed|
      invariant update <==>
        && latest != "" && LastFrom(installed[..n], id, registry).Some?
        && CompareVersions(k.parse, latest, LastFrom(installed[..n], id, registry).value.version) > 0
    {
      var local := installed[n];
      assert installed[..n + 1][..n] == installed[..n];
      if local.id == id && local.registry == Some(registry) && latest != "" {
        update := CompareVersions(k.parse, latest, local.version) > 0;
      }
    }
    assert installed[..|installed|] == installed;
  }

  /** One status for each entry of a validated catalog, in its order. */
  method Statuses(
      k: Checks, problem: Release -> Option<string>, plugins: seq<Entry>, installed: seq<Installed>, registry: string)
    returns (r: seq<CatalogStatus>)
    requires Sane(k) && Valid(k, plugins)
    ensures |r| == |plugins|
    ensures forall i :: 0 <= i < |r| ==> r[i].entry == plugins[i] && StatusOf(k, problem, installed, registry, r[i])
  {
    hide EntryOk, LatestCompatible, CompareVersions;
    r := [];
    for n := 0 to |plugins|
      invariant |r| == n
      invariant forall i :: 0 <= i < n ==> r[i].entry == plugins[i] && StatusOf(k, problem, installed, registry, r[i])
    {
      assert plugins[n] in plugins;
      var latest, incompatibility := Compatible(k, problem, plugins[n]);
      var update := Updatable(k, latest, plugins[n].id, installed, registry);
      var s := CatalogStatus(plugins[n], latest, incompatibility, update);
      assert StatusOf(k, problem, installed, registry, s);
      r := r + [s];
    }
  }
}
