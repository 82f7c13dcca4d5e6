// ListReferrers of internal/metastore/sqlite/referrer.go and internal/referrer/service.go:
// the rows of a subject, and the filter that compacts them into their own backing array.
module ReferrerFilter {
  import opened Basics
  import opened Digests
  import opened FileSystem
  import opened NameGrammar
  import opened Metastore
  import ReferrerIndex

  datatype Descriptor = Descriptor(mediaType: string, digest: Digest, size: int, artifactType: string, annotations: map<string, string>)

  // ---- The query ----

  // What SELECT ... WHERE namespace = ? AND subject_digest = ? ORDER BY created_at may
  // return: every matching key once, oldest first.
  ghost predicate Selects(db: Db, ns: string, subject: Digest, keys: seq<Key>)
  {
    && (forall k :: k in keys <==> k in db.referrers && k.ns == ns && db.referrers[k].subject == subject)
    && (forall i, j :: 0 <= i < j < |keys| ==> keys[i] != keys[j] && db.referrers[keys[i]].createdAt <= db.referrers[keys[j]].createdAt)
  }

  function DescriptorOf(db: Db, k: Key): Descriptor
    requires k in db.referrers
  {
    var row := db.referrers[k];
    Descriptor(row.mediaType, k.digest, row.size, row.artifactType, row.annotations)
  }

  // ---- The filter ----

  // The positions of the descriptors of the artifact type, in order.
  function Positions(s: seq<Descriptor>, artifactType: string): seq<nat>
  {
    if s == [] then []
    else
      var n := |s| - 1;
      Positions(s[..n], artifactType) + if s[n].artifactType == artifactType then [n] else []
  }

  function Filter(s: seq<Descriptor>, artifactType: string): seq<Descriptor>
  {
    if s == [] then []
    else
      var n := |s| - 1;
      Filter(s[..n], artifactType) + if s[n].artifactType == artifactType then [s[n]] else []
  }

  lemma {:induction false} PositionsMember(s: seq<Descriptor>, artifactType: string, p: nat)
    ensures p in Positions(s, artifactType) <==> p < |s| && s[p].artifactType == artifactType
    decreases |s|
  {
    if s != [] {
      PositionsMember(s[..|s| - 1], artifactType, p);
      if p < |s| - 1 { assert s[..|s| - 1][p] == s[p]; }
    }
  }

  lemma {:induction false} PositionsAscend(s: seq<Descriptor>, artifactType: string)
    ensures var ps := Positions(s, artifactType); forall i, j :: 0 <= i < j < |ps| ==> ps[i] < ps[j]
    decreases |s|
  {
    if s != [] {
      var n := |s| - 1;
      PositionsAscend(s[..n], artifactType);
      var ps := Positions(s[..n], artifactType);
      forall i | 0 <= i < |ps| ensures ps[i] < n { PositionsMember(s[..n], artifactType, ps[i]); }
    }
  }

  lemma {:induction false} FilterAt(s: seq<Descriptor>, artifactType: string)
    ensures var ps, r := Positions(s, artifactType), Filter(s, artifactType);
      |ps| == |r| <= |s| && forall k :: 0 <= k < |r| ==> ps[k] < |s| && r[k] == s[ps[k]]
    decreases |s|
  {
    if s != [] { FilterAt(s[..|s| - 1], artifactType); }
  }

  // The filter keeps exactly the matching positions, each once and in their order.
  lemma FilterPicks(s: seq<Descriptor>, artifactType: string)
    ensures var ps, r := Positions(s, artifactType), Filter(s, artifactType);
      && |ps| == |r| <= |s|
      && (forall k :: 0 <= k < |r| ==> ps[k] < |s| && r[k] == s[ps[k]])
      && (forall i, j :: 0 <= i < j < |ps| ==> ps[i] < ps[j])
      && (forall p: nat :: p in ps <==> p < |s| && s[p].artifactType == artifactType)
  {
    forall p: nat ensures p in Positions(s, artifactType) <==> p < |s| && s[p].artifactType == artifactType {
      PositionsMember(s, artifactType, p);
    }
    PositionsAscend(s, artifactType);
    FilterAt(s, artifactType);
  }

  // filtered := descriptors[:0], appended to in place: the write index never passes the
  // read index, so no element is overwritten before it has been read.
  method FilterInPlace(descriptors: array<Descriptor>, artifactType: string) returns (n: nat)
    modifies descriptors
    ensures n <= descriptors.Length
    ensures descriptors[..n] == Filter(old(descriptors[..]), artifactType)
  {
    ghost var all := descriptors[..];
    n := 0;
    var i := 0;
    while i < descriptors.Length
      invariant 0 <= n <= i <= descriptors.Length == |all|
      invariant descriptors[..n] == Filter(all[..i], artifactType)
      invariant forall j :: i <= j < |all| ==> descriptors[j] == all[j]
    {
      var d := descriptors[i];
      assert all[..i + 1][..i] == all[..i];
      if d.artifactType == artifactType {
        descriptors[n] := d;
        n := n + 1;
      }
      i := i + 1;
    }
    assert all[..i] == all;
  }

  // ---- The service ----

  datatype ListError = NameInvalid | UnknownName | Meta(error: DbError)

  // `keys` is what the query returns.
  method ListReferrers(db: Db, lookup: bool, begins: bool, ns: string, subject: Digest, artifactType: string, keys: seq<Key>)
      returns (r: Result<seq<Descriptor>, ListError>, filterApplied: bool)
    requires Selects(db, ns, subject, keys)
    ensures r.Ok? <==> ValidName(ns) && lookup && ns in db.namespaces && begins
    ensures r == Err(NameInvalid) <==> !ValidName(ns)
    ensures r == Err(UnknownName) <==> ValidName(ns) && lookup && ns !in db.namespaces
    ensures r.Ok? ==> (filterApplied <==> artifactType != "")
    ensures r.Ok? ==> Lists(db, ns, subject, artifactType, r.value)
  {
    filterApplied := false;
    if !ValidName(ns) {
      return Err(NameInvalid), false;
    }
    if !lookup {
      return Err(Meta(Broken)), false;
    }
    if ns !in db.namespaces {
      return Err(UnknownName), false;
    }
    if !begins {
      return Err(Meta(Broken)), false;
    }
    var none := Descriptor("", "", 0, "", map[]);
    var descriptors := new Descriptor[|keys|](_ => none);
    var i := 0;
    while i < |keys|
      invariant 0 <= i <= |keys| == descriptors.Length
      invariant forall j :: 0 <= j < i ==> keys[j] in db.referrers && descriptors[j] == DescriptorOf(db, keys[j])
    {
      assert keys[i] in keys;
      descriptors[i] := DescriptorOf(db, keys[i]);
      i := i + 1;
    }
    ghost var all := descriptors[..];
    AllLists(db, ns, subject, keys, all);
    if artifactType != "" {
      var n := FilterInPlace(descriptors, artifactType);
      FilteredLists(db, ns, subject, artifactType, all);
      return Ok(descriptors[..n]), true;
    }
    return Ok(descriptors[..]), false;
  }

  // Field by field, what a descriptor says of the referrer `k` with the row `row`.
  predicate SaysRow(d: Descriptor, k: Key, row: ReferrerRow)
  {
    d.mediaType == row.mediaType && d.digest == k.digest && d.size == row.size && d.artifactType == row.artifactType && d.annotations == row.annotations
  }

  // The answer: exactly the descriptors that say what the row of a referrer of the subject
  // says, when the row has the artifact type asked for; one for each row, oldest first.
  ghost predicate Lists(db: Db, ns: string, subject: Digest, artifactType: string, ds: seq<Descriptor>)
  {
    && (forall d: Descriptor :: d in ds <==>
          && ReferrerIndex.Listed(db, Key(ns, d.digest), subject)
          && SaysRow(d, Key(ns, d.digest), db.referrers[Key(ns, d.digest)])
          && (artifactType == "" || db.referrers[Key(ns, d.digest)].artifactType == artifactType))
    && OldestFirst(db, ns, ds)
  }

  ghost predicate OldestFirst(db: Db, ns: string, ds: seq<Descriptor>)
  {
    forall i, j :: 0 <= i < j < |ds| ==>
      && ds[i].digest != ds[j].digest && Key(ns, ds[i].digest) in db.referrers && Key(ns, ds[j].digest) in db.referrers
      && db.referrers[Key(ns, ds[i].digest)].createdAt <= db.referrers[Key(ns, ds[j].digest)].createdAt
  }

  // The descriptors of the selected keys, position by position.
  ghost predicate Describes(db: Db, keys: seq<Key>, ds: seq<Descriptor>)
  {
    |ds| == |keys| && forall j :: 0 <= j < |keys| ==> keys[j] in db.referrers && ds[j] == DescriptorOf(db, keys[j])
  }

  lemma AllLists(db: Db, ns: string, subject: Digest, keys: seq<Key>, ds: seq<Descriptor>)
    requires Selects(db, ns, subject, keys) && Describes(db, keys, ds)
    ensures Lists(db, ns, subject, "", ds)
  {
  }

  lemma FilterKeeps(ds: seq<Descriptor>, artifactType: string, d: Descriptor)
    ensures d in Filter(ds, artifactType) <==> d in ds && d.artifactType == artifactType
  {
    FilterPicks(ds, artifactType);
    var ps, r := Positions(ds, artifactType), Filter(ds, artifactType);
    if d in r {
      var k :| 0 <= k < |r| && r[k] == d;
      assert ps[k] in ps;
    }
    if d in ds && d.artifactType == artifactType {
      var p :| 0 <= p < |ds| && ds[p] == d;
      assert p in ps;
      var k :| 0 <= k < |ps| && ps[k] == p;
      assert r[k] == d;
    }
  }

  lemma FilterKeepsOrder(db: Db, ns: string, ds: seq<Descriptor>, artifactType: string)
    requires OldestFirst(db, ns, ds)
    ensures OldestFirst(db, ns, Filter(ds, artifactType))
  {
    FilterPicks(ds, artifactType);
    var ps, r := Positions(ds, artifactType), Filter(ds, artifactType);
    forall i, j | 0 <= i < j < |r| ensures ps[i] < ps[j] < |ds| && r[i] == ds[ps[i]] && r[j] == ds[ps[j]] {}
  }

  lemma FilteredLists(db: Db, ns: string, subject: Digest, artifactType: string, ds: seq<Descriptor>)
    requires Lists(db, ns, subject, "", ds) && artifactType != ""
    ensures Lists(db, ns, subject, artifactType, Filter(ds, artifactType))
  {
    FilterKeepsOrder(db, ns, ds, artifactType);
    forall d: Descriptor ensures d in Filter(ds, artifactType) <==> d in ds && d.artifactType == artifactType {
      FilterKeeps(ds, artifactType, d);
    }
  }
}
