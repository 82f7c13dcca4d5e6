// VacuumStagingBlobs and findStaleStagingEntries of internal/blobstore/fs/vacuum.go:
// two nested filepath.WalkDir calls over the tree, the outer one skipping what the
// inner one has seen.
module StagingVacuum {
  import opened Basics
  import opened Directories

  // One call: the last component of the prefix, the grace period, the clock read at each
  // staging directory, and what the operating system fails: stats, removals, and the
  // submission of a directory's batch.
  datatype Sweep = Sweep(
    base: string, grace: int, clock: Path -> int,
    unreadable: set<Path>, stuck: set<Path>, refused: set<Path>)

  datatype VacuumError = EntryFails(path: Path, cause: RemoveError) | BatchFails(dir: Path)

  const MIN_INT64 := -0x8000_0000_0000_0000
  const MAX_INT64 := 0x7FFF_FFFF_FFFF_FFFF

  // time.Time.Sub saturates.
  function Sub(a: int, b: int): int
  {
    if a - b > MAX_INT64 then MAX_INT64 else if a - b < MIN_INT64 then MIN_INT64 else a - b
  }

  predicate Stale(grace: int, now: int, mtime: int) { !(Sub(now, mtime) < grace) }

  // Saturation never changes the verdict.
  lemma StaleIsOldEnough(grace: int, now: int, mtime: int)
    requires MIN_INT64 < grace <= MAX_INT64
    ensures Stale(grace, now, mtime) <==> now - mtime >= grace
  {
  }

  predicate IsStaging(v: Sweep, p: Path) { (if p == [] then v.base else p[|p| - 1]) == ".staging" }

  // The outermost staging directory strictly above `p`.
  function StagingRoot(v: Sweep, p: Path): Option<Path>
  {
    if p == [] then None
    else
      var up := p[..|p| - 1];
      if StagingRoot(v, up).Some? then StagingRoot(v, up) else if IsStaging(v, up) then Some(up) else None
  }

  // The walk finds the file old enough and can stat it.
  predicate Found(v: Sweep, p: Path, mtime: int)
  {
    && StagingRoot(v, p).Some? && p !in v.unreadable
    && Stale(v.grace, v.clock(StagingRoot(v, p).value), mtime)
  }

  // The file goes.
  predicate Doomed(v: Sweep, p: Path, mtime: int)
  {
    && Found(v, p, mtime) && StagingRoot(v, p).value !in v.refused
    && !Escapes(StagingRoot(v, p).value, p) && p !in v.stuck
  }

  // Between `was` and `now` exactly the doomed files of the area have gone.
  ghost predicate Swept(v: Sweep, area: iset<Path>, was: map<Path, int>, now: map<Path, int>)
  {
    && (forall p :: p in now ==> p in was && now[p] == was[p])
    && (forall p :: p in was ==> (p !in now <==> p in area && Doomed(v, p, was[p])))
  }

  predicate Under(p: Path, q: Path) { p <= q }

  ghost function Below(p: Path): iset<Path> { iset q | Under(p, q) }

  lemma SweptTwice(v: Sweep, a: iset<Path>, b: iset<Path>, f0: map<Path, int>, f1: map<Path, int>, f2: map<Path, int>)
    requires Swept(v, a, f0, f1) && Swept(v, b, f1, f2)
    ensures Swept(v, a + b, f0, f2)
  {
  }

  lemma {:induction false} StagingRootBelow(v: Sweep, r: Path, p: Path)
    requires IsStaging(v, r) && StagingRoot(v, r).None? && r < p
    ensures StagingRoot(v, p) == Some(r)
    decreases |p|
  {
    var up := p[..|p| - 1];
    if up == r {
    } else {
      assert r < up;
      StagingRootBelow(v, r, up);
    }
  }

  lemma {:induction false} PrefixesAreDirs(disk: Disk, p: Path, n: nat)
    requires disk.Valid() && (p in disk.files || p in disk.dirs) && n < |p|
    ensures p[..n] in disk.dirs
    decreases |p|
  {
    var up := p[..|p| - 1];
    if n < |up| {
      assert up[..n] == p[..n];
      PrefixesAreDirs(disk, up, n);
    } else {
      assert up == p[..n];
    }
  }

  // ---- Reading directories ----

  function DirsBelow(dirs: set<Path>, p: Path): set<Path> { set d | d in dirs && p <= d }

  lemma FewerBelow(dirs: set<Path>, p: Path, c: Path)
    requires p in dirs && p < c
    ensures |DirsBelow(dirs, c)| < |DirsBelow(dirs, p)|
  {
    assert DirsBelow(dirs, c) <= DirsBelow(dirs, p) - {p};
    SubsetSize(DirsBelow(dirs, c), DirsBelow(dirs, p) - {p});
  }

  lemma {:induction false} SubsetSize(a: set<Path>, b: set<Path>)
    requires a <= b
    ensures |a| <= |b|
    decreases |a|
  {
    if a != {} {
      var x :| x in a;
      SubsetSize(a - {x}, b - {x});
    }
  }

  predicate EntryOf(disk: Disk, p: Path, files: map<Path, int>, c: Path)
  {
    (c in files || c in disk.dirs) && |c| == |p| + 1 && p < c
  }

  // The entries of a directory, each once.
  ghost predicate Entries(disk: Disk, p: Path, files: map<Path, int>, children: seq<Path>)
  {
    && (forall c :: c in children <==> EntryOf(disk, p, files, c))
    && (forall i, j :: 0 <= i < j < |children| ==> children[i] != children[j])
  }

  method ReadDir(disk: Disk, p: Path) returns (children: seq<Path>)
    ensures Entries(disk, p, disk.files, children)
  {
    var all := set c | c in disk.files.Keys + disk.dirs && EntryOf(disk, p, disk.files, c);
    var rest := all;
    children := [];
    while rest != {}
      invariant rest <= all && forall c :: c in children <==> c in all - rest
      invariant forall i, j :: 0 <= i < j < |children| ==> children[i] != children[j]
      decreases |rest|
    {
      var c :| c in rest;
      assert c !in children;
      rest := rest - {c};
      children := children + [c];
    }
  }

  // Whatever lies below a directory lies below one of its entries.
  lemma ChildOf(disk: Disk, p: Path, q: Path)
    requires disk.Valid() && p in disk.dirs && p < q && (q in disk.files || q in disk.dirs)
    ensures EntryOf(disk, p, disk.files, q[..|p| + 1]) && q[..|p| + 1] <= q
  {
    if |p| + 1 < |q| {
      PrefixesAreDirs(disk, q, |p| + 1);
    } else {
      assert q[..|p| + 1] == q;
    }
  }

  // What lies at or below one of the entries.
  ghost predicate UnderAny(children: seq<Path>, q: Path) { exists c :: c in children && Under(c, q) }

  ghost function BelowAny(children: seq<Path>): iset<Path> { iset q | UnderAny(children, q) }

  lemma BelowAnySnoc(children: seq<Path>, c: Path)
    ensures BelowAny(children + [c]) == BelowAny(children) + Below(c)
  {
  }

  lemma BelowAnyOf(disk: Disk, p: Path, children: seq<Path>, q: Path)
    requires disk.Valid() && p in disk.dirs && Entries(disk, p, disk.files, children) && q in disk.files
    ensures q in BelowAny(children) <==> q in Below(p)
  {
    if p <= q {
      assert p != q;
      ChildOf(disk, p, q);
      assert q[..|p| + 1] in children && Under(q[..|p| + 1], q);
    }
    if q in BelowAny(children) {
      var c :| c in children && Under(c, q);
      assert p < c <= q && Under(p, q);
    }
  }

  lemma FilesHoldNothing(disk: Disk, p: Path, q: Path)
    requires disk.Valid() && p in disk.files && q in disk.files && p <= q
    ensures p == q
  {
    assert q[..|p|] == p;
    if |p| < |q| { PrefixesAreDirs(disk, q, |p|); }
  }

  // ---- The inner walk ----

  predicate Listed(v: Sweep, now: int, p: Path, mtime: int)
  {
    p !in v.unreadable && Stale(v.grace, now, mtime)
  }

  // The entries are the stale files of the area.
  ghost predicate ListsStale(disk: Disk, v: Sweep, now: int, area: iset<Path>, entries: seq<Path>)
    reads disk
  {
    forall q :: q in entries <==> q in disk.files && q in area && Listed(v, now, q, disk.files[q])
  }

  method FindStaleStagingEntries(disk: Disk, v: Sweep, now: int, p: Path) returns (entries: seq<Path>)
    requires disk.Valid() && (p in disk.dirs || p in disk.files)
    ensures ListsStale(disk, v, now, Below(p), entries)
    decreases |DirsBelow(disk.dirs, p)|
  {
    entries := [];
    if p !in disk.dirs {
      forall q | q in disk.files && q in Below(p) ensures q == p { FilesHoldNothing(disk, p, q); }
      assert p in Below(p) by { assert Under(p, p); }
      if p !in v.unreadable && !(Sub(now, disk.files[p]) < v.grace) {
        entries := [p];
      }
      return;
    }
    var children := ReadDir(disk, p);
    var i := 0;
    while i < |children|
      invariant 0 <= i <= |children|
      invariant ListsStale(disk, v, now, BelowAny(children[..i]), entries)
    {
      var c := children[i];
      assert c in children;
      FewerBelow(disk.dirs, p, c);
      var found := FindStaleStagingEntries(disk, v, now, c);
      BelowAnySnoc(children[..i], c);
      assert children[..i + 1] == children[..i] + [c];
      entries := entries + found;
      i := i + 1;
    }
    assert children[..i] == children;
    forall q | q in disk.files ensures q in BelowAny(children) <==> q in Below(p) { BelowAnyOf(disk, p, children, q); }
  }

  // ---- The outer walk ----

  // A stale file of the area lies in the staging directory.
  ghost predicate HoldsStale(v: Sweep, area: iset<Path>, was: map<Path, int>, dir: Path)
  {
    exists p :: p in was && p in area && Found(v, p, was[p]) && StagingRoot(v, p) == Some(dir)
  }

  // What one staging directory reports.
  ghost predicate Reports(v: Sweep, area: iset<Path>, was: map<Path, int>, errs: seq<VacuumError>)
  {
    && (forall p :: p in was && p in area && Found(v, p, was[p]) && StagingRoot(v, p).value !in v.refused && !Doomed(v, p, was[p]) ==>
          exists e :: e in errs && e.EntryFails? && e.path == p)
    && (forall p :: p in was && p in area && Found(v, p, was[p]) && StagingRoot(v, p).value in v.refused ==>
          BatchFails(StagingRoot(v, p).value) in errs)
    && (forall e :: e in errs && e.EntryFails? ==> e.path in was && e.path in area && Found(v, e.path, was[e.path]) && !Doomed(v, e.path, was[e.path]))
    && (forall e :: e in errs && e.BatchFails? ==> e.dir in v.refused && HoldsStale(v, area, was, e.dir))
  }

  // The entries are the files found in the staging directory.
  ghost predicate FoundIn(v: Sweep, dir: Path, files: map<Path, int>, entries: seq<Path>)
  {
    && (forall q :: q in entries <==> q in files && q in Below(dir) && Found(v, q, files[q]))
    && (forall q :: q in entries ==> StagingRoot(v, q) == Some(dir))
  }

  // The positions whose removal fails.
  function Faults(v: Sweep, entries: seq<Path>): set<nat> { set i: nat | i < |entries| && entries[i] in v.stuck }

  lemma BatchSweeps(v: Sweep, dir: Path, was: map<Path, int>, entries: seq<Path>)
    requires FoundIn(v, dir, was, entries) && dir !in v.refused
    ensures Swept(v, Below(dir), was, was - Gone(dir, entries, Faults(v, entries)))
  {
    var gone := Gone(dir, entries, Faults(v, entries));
    GoneAre(dir, entries, Faults(v, entries));
    forall p | p in was && p in Below(dir) && Doomed(v, p, was[p]) ensures p in gone {
      assert p in entries;
      var i :| 0 <= i < |entries| && entries[i] == p;
      assert Attempted(dir, entries, Faults(v, entries), i);
    }
    forall p | p in gone ensures p in was && p in Below(dir) && Doomed(v, p, was[p]) {
      var i :| 0 <= i < |entries| && Attempted(dir, entries, Faults(v, entries), i) && entries[i] == p;
      assert p in entries;
    }
  }

  lemma BatchReports(v: Sweep, dir: Path, was: map<Path, int>, entries: seq<Path>, errs: seq<Option<RemoveError>>)
    requires FoundIn(v, dir, was, entries) && dir !in v.refused && |errs| == |entries|
    requires forall i :: 0 <= i < |entries| ==> errs[i] == FaultOf(dir, entries[i], i in Faults(v, entries))
    ensures Reports(v, Below(dir), was, EntryErrors(entries, errs))
  {
  }

  method SweepStagingDir(disk: Disk, v: Sweep, dir: Path) returns (errs: seq<VacuumError>)
    requires disk.Valid() && dir in disk.dirs && IsStaging(v, dir) && StagingRoot(v, dir).None?
    modifies disk
    ensures disk.Valid() && Swept(v, Below(dir), old(disk.files), disk.files)
    ensures Reports(v, Below(dir), old(disk.files), errs)
  {
    errs := [];
    var entries := FindStaleStagingEntries(disk, v, v.clock(dir), dir);
    forall q | q in disk.files && q in Below(dir) ensures StagingRoot(v, q) == Some(dir) {
      assert q != dir;
      StagingRootBelow(v, dir, q);
    }
    assert FoundIn(v, dir, disk.files, entries);
    ghost var was := disk.files;
    if |entries| > 0 {
      var _, pathErrs, refused := disk.RemoveBatch(BatchEnv(true, dir !in v.refused, true, Faults(v, entries)), dir, entries);
      if refused.Some? {
        errs := [BatchFails(dir)];
        assert entries[0] in entries;
        assert HoldsStale(v, Below(dir), was, dir);
      } else {
        errs := EntryErrors(entries, pathErrs);
        BatchSweeps(v, dir, was, entries);
        BatchReports(v, dir, was, entries, pathErrs);
      }
    } else {
      assert forall q :: q in was && q in Below(dir) ==> q !in entries;
    }
  }

  function EntryErrors(entries: seq<Path>, errs: seq<Option<RemoveError>>): (r: seq<VacuumError>)
    requires |entries| == |errs|
    ensures forall i :: 0 <= i < |errs| && errs[i].Some? ==> EntryFails(entries[i], errs[i].value) in r
    ensures forall e :: e in r ==> exists i :: 0 <= i < |errs| && errs[i].Some? && e == EntryFails(entries[i], errs[i].value)
    decreases |errs|
  {
    if errs == [] then []
    else
      var n := |errs| - 1;
      EntryErrors(entries[..n], errs[..n]) + if errs[n].Some? then [EntryFails(entries[n], errs[n].value)] else []
  }

  // ---- The outer walk ----

  // The outermost staging directories of the area.
  ghost predicate Outermost(disk: Disk, v: Sweep, p: Path)
  {
    p in disk.dirs && IsStaging(v, p) && StagingRoot(v, p).None?
  }

  // `visited` are the outermost staging directories of the area, each once.
  ghost predicate VisitsOnce(disk: Disk, v: Sweep, area: iset<Path>, visited: seq<Path>)
  {
    && (forall p :: p in visited <==> p in area && Outermost(disk, v, p))
    && (forall i, j :: 0 <= i < j < |visited| ==> visited[i] != visited[j])
  }

  // The area has been walked: `now` is what is left of the files, `errs` what was reported.
  ghost predicate Walked(
      disk: Disk, v: Sweep, area: iset<Path>, was: map<Path, int>, now: map<Path, int>,
      errs: seq<VacuumError>, visited: seq<Path>)
  {
    Swept(v, area, was, now) && Reports(v, area, was, errs) && VisitsOnce(disk, v, area, visited)
  }

  lemma StaleStays(v: Sweep, a: iset<Path>, b: iset<Path>, now: map<Path, int>, was: map<Path, int>, dir: Path)
    requires HoldsStale(v, a, now, dir) && (forall p :: p in now && p in a ==> p in b)
    requires forall p :: p in now ==> p in was && was[p] == now[p]
    ensures HoldsStale(v, b, was, dir)
  {
  }

  lemma WalksBoth(
      disk: Disk, v: Sweep, a: iset<Path>, b: iset<Path>, was: map<Path, int>, f1: map<Path, int>, f2: map<Path, int>,
      errs: seq<VacuumError>, more: seq<VacuumError>, visited: seq<Path>, next: seq<Path>)
    requires a !! b && Walked(disk, v, a, was, f1, errs, visited) && Walked(disk, v, b, f1, f2, more, next)
    ensures Walked(disk, v, a + b, was, f2, errs + more, visited + next)
  {
    SweptTwice(v, a, b, was, f1, f2);
    forall e | e in errs + more && e.BatchFails? ensures HoldsStale(v, a + b, was, e.dir) {
      if e in errs { StaleStays(v, a, a + b, was, was, e.dir); } else { StaleStays(v, b, a + b, f1, was, e.dir); }
    }
    forall i, j | 0 <= i < j < |visited + next| ensures (visited + next)[i] != (visited + next)[j] {
      if i < |visited| <= j { assert visited[i] in visited && next[j - |visited|] in next; }
    }
  }

  // One more entry of a directory has been walked.
  lemma WalksOn(
      disk: Disk, v: Sweep, p: Path, children: seq<Path>, i: nat, was: map<Path, int>, f1: map<Path, int>, f2: map<Path, int>,
      errs: seq<VacuumError>, more: seq<VacuumError>, visited: seq<Path>, next: seq<Path>)
    requires Entries(disk, p, was, children) && i < |children|
    requires Walked(disk, v, BelowAny(children[..i]), was, f1, errs, visited)
    requires Walked(disk, v, Below(children[i]), f1, f2, more, next)
    ensures Walked(disk, v, BelowAny(children[..i + 1]), was, f2, errs + more, visited + next)
  {
    var c := children[i];
    forall x | x in children[..i] ensures |x| == |p| + 1 { assert x in children; }
    assert c in children && c !in children[..i];
    SiblingsApart(children[..i], |p| + 1, c);
    WalksBoth(disk, v, BelowAny(children[..i]), Below(c), was, f1, f2, errs, more, visited, next);
    BelowAnySnoc(children[..i], c);
    assert children[..i + 1] == children[..i] + [c];
  }

  // Areas with the same files and the same outermost staging directories.
  lemma SameArea(disk: Disk, v: Sweep, a: iset<Path>, b: iset<Path>, was: map<Path, int>, now: map<Path, int>, errs: seq<VacuumError>, visited: seq<Path>)
    requires forall q :: q in was ==> (q in a <==> q in b)
    requires forall q :: Outermost(disk, v, q) ==> (q in a <==> q in b)
    requires Walked(disk, v, a, was, now, errs, visited)
    ensures Walked(disk, v, b, was, now, errs, visited)
  {
  }

  lemma SiblingsApart(children: seq<Path>, n: nat, c: Path)
    requires c !in children && |c| == n && forall x :: x in children ==> |x| == n
    ensures BelowAny(children) !! Below(c)
  {
    forall q | Under(c, q) ensures |q| >= n && c == q[..n] {}
    forall q | q in BelowAny(children) ensures q !in Below(c) {
      var x :| x in children && Under(x, q);
      assert x == q[..n];
    }
  }

  // A directory's entries have the area of the directory, but for itself.
  lemma EntriesCover(disk: Disk, v: Sweep, p: Path, children: seq<Path>)
    requires disk.Valid() && p in disk.dirs && Entries(disk, p, disk.files, children) && !IsStaging(v, p)
    ensures forall q :: q in disk.files ==> (q in BelowAny(children) <==> q in Below(p))
    ensures forall q :: Outermost(disk, v, q) ==> (q in BelowAny(children) <==> q in Below(p))
  {
    forall q | q in disk.files ensures q in BelowAny(children) <==> q in Below(p) { BelowAnyOf(disk, p, children, q); }
    forall q | Outermost(disk, v, q) && q in Below(p) ensures q in BelowAny(children) {
      ChildOf(disk, p, q);
      assert q[..|p| + 1] in children && Under(q[..|p| + 1], q);
    }
    forall q | Outermost(disk, v, q) && q in BelowAny(children) ensures q in Below(p) {
      var c :| c in children && Under(c, q);
      assert p < c <= q && Under(p, q);
    }
  }

  // Below a staging directory there is no other outermost one.
  lemma NestedAreNotOutermost(disk: Disk, v: Sweep, p: Path)
    requires Outermost(disk, v, p)
    ensures VisitsOnce(disk, v, Below(p), [p])
  {
    assert Under(p, p);
    forall q | q in Below(p) && Outermost(disk, v, q) ensures q == p {
      assert Under(p, q);
      if q != p { StagingRootBelow(v, p, q); }
    }
  }

  lemma DirsAreNotBelowFiles(disk: Disk, p: Path, q: Path)
    requires disk.Valid() && p in disk.files && q in disk.dirs
    ensures !(p <= q)
  {
    if p <= q {
      assert q[..|p|] == p;
      assert |p| == |q| ==> p == q;
      if |p| < |q| { PrefixesAreDirs(disk, q, |p|); }
    }
  }

  // WalkDir hands a plain file to the callback, which does nothing.
  lemma FilesAreLeft(disk: Disk, v: Sweep, p: Path)
    requires disk.Valid() && p in disk.files && StagingRoot(v, p).None?
    ensures Walked(disk, v, Below(p), disk.files, disk.files, [], [])
  {
    forall q | q in disk.files && q in Below(p) ensures q == p { FilesHoldNothing(disk, p, q); }
    forall q | q in disk.dirs && q in Below(p) ensures false { DirsAreNotBelowFiles(disk, p, q); }
  }

  method Walk(disk: Disk, v: Sweep, p: Path) returns (errs: seq<VacuumError>, ghost visited: seq<Path>)
    requires disk.Valid() && (p in disk.dirs || p in disk.files) && StagingRoot(v, p).None?
    modifies disk
    ensures disk.Valid() && Walked(disk, v, Below(p), old(disk.files), disk.files, errs, visited)
    decreases |DirsBelow(disk.dirs, p)|, 1
  {
    if p !in disk.dirs {
      FilesAreLeft(disk, v, p);
      return [], [];
    }
    if IsStaging(v, p) {
      errs := SweepStagingDir(disk, v, p);
      visited := [p];
      NestedAreNotOutermost(disk, v, p);
      return;
    }
    errs, visited := WalkEntries(disk, v, p);
  }

  // A directory's entries, read once and walked one after the other.
  method WalkEntries(disk: Disk, v: Sweep, p: Path) returns (errs: seq<VacuumError>, ghost visited: seq<Path>)
    requires disk.Valid() && p in disk.dirs && StagingRoot(v, p).None? && !IsStaging(v, p)
    modifies disk
    ensures disk.Valid() && Walked(disk, v, Below(p), old(disk.files), disk.files, errs, visited)
    decreases |DirsBelow(disk.dirs, p)|, 0
  {
    errs, visited := [], [];
    var children := ReadDir(disk, p);
    EntriesCover(disk, v, p, children);
    ghost var was := disk.files;
    var i := 0;
    while i < |children|
      invariant 0 <= i <= |children| && disk.Valid()
      invariant Walked(disk, v, BelowAny(children[..i]), was, disk.files, errs, visited)
    {
      EntryIsWalked(disk, v, p, children, i, was);
      ghost var f1 := disk.files;
      var more;
      ghost var next;
      more, next := Walk(disk, v, children[i]);
      WalksOn(disk, v, p, children, i, was, f1, disk.files, errs, more, visited, next);
      errs := errs + more;
      visited := visited + next;
      i := i + 1;
    }
    assert children[..i] == children;
    SameArea(disk, v, BelowAny(children), Below(p), was, disk.files, errs, visited);
  }

  lemma EntryIsWalked(disk: Disk, v: Sweep, p: Path, children: seq<Path>, i: nat, was: map<Path, int>)
    requires disk.Valid() && p in disk.dirs && StagingRoot(v, p).None? && !IsStaging(v, p)
    requires Entries(disk, p, was, children) && i < |children| && Swept(v, BelowAny(children[..i]), was, disk.files)
    ensures children[i] in disk.dirs || children[i] in disk.files
    ensures StagingRoot(v, children[i]).None? && |DirsBelow(disk.dirs, children[i])| < |DirsBelow(disk.dirs, p)|
  {
    var c := children[i];
    assert c in children;
    assert c[..|c| - 1] == p;
    FewerBelow(disk.dirs, p, c);
  }

  // The directory of a stale file is an outermost staging directory.
  lemma {:induction false} RootIsOutermost(disk: Disk, v: Sweep, p: Path)
    requires disk.Valid() && (p in disk.files || p in disk.dirs) && StagingRoot(v, p).Some?
    ensures Outermost(disk, v, StagingRoot(v, p).value)
    decreases |p|
  {
    var up := p[..|p| - 1];
    if StagingRoot(v, up).Some? { RootIsOutermost(disk, v, up); }
  }

  lemma StaleIsVisited(disk: Disk, v: Sweep, was: map<Path, int>, d: Path, visited: seq<Path>)
    requires HoldsStale(v, Below([]), was, d) && VisitsOnce(disk, v, Below([]), visited)
    requires forall p :: p in was ==> StagingRoot(v, p).Some? ==> Outermost(disk, v, StagingRoot(v, p).value)
    ensures d in visited
  {
  }

  // The whole call: of all files below the prefix exactly the doomed ones go, every
  // outermost staging directory is visited exactly once, and every stale file that
  // stays is reported.
  method VacuumStagingBlobs(disk: Disk, v: Sweep) returns (errs: seq<VacuumError>, ghost visited: seq<Path>)
    requires disk.Valid()
    modifies disk
    ensures disk.files == map p | p in old(disk.files) && !Doomed(v, p, old(disk.files)[p]) :: old(disk.files)[p]
    ensures forall p :: p in visited <==> Outermost(disk, v, p)
    ensures forall i, j :: 0 <= i < j < |visited| ==> visited[i] != visited[j]
    ensures forall p :: p in old(disk.files) && p in disk.files && Found(v, p, old(disk.files)[p]) ==>
      BatchFails(StagingRoot(v, p).value) in errs || exists e :: e in errs && e.EntryFails? && e.path == p
    ensures forall e :: e in errs && e.EntryFails? ==> e.path in disk.files && Found(v, e.path, disk.files[e.path])
    ensures forall d :: BatchFails(d) in errs <==> d in v.refused && HoldsStale(v, Below([]), old(disk.files), d)
    ensures forall d :: BatchFails(d) in errs ==> d in visited
  {
    errs, visited := [], [];
    if [] !in disk.dirs {
      forall p | p in disk.files ensures false { PrefixesAreDirs(disk, p, 0); }
      forall p | p in disk.dirs ensures false { if p != [] { PrefixesAreDirs(disk, p, 0); } }
      return;
    }
    ghost var was := disk.files;
    forall p | p in was && StagingRoot(v, p).Some? ensures Outermost(disk, v, StagingRoot(v, p).value) { RootIsOutermost(disk, v, p); }
    errs, visited := Walk(disk, v, []);
    forall d | HoldsStale(v, Below([]), was, d) ensures d in visited { StaleIsVisited(disk, v, was, d, visited); }
    assert forall p: Path :: p in Below([]) <== Under([], p);
    assert forall p: Path :: Under([], p);
  }
}
