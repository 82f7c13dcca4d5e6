// BatchDeleteBlobs of internal/blobstore/fs/deleter.go.
module BatchDelete {
  import opened Basics
  import opened Digests
  import opened Directories

  datatype DeleteError =
    | Cancelled
    | Malformed(digest: Digest)
    | Refused(batch: BatchError)
    | Failed(path: Path, cause: RemoveError)

  // The joined errors, wrapped in ErrPartialDeletion or not; none of them is nil.
  datatype Report = Report(partial: bool, errors: seq<DeleteError>)

  // buildBlobPath below the prefix, in the namespace's directory.
  function BlobPath(dir: Path, d: Digest): Path { dir + [Algorithm(d), Hex(d)] }

  function Paths(dir: Path, digests: seq<Digest>): seq<Path>
  {
    if digests == [] then []
    else Paths(dir, digests[..|digests| - 1])
         + if ValidDigest(digests[|digests| - 1]) then [BlobPath(dir, digests[|digests| - 1])] else []
  }

  function MalformedOnes(digests: seq<Digest>): seq<DeleteError>
  {
    if digests == [] then []
    else MalformedOnes(digests[..|digests| - 1])
         + if ValidDigest(digests[|digests| - 1]) then [] else [Malformed(digests[|digests| - 1])]
  }

  // The non-nil errors, each with the path at its position.
  function Failures(paths: seq<Path>, errs: seq<Option<RemoveError>>): (r: seq<DeleteError>)
    requires |errs| == |paths|
    ensures forall i :: 0 <= i < |errs| && errs[i].Some? ==> Failed(paths[i], errs[i].value) in r
    ensures forall e :: e in r ==> exists i :: 0 <= i < |errs| && errs[i].Some? && e == Failed(paths[i], errs[i].value)
    decreases |errs|
  {
    if errs == [] then []
    else
      var n := |errs| - 1;
      Failures(paths[..n], errs[..n]) + if errs[n].Some? then [Failed(paths[n], errs[n].value)] else []
  }

  lemma BlobPathInjective(dir: Path, a: Digest, b: Digest)
    requires ValidDigest(a) && ValidDigest(b) && BlobPath(dir, a) == BlobPath(dir, b)
    ensures a == b
  {
    DigestParts(a);
    DigestParts(b);
    assert BlobPath(dir, a)[|dir|] == Algorithm(a) && BlobPath(dir, a)[|dir| + 1] == Hex(a);
    assert BlobPath(dir, b)[|dir|] == Algorithm(b) && BlobPath(dir, b)[|dir| + 1] == Hex(b);
  }

  // A blob's path is below its namespace's directory and never refused.
  lemma BlobPathStays(dir: Path, d: Digest)
    requires ValidDigest(d)
    ensures !Escapes(dir, BlobPath(dir, d))
  {
  }

  lemma {:induction false} PathsAre(dir: Path, digests: seq<Digest>)
    ensures forall d :: d in digests && ValidDigest(d) ==> BlobPath(dir, d) in Paths(dir, digests)
    ensures forall p :: p in Paths(dir, digests) ==> exists d :: d in digests && ValidDigest(d) && p == BlobPath(dir, d)
    decreases |digests|
  {
    if digests != [] {
      var rest, last := digests[..|digests| - 1], digests[|digests| - 1];
      PathsAre(dir, rest);
      assert digests == rest + [last];
      forall p | p in Paths(dir, digests) ensures exists d :: d in digests && ValidDigest(d) && p == BlobPath(dir, d) {
        if p in Paths(dir, rest) {
          var d :| d in rest && ValidDigest(d) && p == BlobPath(dir, d);
          assert d in digests;
        } else {
          assert last in digests && p == BlobPath(dir, last);
        }
      }
    }
  }

  // The valid digests, each with at least one occurrence whose removal does not fail.
  ghost function Deletable(dir: Path, digests: seq<Digest>, faults: set<nat>): set<Digest>
  {
    set d | d in digests && ValidDigest(d) && BlobPath(dir, d) in Gone(dir, Paths(dir, digests), faults)
  }

  lemma {:induction false} SameSize(dir: Path, ds: set<Digest>, ps: set<Path>)
    requires forall d :: d in ds ==> ValidDigest(d)
    requires ps == set d | d in ds :: BlobPath(dir, d)
    ensures |ps| == |ds|
    decreases |ds|
  {
    if ds != {} {
      var d :| d in ds;
      var ps' := set x | x in ds - {d} :: BlobPath(dir, x);
      forall x | x in ds - {d} ensures BlobPath(dir, x) != BlobPath(dir, d) {
        if BlobPath(dir, x) == BlobPath(dir, d) { BlobPathInjective(dir, x, d); }
      }
      assert ps == ps' + {BlobPath(dir, d)};
      SameSize(dir, ds - {d}, ps');
    }
  }

  // Counting removed files counts each distinct digest once.
  lemma CountsDigests(dir: Path, files: map<Path, int>, digests: seq<Digest>, faults: set<nat>)
    ensures |files.Keys * Gone(dir, Paths(dir, digests), faults)|
         == |set d | d in Deletable(dir, digests, faults) && BlobPath(dir, d) in files|
  {
    PathsAre(dir, digests);
    var ds := set d | d in Deletable(dir, digests, faults) && BlobPath(dir, d) in files;
    var ps := set d | d in ds :: BlobPath(dir, d);
    var paths := Paths(dir, digests);
    GoneAre(dir, paths, faults);
    forall p | p in files.Keys * Gone(dir, paths, faults) ensures p in ps {
      assert p in paths;
      var d :| d in digests && ValidDigest(d) && p == BlobPath(dir, d);
      assert d in ds;
    }
    assert files.Keys * Gone(dir, paths, faults) == ps;
    SameSize(dir, ds, ps);
  }

  // What the caller may rely on.  `was` and `now` are the files before and after.
  ghost predicate Accounted(dir: Path, digests: seq<Digest>, was: map<Path, int>, now: map<Path, int>, removed: nat, r: Report)
  {
    // Nothing else goes.
    && (forall p :: p in was && p !in now ==> exists d :: d in digests && ValidDigest(d) && p == BlobPath(dir, d))
    && (forall p :: p in now ==> p in was && now[p] == was[p])
    // Each valid digest is absent afterwards, or its failure is reported.
    && (forall d :: d in digests && ValidDigest(d) ==>
          || BlobPath(dir, d) !in now
          || (exists e :: e in r.errors && (e.Cancelled? || e.Refused? || (e.Failed? && e.path == BlobPath(dir, d)))))
    && (forall d :: d in digests && !ValidDigest(d) ==> Malformed(d) in r.errors || r.errors == [Cancelled])
    // The count is of distinct digests whose file went.
    && removed == |set d | d in digests && ValidDigest(d) && BlobPath(dir, d) in was && BlobPath(dir, d) !in now|
    && (r.partial <==> removed > 0 && r.errors != [])
  }

  lemma {:induction false} MalformedAreReported(digests: seq<Digest>, d: Digest)
    requires d in digests && !ValidDigest(d)
    ensures Malformed(d) in MalformedOnes(digests)
    decreases |digests|
  {
    var rest, last := digests[..|digests| - 1], digests[|digests| - 1];
    if d != last {
      assert digests == rest + [last];
      MalformedAreReported(rest, d);
    }
  }

  // What was not attempted is reported.
  lemma FailuresAreReported(dir: Path, digests: seq<Digest>, faults: set<nat>, pathErrs: seq<Option<RemoveError>>, d: Digest)
    requires var paths := Paths(dir, digests);
      |pathErrs| == |paths| && forall i :: 0 <= i < |paths| ==> (pathErrs[i].None? <==> Attempted(dir, paths, faults, i))
    requires d in digests && ValidDigest(d) && BlobPath(dir, d) !in Gone(dir, Paths(dir, digests), faults)
    ensures exists e :: e in Failures(Paths(dir, digests), pathErrs) && e.Failed? && e.path == BlobPath(dir, d)
  {
    var paths := Paths(dir, digests);
    PathsAre(dir, digests);
    GoneAre(dir, paths, faults);
    var i :| 0 <= i < |paths| && paths[i] == BlobPath(dir, d);
    assert !Attempted(dir, paths, faults, i);
    assert Failed(paths[i], pathErrs[i].value) in Failures(paths, pathErrs);
  }

  lemma OnlyNamedGo(dir: Path, digests: seq<Digest>, faults: set<nat>, p: Path)
    requires p in Gone(dir, Paths(dir, digests), faults)
    ensures exists d :: d in digests && ValidDigest(d) && p == BlobPath(dir, d)
  {
    PathsAre(dir, digests);
    GoneAre(dir, Paths(dir, digests), faults);
    assert p in Paths(dir, digests);
  }

  // The count of removed files, as a count of digests.
  lemma RemovedDigests(dir: Path, files: map<Path, int>, digests: seq<Digest>, faults: set<nat>)
    ensures var gone := Gone(dir, Paths(dir, digests), faults);
      |files.Keys * gone| == |set d | d in digests && ValidDigest(d) && BlobPath(dir, d) in files && BlobPath(dir, d) !in files - gone|
  {
    var gone := Gone(dir, Paths(dir, digests), faults);
    CountsDigests(dir, files, digests, faults);
    assert (set d | d in Deletable(dir, digests, faults) && BlobPath(dir, d) in files)
        == (set d | d in digests && ValidDigest(d) && BlobPath(dir, d) in files && BlobPath(dir, d) !in files - gone);
  }

  // The batch was carried out.
  lemma SubmittedAccounts(
      dir: Path, digests: seq<Digest>, was: map<Path, int>, faults: set<nat>,
      pathErrs: seq<Option<RemoveError>>, r: Report)
    requires var paths := Paths(dir, digests);
      |pathErrs| == |paths| && forall i :: 0 <= i < |paths| ==> (pathErrs[i].None? <==> Attempted(dir, paths, faults, i))
    requires r.errors == MalformedOnes(digests) + Failures(Paths(dir, digests), pathErrs)
    requires r.partial <==> |was.Keys * Gone(dir, Paths(dir, digests), faults)| > 0 && r.errors != []
    ensures var gone := Gone(dir, Paths(dir, digests), faults);
      Accounted(dir, digests, was, was - gone, |was.Keys * gone|, r)
  {
    var gone := Gone(dir, Paths(dir, digests), faults);
    forall d | d in digests && !ValidDigest(d) ensures Malformed(d) in r.errors { MalformedAreReported(digests, d); }
    forall d | d in digests && ValidDigest(d) && BlobPath(dir, d) in was - gone
      ensures exists e :: e in r.errors && e.Failed? && e.path == BlobPath(dir, d)
    {
      FailuresAreReported(dir, digests, faults, pathErrs, d);
      var e :| e in Failures(Paths(dir, digests), pathErrs) && e.Failed? && e.path == BlobPath(dir, d);
      assert e in r.errors;
    }
    forall p | p in gone ensures exists d :: d in digests && ValidDigest(d) && p == BlobPath(dir, d) {
      OnlyNamedGo(dir, digests, faults, p);
    }
    RemovedDigests(dir, was, digests, faults);
  }

  // The batch was not carried out: the files stay, and either that is reported or there
  // was nothing to delete.
  lemma UnsubmittedAccounts(dir: Path, digests: seq<Digest>, was: map<Path, int>, refused: Option<BatchError>, r: Report)
    requires r == Report(false, MalformedOnes(digests) + if refused.Some? then [Refused(refused.value)] else [])
    requires refused.None? ==> forall d :: d in digests && ValidDigest(d) ==> BlobPath(dir, d) !in was
    ensures Accounted(dir, digests, was, was, 0, r)
  {
    forall d | d in digests && !ValidDigest(d) ensures Malformed(d) in r.errors { MalformedAreReported(digests, d); }
    if refused.Some? { assert Refused(refused.value) in r.errors; }
    assert (set d | d in digests && ValidDigest(d) && BlobPath(dir, d) in was && BlobPath(dir, d) !in was) == {};
  }

  // A blob's file has its namespace's directory above it.
  lemma DirectoryExists(disk: Disk, dir: Path, d: Digest)
    requires disk.Valid() && BlobPath(dir, d) in disk.files
    ensures dir in disk.dirs
  {
    var p := BlobPath(dir, d);
    assert p[..|p| - 1] == dir + [Algorithm(d)];
    assert (dir + [Algorithm(d)])[..|dir|] == dir;
  }

  // The path failures reported are those of the positions whose removal failed, and
  // nothing is reported beside them and the malformed digests.
  ghost predicate Aligned(dir: Path, digests: seq<Digest>, faults: set<nat>, errors: seq<DeleteError>)
  {
    var paths := Paths(dir, digests);
    && (forall e :: e in errors ==> e in MalformedOnes(digests) || exists i :: i in faults && i < |paths| && e == Failed(paths[i], RemoveFails))
    && (forall i :: i in faults && i < |paths| ==> Failed(paths[i], RemoveFails) in errors)
  }

  lemma FailuresAlign(dir: Path, digests: seq<Digest>, faults: set<nat>, pathErrs: seq<Option<RemoveError>>)
    requires var paths := Paths(dir, digests);
      && |pathErrs| == |paths|
      && forall i :: 0 <= i < |paths| ==> pathErrs[i] == FaultOf(dir, paths[i], i in faults)
    ensures Aligned(dir, digests, faults, MalformedOnes(digests) + Failures(Paths(dir, digests), pathErrs))
  {
    var paths := Paths(dir, digests);
    PathsAre(dir, digests);
    forall i | 0 <= i < |paths| ensures !Escapes(dir, paths[i]) {
      assert paths[i] in paths;
      var d :| d in digests && ValidDigest(d) && paths[i] == BlobPath(dir, d);
      BlobPathStays(dir, d);
    }
    forall i | i in faults && i < |paths| ensures Failed(paths[i], RemoveFails) in Failures(paths, pathErrs) {
      assert pathErrs[i] == Some(RemoveFails);
    }
  }

  method BatchDeleteBlobs(disk: Disk, live: bool, env: BatchEnv, dir: Path, digests: seq<Digest>) returns (ghost removed: nat, r: Report)
    requires disk.Valid()
    // No namespace has the form of a blob path.
    requires forall d :: d in digests ==> BlobPath(dir, d) !in disk.dirs
    modifies disk
    ensures Accounted(dir, digests, old(disk.files), disk.files, removed, r)
    ensures live && Submitted(disk.dirs, env, dir, Paths(dir, digests)) ==> Aligned(dir, digests, env.faults, r.errors)
    ensures live && Refusal(disk.dirs, env, dir, Paths(dir, digests)).None? && dir !in disk.dirs ==> r.errors == MalformedOnes(digests)
  {
    if !live {
      assert (set d | d in digests && ValidDigest(d) && BlobPath(dir, d) in disk.files && BlobPath(dir, d) !in disk.files) == {};
      removed, r := 0, Report(false, [Cancelled]);
      assert Cancelled in r.errors;
      return;
    }
    var paths, errs := CollectPaths(dir, digests);
    PathsAre(dir, digests);
    forall d | d in digests && BlobPath(dir, d) in disk.files ensures dir in disk.dirs { DirectoryExists(disk, dir, d); }
    ghost var was := disk.files;
    var count, pathErrs, refused := disk.RemoveBatch(env, dir, paths);
    if refused.Some? {
      errs := errs + [Refused(refused.value)];
    }
    errs := errs + PathErrors(paths, pathErrs);
    removed, r := count, Report(count > 0 && errs != [], errs);
    if Submitted(disk.dirs, env, dir, paths) {
      SubmittedAccounts(dir, digests, was, env.faults, pathErrs, r);
      FailuresAlign(dir, digests, env.faults, pathErrs);
    } else {
      UnsubmittedAccounts(dir, digests, was, refused, r);
    }
  }

  // errors.Join drops nil errors, however many there are.
  function PathErrors(paths: seq<Path>, errs: seq<Option<RemoveError>>): (r: seq<DeleteError>)
    ensures (forall i :: 0 <= i < |errs| ==> errs[i].None?) ==> r == []
  {
    if |errs| == |paths| then
      var r := Failures(paths, errs);
      assert r != [] ==> r[0] in r;
      r
    else []
  }

  method CollectPaths(dir: Path, digests: seq<Digest>) returns (paths: seq<Path>, errs: seq<DeleteError>)
    ensures paths == Paths(dir, digests) && errs == MalformedOnes(digests)
  {
    paths, errs := [], [];
    var i := 0;
    while i < |digests|
      invariant 0 <= i <= |digests|
      invariant paths == Paths(dir, digests[..i]) && errs == MalformedOnes(digests[..i])
    {
      assert digests[..i + 1][..i] == digests[..i];
      if !ValidDigest(digests[i]) {
        errs := errs + [Malformed(digests[i])];
      } else {
        paths := paths + [BlobPath(dir, digests[i])];
      }
      i := i + 1;
    }
    assert digests[..i] == digests;
  }
}
