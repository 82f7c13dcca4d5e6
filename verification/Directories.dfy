// The directory tree under the store's prefix, and removeCommandPaths of
// internal/blobstore/fs/vacuum.go.
module Directories {
  import opened Basics

  // Components below the prefix.
  type Path = seq<string>

  // A path that could not be removed.
  datatype RemoveError = PathEscapesRoot | RemoveFails

  // A batch that could not be submitted.
  datatype BatchError = NotStarted | RootFails | ContextDone

  // What befalls one removeBatch: whether the pool runs, the directory opens and the
  // command is admitted before the context ends, and the positions whose removal fails.
  datatype BatchEnv = BatchEnv(started: bool, opens: bool, admitted: bool, faults: set<nat>)

  // What filepath.Rel and the check after it reject: anything not strictly below `root`,
  // and also any name below it that merely begins with two dots.
  predicate Escapes(root: Path, path: Path)
  {
    !(root < path) || ".." <= path[|root|]
  }

  // The number of leading components two paths share.
  function Common(root: Path, path: Path): (n: nat)
    ensures n <= |root| && n <= |path| && root[..n] == path[..n]
    ensures n < |root| && n < |path| ==> root[n] != path[n]
  {
    if root == [] || path == [] || root[0] != path[0] then 0
    else
      var n := Common(root[1..], path[1..]);
      assert root[..n + 1] == [root[0]] + root[1..][..n] && path[..n + 1] == [path[0]] + path[1..][..n];
      n + 1
  }

  // filepath.Rel: up from `root` to where the paths part, and down again to `path`.
  function Rel(root: Path, path: Path): Path
  {
    seq(|root| - Common(root, path), _ => "..") + path[Common(root, path)..]
  }

  function Text(path: Path): string
  {
    if path == [] then "." else if |path| == 1 then path[0] else path[0] + "/" + Text(path[1..])
  }

  // For clean paths, the text of filepath.Rel is refused exactly as `Escapes` says.
  lemma EscapesExactly(root: Path, path: Path)
    requires forall i :: 0 <= i < |path| ==> path[i] != "" && path[i] != "."
    ensures Escapes(root, path) <==> Text(Rel(root, path)) == "." || ".." <= Text(Rel(root, path))
  {
    var n, rel := Common(root, path), Rel(root, path);
    if rel == [] {
      assert n == |root| == |path|;
    } else if n < |root| {
      assert rel[0] == "..";
      assert ".." <= Text(rel);
      assert !(root < path);
    } else {
      assert root < path && rel[0] == path[|root|];
      assert Text(rel) == rel[0] || Text(rel) == rel[0] + "/" + Text(rel[1..]);
      if ".." <= Text(rel) { assert Text(rel)[1] == '.' && Text(rel)[0] == '.'; assert |rel[0]| > 1; }
    }
  }

  // What removing one path reports.
  function FaultOf(root: Path, path: Path, fails: bool): Option<RemoveError>
  {
    if Escapes(root, path) then Some(PathEscapesRoot) else if fails then Some(RemoveFails) else None
  }

  // The attempt at index `i` is let through and the operating system does not fail it.
  predicate Attempted(root: Path, paths: seq<Path>, faults: set<nat>, i: nat)
    requires i < |paths|
  {
    FaultOf(root, paths[i], i in faults).None?
  }

  // The paths one batch removes if they exist.
  function Gone(root: Path, paths: seq<Path>, faults: set<nat>): set<Path>
  {
    if paths == [] then {}
    else
      var n := |paths| - 1;
      Gone(root, paths[..n], faults) + if Attempted(root, paths, faults, n) then {paths[n]} else {}
  }

  lemma {:induction false} GoneAre(root: Path, paths: seq<Path>, faults: set<nat>)
    ensures forall i :: 0 <= i < |paths| && Attempted(root, paths, faults, i) ==> paths[i] in Gone(root, paths, faults)
    ensures forall p :: p in Gone(root, paths, faults) ==>
      exists i :: 0 <= i < |paths| && Attempted(root, paths, faults, i) && paths[i] == p
    decreases |paths|
  {
    if paths != [] {
      var n := |paths| - 1;
      var rest := paths[..n];
      GoneAre(root, rest, faults);
      forall i | 0 <= i < |paths| && Attempted(root, paths, faults, i) ensures paths[i] in Gone(root, paths, faults) {
        if i < n { assert Attempted(root, rest, faults, i); }
      }
      forall p | p in Gone(root, paths, faults)
        ensures exists i :: 0 <= i < |paths| && Attempted(root, paths, faults, i) && paths[i] == p
      {
        if p in Gone(root, rest, faults) {
          var i :| 0 <= i < |rest| && Attempted(root, rest, faults, i) && rest[i] == p;
          assert Attempted(root, paths, faults, i) && paths[i] == p;
        } else {
          assert Attempted(root, paths, faults, n) && paths[n] == p;
        }
      }
    }
  }

  // The files and the errors after a batch, one path at a time.
  function AfterBatch(files: map<Path, int>, root: Path, paths: seq<Path>, faults: set<nat>): (map<Path, int>, seq<Option<RemoveError>>)
  {
    if paths == [] then (files, [])
    else
      var n := |paths| - 1;
      var (rest, errs) := AfterBatch(files, root, paths[..n], faults);
      var err := FaultOf(root, paths[n], n in faults);
      (if err.None? then rest - {paths[n]} else rest, errs + [err])
  }

  lemma {:induction false} AfterBatchIs(files: map<Path, int>, root: Path, paths: seq<Path>, faults: set<nat>)
    ensures AfterBatch(files, root, paths, faults).0 == files - Gone(root, paths, faults)
    ensures |AfterBatch(files, root, paths, faults).1| == |paths|
    ensures forall i :: 0 <= i < |paths| ==> AfterBatch(files, root, paths, faults).1[i] == FaultOf(root, paths[i], i in faults)
    decreases |paths|
  {
    if paths != [] { AfterBatchIs(files, root, paths[..|paths| - 1], faults); }
  }

  // Why the batch is not submitted, if it is not.
  function Refusal(dirs: set<Path>, env: BatchEnv, root: Path, paths: seq<Path>): Option<BatchError>
  {
    if !env.started then Some(NotStarted)
    else if paths == [] || root !in dirs then None
    else if !env.opens then Some(RootFails)
    else if !env.admitted then Some(BatchError.ContextDone)
    else None
  }

  // The batch reaches a worker.
  predicate Submitted(dirs: set<Path>, env: BatchEnv, root: Path, paths: seq<Path>)
  {
    env.started && paths != [] && root in dirs && env.opens && env.admitted
  }

  class Disk {
    // The modification times of the files, and the directories.
    var files: map<Path, int>
    const dirs: set<Path>

    // Every entry is in a directory, and no name is both.
    ghost predicate Valid()
      reads this
    {
      && dirs !! files.Keys
      && (forall p :: p in files ==> p != [] && p[..|p| - 1] in dirs)
      && (forall p :: p in dirs && p != [] ==> p[..|p| - 1] in dirs)
    }

    constructor (files: map<Path, int>, dirs: set<Path>)
      ensures this.files == files && this.dirs == dirs
    {
      this.files := files;
      this.dirs := dirs;
    }

    // One path of a batch.  A file that is already gone is not an error.
    method Attempt(root: Path, path: Path, fault: bool) returns (existed: bool, err: Option<RemoveError>)
      modifies this
      ensures err == FaultOf(root, path, fault)
      ensures files == if err.None? then old(files) - {path} else old(files)
      ensures existed <==> err.None? && path in old(files)
      ensures |files| == |old(files)| - if existed then 1 else 0
    {
      if Escapes(root, path) {
        return false, Some(PathEscapesRoot);
      }
      if fault {
        return false, Some(RemoveFails);
      }
      existed, err := path in files, None;
      assert files.Keys == if existed then (files - {path}).Keys + {path} else (files - {path}).Keys;
      files := files - {path};
    }

    // Duplicates are attempted again.
    method RemoveCommandPaths(root: Path, paths: seq<Path>, faults: set<nat>) returns (removed: nat, errs: seq<Option<RemoveError>>)
      requires forall p :: p in paths ==> p !in dirs
      modifies this
      ensures files == old(files) - Gone(root, paths, faults)
      ensures removed == |old(files).Keys * Gone(root, paths, faults)|
      ensures |errs| == |paths|
      ensures forall i :: 0 <= i < |paths| ==> errs[i] == FaultOf(root, paths[i], i in faults)
    {
      ghost var was := files;
      removed, errs := 0, [];
      var i := 0;
      while i < |paths|
        invariant 0 <= i <= |paths| && |errs| == i
        invariant (files, errs) == AfterBatch(was, root, paths[..i], faults)
        invariant removed + |files| == |was|
      {
        var existed, err := Attempt(root, paths[i], i in faults);
        errs := errs + [err];
        if existed {
          removed := removed + 1;
        }
        assert paths[..i + 1][..i] == paths[..i];
        i := i + 1;
      }
      assert paths[..i] == paths;
      AfterBatchIs(was, root, paths, faults);
      RemovedCount(was, Gone(root, paths, faults));
    }

    // removeBatch as its caller sees it.
    method RemoveBatch(env: BatchEnv, root: Path, paths: seq<Path>)
        returns (removed: nat, errs: seq<Option<RemoveError>>, refused: Option<BatchError>)
      requires forall p :: p in paths ==> p !in dirs
      modifies this
      ensures refused == Refusal(dirs, env, root, paths)
      ensures !Submitted(dirs, env, root, paths) ==> files == old(files) && removed == 0 && forall i :: 0 <= i < |errs| ==> errs[i].None?
      ensures Submitted(dirs, env, root, paths) ==>
        && files == old(files) - Gone(root, paths, env.faults)
        && removed == |old(files).Keys * Gone(root, paths, env.faults)|
        && |errs| == |paths|
        && forall i :: 0 <= i < |paths| ==> errs[i] == FaultOf(root, paths[i], i in env.faults)
    {
      if !env.started {
        return 0, [], Some(NotStarted);
      }
      if paths == [] {
        return 0, [], None;
      }
      if root !in dirs {
        return 0, seq(|paths|, _ => None), None;
      }
      if !env.opens {
        return 0, [], Some(RootFails);
      }
      if !env.admitted {
        return 0, [], Some(BatchError.ContextDone);
      }
      removed, errs := RemoveCommandPaths(root, paths, env.faults);
      refused := None;
    }
  }

  lemma RemovedCount(files: map<Path, int>, gone: set<Path>)
    ensures |files| == |files - gone| + |files.Keys * gone|
  {
  }
}
