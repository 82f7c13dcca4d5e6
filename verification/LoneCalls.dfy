// The two descriptions of a store call agree: what the system calls of Interleaving can
// lead to when no other call runs in between is exactly what BlobStoreSpec says.
module LoneCalls {
  import opened Basics
  import opened Digests
  import opened FileSystem
  import opened Interleaving
  import Blobs = BlobStoreSpec

  predicate OfCall(t: Step, c: nat) { !t.Initiate? && !t.Start? && !t.VacuumUnlinks? && t.c == c }

  ghost predicate Alone(H: Hashes, s: State, run: seq<Step>, c: nat)
  {
    Possible(H, s, run) && forall i :: 0 <= i < |run| ==> OfCall(run[i], c)
  }

  // Running alone, the call can come to `pc` and leave the files as `fs`.
  ghost predicate Ends(H: Hashes, s: State, c: nat, fs: Files, pc: Pc)
  {
    exists run ::
      && Alone(H, s, run, c)
      && After(H, s, run).fs == fs && c in After(H, s, run).calls && After(H, s, run).calls[c] == pc
  }

  function OutcomeOf<T>(r: Result<T, Blobs.BlobError>): Outcome
  {
    match r
    case Ok(_) => Stored
    case Err(e) => if e == Blobs.BlobCommitted then AlreadyCommitted else Failed
  }

  lemma Ended(H: Hashes, s: State, c: nat)
    requires c in s.calls
    ensures Ends(H, s, c, s.fs, s.calls[c])
  {
    assert Alone(H, s, [], c);
  }

  lemma StepFirst(H: Hashes, s: State, t: Step, c: nat, fs: Files, pc: Pc)
    requires Enabled(s, t) && OfCall(t, c) && Ends(H, Apply(H, s, t), c, fs, pc)
    ensures Ends(H, s, c, fs, pc)
  {
    var run :| Alone(H, Apply(H, s, t), run, c)
      && After(H, Apply(H, s, t), run).fs == fs && c in After(H, Apply(H, s, t), run).calls
      && After(H, Apply(H, s, t), run).calls[c] == pc;
    var all := [t] + run;
    assert all[0] == t && all[1..] == run;
    assert Alone(H, s, all, c);
  }

  // ---- What the specification allows ----

  // Nothing fails.
  function Works(id: string, ino: Ino): Blobs.Env
  {
    Blobs.Env(id, ino, true, true, true, true, 0, true, true, true, true, true, true, true, true)
  }

  ghost predicate MayAppend(fs: Files, sid: Session, offset: int, fs': Files)
    requires WellFormed(fs)
  {
    exists env, data :: Blobs.AppendBlobChunk(fs, env, sid.ns, sid.id, offset, data).0 == fs'
  }

  ghost predicate MayFinalize(H: Hashes, fs: Files, sid: Session, d: Digest, size: int, fs': Files, out: Outcome)
    requires WellFormed(fs)
  {
    exists env ::
      && Blobs.FinalizeBlobUpload(H, fs, env, sid.ns, sid.id, d, size).0 == fs'
      && OutcomeOf(Blobs.FinalizeBlobUpload(H, fs, env, sid.ns, sid.id, d, size).1) == out
  }

  ghost predicate MayPut(H: Hashes, s: State, k: Key, size: int, fs': Files, out: Outcome)
  {
    exists env: Blobs.Env, data ::
      && (env.mkdirs && env.opens ==> FreshSession(s, Session(k.ns, env.id), env.ino))
      && Blobs.PutBlob(H, s.fs, env, k, size, data).0 == fs'
      && OutcomeOf(Blobs.PutBlob(H, s.fs, env, k, size, data).1) == out
  }

  // ---- Where a call alone can be, for the files `fs0` it found ----

  // The session was as long as the offset, and has only grown.
  ghost predicate Grown(fs0: Files, n: Name, offset: int, fs: Files)
    requires WellFormed(fs0)
  {
    && n in fs0.names && |Content(fs0, n)| == offset
    && fs0.names[n] in fs.inodes && Content(fs0, n) <= fs.inodes[fs0.names[n]]
    && fs == fs0.(inodes := fs0.inodes[fs0.names[n] := fs.inodes[fs0.names[n]]])
  }

  ghost predicate AppendAt(fs0: Files, sid: Session, offset: int, fs: Files, pc: Pc)
    requires WellFormed(fs0)
  {
    var n := StagedName(sid);
    match pc
    case AppendOpen(x, o) => fs == fs0 && x == sid && o == offset
    case AppendStat(x, o, ino) => fs == fs0 && x == sid && o == offset && n in fs0.names && ino == fs0.names[n]
    case AppendWrite(x, ino) => x == sid && Grown(fs0, n, offset, fs) && ino == fs0.names[n]
    case Done => fs == fs0 || Grown(fs0, n, offset, fs)
    case _ => false
  }

  ghost predicate FinalizeAt(H: Hashes, fs0: Files, k: Key, sid: Session, size: int, fs: Files, pc: Pc)
    requires WellFormed(fs0)
  {
    var n := StagedName(sid);
    match pc
    case FinalizeStat(x, y, z) => fs == fs0 && x == k && y == sid && z == size
    case FinalizeOpen(x, y) => fs == fs0 && x == k && y == sid && n in fs0.names && |Content(fs0, n)| == size
    case FinalizeHash(x, y, ino, pos, st) =>
      && fs == fs0 && x == k && y == sid && n in fs0.names && |Content(fs0, n)| == size && ino == fs0.names[n]
      && pos <= size && st == Absorb(H(Algorithm(k.digest)), H(Algorithm(k.digest)).init, Content(fs0, n)[..pos])
    case FinalizeLink(x, y, _) => fs == fs0 && x == k && y == sid && Verified(H, fs0, k, n, size)
    case FinalizeUnlink(x, y, out) =>
      && x == k && y == sid && Verified(H, fs0, k, n, size) && out == Taken(fs0, k)
      && fs == if out.Stored? then Link(fs0, n, BlobName(k)) else fs0
    case CommitDone(x, out) => x == k && MayFinalize(H, fs0, sid, k.digest, size, fs, out)
    case _ => false
  }

  ghost predicate Verified(H: Hashes, fs: Files, k: Key, n: Name, size: int)
    requires WellFormed(fs)
  {
    n in fs.names && |Content(fs, n)| == size && Matches(H, k.digest, Content(fs, n))
  }

  function Taken(fs: Files, k: Key): Outcome { if BlobName(k) in fs.names then AlreadyCommitted else Stored }

  // The call has a private staging file, bound to a new inode that holds `data`.
  ghost predicate Holds(s0: State, k: Key, sid: Session, ino: Ino, data: Bytes, fs: Files)
  {
    && sid.ns == k.ns && FreshSession(s0, sid, ino)
    && fs == Files(s0.fs.names[StagedName(sid) := ino], s0.fs.inodes[ino := data])
  }

  // The outcome is known, and the staging name still there.
  ghost predicate Cleaning(H: Hashes, s0: State, k: Key, sid: Session, size: int, ino: Ino, data: Bytes, out: Outcome, fs: Files)
  {
    && sid.ns == k.ns && FreshSession(s0, sid, ino)
    && fs == StagedFiles(s0.fs, k, StagedName(sid), ino, data, out.Stored?)
    && (!out.Failed? ==> |data| == size && Matches(H, k.digest, data) && out == Taken(s0.fs, k))
  }

  ghost predicate PutAt(H: Hashes, s0: State, k: Key, size: int, fs: Files, pc: Pc)
  {
    match pc
    case PutCreate(x, z) => fs == s0.fs && x == k && z == size
    case PutWrite(x, z, sid, ino, st, n) =>
      && x == k && z == size && ino in fs.inodes && Holds(s0, k, sid, ino, fs.inodes[ino], fs)
      && n == |fs.inodes[ino]| && st == Absorb(H(Algorithm(k.digest)), H(Algorithm(k.digest)).init, fs.inodes[ino])
    case PutLink(x, sid) =>
      x == k && exists ino, data :: Holds(s0, k, sid, ino, data, fs) && |data| == size && Matches(H, k.digest, data)
    case PutCleanup(x, sid, out) =>
      x == k && exists ino, data :: Cleaning(H, s0, k, sid, size, ino, data, out, fs)
    case CommitDone(x, out) => x == k && MayPut(H, s0, k, size, fs, out)
    case _ => false
  }

  // ---- Appends ----

  lemma AppendStep(H: Hashes, fs0: Files, sid: Session, offset: int, s: State, t: Step, c: nat)
    requires WellFormed(fs0) && Enabled(s, t) && OfCall(t, c) && c in s.calls && AppendAt(fs0, sid, offset, s.fs, s.calls[c])
    ensures var s' := Apply(H, s, t); c in s'.calls && AppendAt(fs0, sid, offset, s'.fs, s'.calls[c])
  {
    if t.AppendStats? && |s.fs.inodes[s.calls[c].ino]| == offset {
      var ino := s.calls[c].ino;
      assert fs0.inodes[ino := fs0.inodes[ino]] == fs0.inodes;
    }
  }

  lemma {:induction false} AppendStays(H: Hashes, fs0: Files, sid: Session, offset: int, s: State, run: seq<Step>, c: nat)
    requires WellFormed(fs0) && Alone(H, s, run, c) && c in s.calls && AppendAt(fs0, sid, offset, s.fs, s.calls[c])
    ensures var s' := After(H, s, run); c in s'.calls && AppendAt(fs0, sid, offset, s'.fs, s'.calls[c])
    decreases |run|
  {
    if run != [] {
      AppendStep(H, fs0, sid, offset, s, run[0], c);
      AppendStays(H, fs0, sid, offset, Apply(H, s, run[0]), run[1..], c);
    }
  }

  // An append alone leaves exactly the files the specification allows.
  lemma AppendAlone(H: Hashes, s: State, c: nat, fs': Files)
    requires WellFormed(s.fs) && c in s.calls && s.calls[c].AppendOpen? && 0 <= s.calls[c].offset
    ensures Ends(H, s, c, fs', Done) <==> MayAppend(s.fs, s.calls[c].sid, s.calls[c].offset, fs')
  {
    var sid, offset := s.calls[c].sid, s.calls[c].offset;
    var n := StagedName(sid);
    if Ends(H, s, c, fs', Done) {
      var run :| Alone(H, s, run, c) && After(H, s, run).fs == fs' && c in After(H, s, run).calls && After(H, s, run).calls[c] == Done;
      AppendStays(H, s.fs, sid, offset, s, run, c);
      var env := Works("", Ino("", 0));
      if fs' == s.fs {
        assert Blobs.AppendBlobChunk(s.fs, env.(opens := false), sid.ns, sid.id, offset, []).0 == fs';
      } else {
        var data := fs'.inodes[s.fs.names[n]][offset..];
        assert Content(s.fs, n) + data == fs'.inodes[s.fs.names[n]];
        assert Blobs.AppendBlobChunk(s.fs, env, sid.ns, sid.id, offset, data).0 == fs';
      }
    }
    if MayAppend(s.fs, sid, offset, fs') {
      var env, data :| Blobs.AppendBlobChunk(s.fs, env, sid.ns, sid.id, offset, data).0 == fs';
      AppendCan(H, s, c, Blobs.Copied(data, env), fs');
    }
  }

  lemma AppendCan(H: Hashes, s: State, c: nat, data: Bytes, fs': Files)
    requires WellFormed(s.fs) && c in s.calls && s.calls[c].AppendOpen?
    requires var n := StagedName(s.calls[c].sid);
      fs' == s.fs || (n in s.fs.names && |Content(s.fs, n)| == s.calls[c].offset && fs' == Append(s.fs, s.fs.names[n], data))
    ensures Ends(H, s, c, fs', Done)
  {
    var s1 := Apply(H, s, AppendOpens(c));
    if s1.calls[c] == Done {
      Ended(H, s1, c);
    } else {
      var s2 := Apply(H, s1, AppendStats(c));
      if s2.calls[c] == Done {
        Ended(H, s2, c);
      } else if fs' == s.fs {
        Ended(H, Apply(H, s2, AppendReturns(c)), c);
        StepFirst(H, s2, AppendReturns(c), c, fs', Done);
      } else {
        var s3 := Apply(H, s2, AppendChunk(c, data));
        Ended(H, Apply(H, s3, AppendReturns(c)), c);
        StepFirst(H, s3, AppendReturns(c), c, fs', Done);
        StepFirst(H, s2, AppendChunk(c, data), c, fs', Done);
      }
      StepFirst(H, s1, AppendStats(c), c, fs', Done);
    }
    StepFirst(H, s, AppendOpens(c), c, fs', Done);
  }

  // ---- Finalizes ----

  lemma FinalizeReport(H: Hashes, fs0: Files, env: Blobs.Env, k: Key, sid: Session, size: int, fs: Files, out: Outcome)
    requires WellFormed(fs0) && k.ns == sid.ns
    requires Blobs.FinalizeBlobUpload(H, fs0, env, sid.ns, sid.id, k.digest, size).0 == fs
    requires OutcomeOf(Blobs.FinalizeBlobUpload(H, fs0, env, sid.ns, sid.id, k.digest, size).1) == out
    ensures FinalizeAt(H, fs0, k, sid, size, fs, CommitDone(k, out))
  {
  }

  lemma FinalizeStep(H: Hashes, fs0: Files, k: Key, sid: Session, size: int, s: State, t: Step, c: nat)
    requires WellFormed(fs0) && ValidDigest(k.digest) && k.ns == sid.ns
    requires Enabled(s, t) && OfCall(t, c) && c in s.calls && FinalizeAt(H, fs0, k, sid, size, s.fs, s.calls[c])
    ensures var s' := Apply(H, s, t); c in s'.calls && FinalizeAt(H, fs0, k, sid, size, s'.fs, s'.calls[c])
  {
    var s' := Apply(H, s, t);
    if s'.calls[c] == CommitDone(k, Failed) {
      FinalizeReport(H, fs0, Works("", Ino("", 0)).(stats := false), k, sid, size, s'.fs, Failed);
    } else if t.FinalizeUnlinks? {
      FinalizeReports(H, fs0, k, sid, size, s, t.ok, c);
    } else if t.FinalizeReads? {
      FinalizeReadsMore(H, fs0, k, sid, size, s, t.count, c);
    } else if t.FinalizeVerifies? {
      assert Content(fs0, StagedName(sid))[..size] == Content(fs0, StagedName(sid));
    }
  }

  lemma FinalizeReports(H: Hashes, fs0: Files, k: Key, sid: Session, size: int, s: State, ok: bool, c: nat)
    requires WellFormed(fs0) && ValidDigest(k.digest) && k.ns == sid.ns
    requires Enabled(s, FinalizeUnlinks(c, ok)) && FinalizeAt(H, fs0, k, sid, size, s.fs, s.calls[c])
    ensures var s' := Apply(H, s, FinalizeUnlinks(c, ok)); FinalizeAt(H, fs0, k, sid, size, s'.fs, s'.calls[c])
  {
    var env := Works("", Ino("", 0)).(unlinks := ok);
    FinalizeShape(H, fs0, env, k, sid, size);
    FinalizeReport(H, fs0, env, k, sid, size, Apply(H, s, FinalizeUnlinks(c, ok)).fs, s.calls[c].out);
  }

  lemma FinalizeReadsMore(H: Hashes, fs0: Files, k: Key, sid: Session, size: int, s: State, count: nat, c: nat)
    requires WellFormed(fs0) && Enabled(s, FinalizeReads(c, count)) && FinalizeAt(H, fs0, k, sid, size, s.fs, s.calls[c])
    ensures var s' := Apply(H, s, FinalizeReads(c, count)); FinalizeAt(H, fs0, k, sid, size, s'.fs, s'.calls[c])
  {
    var data, pos := Content(fs0, StagedName(sid)), s.calls[c].pos;
    var h := H(Algorithm(k.digest));
    assert data[..pos + count] == data[..pos] + data[pos..pos + count];
    AbsorbConcat(h, h.init, data[..pos], data[pos..pos + count]);
  }

  lemma {:induction false} FinalizeStays(H: Hashes, fs0: Files, k: Key, sid: Session, size: int, s: State, run: seq<Step>, c: nat)
    requires WellFormed(fs0) && ValidDigest(k.digest) && k.ns == sid.ns
    requires Alone(H, s, run, c) && c in s.calls && FinalizeAt(H, fs0, k, sid, size, s.fs, s.calls[c])
    ensures var s' := After(H, s, run); c in s'.calls && FinalizeAt(H, fs0, k, sid, size, s'.fs, s'.calls[c])
    decreases |run|
  {
    if run != [] {
      FinalizeStep(H, fs0, k, sid, size, s, run[0], c);
      FinalizeStays(H, fs0, k, sid, size, Apply(H, s, run[0]), run[1..], c);
    }
  }

  // A finalize alone ends exactly as the specification allows, in files and in report.
  lemma FinalizeAlone(H: Hashes, s: State, c: nat, fs': Files, out: Outcome)
    requires WellFormed(s.fs) && c in s.calls && s.calls[c].FinalizeStat? && Admissible(s, s.calls[c])
    ensures var pc := s.calls[c];
      Ends(H, s, c, fs', CommitDone(pc.key, out)) <==> MayFinalize(H, s.fs, pc.sid, pc.key.digest, pc.size, fs', out)
  {
    var k, sid, size := s.calls[c].key, s.calls[c].sid, s.calls[c].size;
    if Ends(H, s, c, fs', CommitDone(k, out)) {
      var run :| Alone(H, s, run, c) && After(H, s, run).fs == fs' && c in After(H, s, run).calls && After(H, s, run).calls[c] == CommitDone(k, out);
      FinalizeStays(H, s.fs, k, sid, size, s, run, c);
    }
    if MayFinalize(H, s.fs, sid, k.digest, size, fs', out) {
      var env :|
        && Blobs.FinalizeBlobUpload(H, s.fs, env, sid.ns, sid.id, k.digest, size).0 == fs'
        && OutcomeOf(Blobs.FinalizeBlobUpload(H, s.fs, env, sid.ns, sid.id, k.digest, size).1) == out;
      FinalizeCan(H, s, c, env, fs', out);
    }
  }

  // The files once the verified session has been linked, or found committed, or neither.
  function Committing(fs: Files, k: Key, n: Name, links: bool, unlinks: bool): Files
    requires n in fs.names
  {
    if !links then fs
    else
      var linked := if Taken(fs, k).Stored? then Link(fs, n, BlobName(k)) else fs;
      if unlinks then Unlink(linked, n) else linked
  }

  lemma FinalizeShape(H: Hashes, fs: Files, env: Blobs.Env, k: Key, sid: Session, size: int)
    requires WellFormed(fs) && ValidDigest(k.digest) && k.ns == sid.ns
    ensures var (fs', r) := Blobs.FinalizeBlobUpload(H, fs, env, sid.ns, sid.id, k.digest, size);
      var n, out := StagedName(sid), OutcomeOf(r);
      if n in fs.names && |Content(fs, n)| == size then
        && (out != Failed ==> Matches(H, k.digest, Content(fs, n)) && out == Taken(fs, k))
        && fs' == Committing(fs, k, n, out != Failed, env.unlinks)
      else fs' == fs && out == Failed
  {
    var n := StagedName(sid);
    if n in fs.names && BlobName(k) !in fs.names {
      assert fs.names[BlobName(k) := fs.names[n]] - {n} == (fs.names - {n})[BlobName(k) := fs.names[n]];
    }
  }

  lemma FinalizeCan(H: Hashes, s: State, c: nat, env: Blobs.Env, fs': Files, out: Outcome)
    requires WellFormed(s.fs) && c in s.calls && s.calls[c].FinalizeStat? && Admissible(s, s.calls[c])
    requires var pc := s.calls[c]; var r := Blobs.FinalizeBlobUpload(H, s.fs, env, pc.sid.ns, pc.sid.id, pc.key.digest, pc.size);
      r.0 == fs' && OutcomeOf(r.1) == out
    ensures Ends(H, s, c, fs', CommitDone(s.calls[c].key, out))
  {
    var pc := s.calls[c];
    FinalizeShape(H, s.fs, env, pc.key, pc.sid, pc.size);
    var s1 := Apply(H, s, FinalizeStats(c));
    if s1.calls[c].CommitDone? {
      Ended(H, s1, c);
    } else {
      FinalizeOpensAll(H, s1, c, fs', out, out != Failed, env.unlinks);
    }
    StepFirst(H, s, FinalizeStats(c), c, fs', CommitDone(pc.key, out));
  }

  lemma FinalizeOpensAll(H: Hashes, s: State, c: nat, fs': Files, out: Outcome, links: bool, unlinks: bool)
    requires WellFormed(s.fs) && c in s.calls && s.calls[c].FinalizeOpen?
    requires var k, n := s.calls[c].key, StagedName(s.calls[c].sid);
      && n in s.fs.names && (links ==> Matches(H, k.digest, Content(s.fs, n)))
      && fs' == Committing(s.fs, k, n, links, unlinks) && out == if links then Taken(s.fs, k) else Failed
    ensures Ends(H, s, c, fs', CommitDone(s.calls[c].key, out))
  {
    FinalizeVerifiesAll(H, Apply(H, s, FinalizeOpens(c)), c, fs', out, links, unlinks);
    StepFirst(H, s, FinalizeOpens(c), c, fs', CommitDone(s.calls[c].key, out));
  }

  lemma FinalizeVerifiesAll(H: Hashes, s: State, c: nat, fs': Files, out: Outcome, links: bool, unlinks: bool)
    requires WellFormed(s.fs) && c in s.calls && s.calls[c].FinalizeHash? && s.calls[c].pos == 0
    requires var k, n := s.calls[c].key, StagedName(s.calls[c].sid);
      && n in s.fs.names && s.calls[c].ino == s.fs.names[n] && s.calls[c].st == H(Algorithm(k.digest)).init
      && (links ==> Matches(H, k.digest, Content(s.fs, n)))
      && fs' == Committing(s.fs, k, n, links, unlinks) && out == if links then Taken(s.fs, k) else Failed
    ensures Ends(H, s, c, fs', CommitDone(s.calls[c].key, out))
  {
    var k, data := s.calls[c].key, s.fs.inodes[s.calls[c].ino];
    var s1 := Apply(H, s, FinalizeReads(c, |data|));
    assert data[0..0 + |data|] == data;
    var s2 := Apply(H, s1, FinalizeVerifies(c, true));
    if s2.calls[c] == CommitDone(k, Failed) {
      Ended(H, s2, c);
    } else {
      FinalizeCommits(H, s2, c, fs', out, links, unlinks);
    }
    StepFirst(H, s1, FinalizeVerifies(c, true), c, fs', CommitDone(k, out));
    StepFirst(H, s, FinalizeReads(c, |data|), c, fs', CommitDone(k, out));
  }

  lemma FinalizeCommits(H: Hashes, s: State, c: nat, fs': Files, out: Outcome, links: bool, unlinks: bool)
    requires c in s.calls && s.calls[c].FinalizeLink? && StagedName(s.calls[c].sid) in s.fs.names
    requires fs' == Committing(s.fs, s.calls[c].key, StagedName(s.calls[c].sid), links, unlinks)
    requires out == if links then Taken(s.fs, s.calls[c].key) else Failed
    ensures Ends(H, s, c, fs', CommitDone(s.calls[c].key, out))
  {
    var k := s.calls[c].key;
    var s1 := Apply(H, s, FinalizeLinks(c, links));
    if !links {
      Ended(H, s1, c);
    } else {
      Ended(H, Apply(H, s1, FinalizeUnlinks(c, unlinks)), c);
      StepFirst(H, s1, FinalizeUnlinks(c, unlinks), c, fs', CommitDone(k, out));
    }
    StepFirst(H, s, FinalizeLinks(c, links), c, fs', CommitDone(k, out));
  }

  // ---- Puts ----

  // The files once a put that staged `bytes` is over.
  function PutFiles(fs: Files, k: Key, n: Name, ino: Ino, bytes: Bytes, linked: bool, unlinked: bool): Files
  {
    var names := if unlinked then fs.names else fs.names[n := ino];
    Files(if linked then names[BlobName(k) := ino] else names, fs.inodes[ino := bytes])
  }

  // The same just before the staging name is unlinked.
  function StagedFiles(fs: Files, k: Key, n: Name, ino: Ino, bytes: Bytes, linked: bool): Files
  {
    var names := fs.names[n := ino];
    Files(if linked then names[BlobName(k) := ino] else names, fs.inodes[ino := bytes])
  }

  lemma Unstaged(fs: Files, k: Key, sid: Session, ino: Ino, bytes: Bytes, linked: bool, ok: bool)
    requires StagedName(sid) !in fs.names
    ensures var n := StagedName(sid); var staged := StagedFiles(fs, k, n, ino, bytes, linked);
      (if ok then Unlink(staged, n) else staged) == PutFiles(fs, k, n, ino, bytes, linked, ok)
  {
    var n := StagedName(sid);
    assert fs.names[n := ino] - {n} == fs.names;
    assert fs.names[n := ino][BlobName(k) := ino] - {n} == fs.names[BlobName(k) := ino];
  }

  lemma PutShape(H: Hashes, fs: Files, env: Blobs.Env, k: Key, size: int, data: Bytes)
    requires ValidDigest(k.digest) && 0 <= size
    ensures var (fs', r) := Blobs.PutBlob(H, fs, env, k, size, data);
      var out := OutcomeOf(r);
      if env.mkdirs && env.opens then
        && fs' == PutFiles(fs, k, Staged(k.ns, env.id), env.ino, Blobs.Copied(data, env), out.Stored?, env.unlinks)
        && (if Blobs.Staging(H, env, k, size, data).Some? || !env.links then out == Failed else out == Taken(fs, k))
      else fs' == fs && out == Failed
  {
    var n := Staged(k.ns, env.id);
    Blobs.PutCases(H, fs, env, k, size, data);
    assert fs.names[n := env.ino][BlobName(k) := env.ino] == fs.names[BlobName(k) := env.ino][n := env.ino];
  }

  lemma PutReport(H: Hashes, s0: State, env: Blobs.Env, data: Bytes, k: Key, size: int, fs: Files, out: Outcome)
    requires env.mkdirs && env.opens ==> FreshSession(s0, Session(k.ns, env.id), env.ino)
    requires Blobs.PutBlob(H, s0.fs, env, k, size, data).0 == fs
    requires OutcomeOf(Blobs.PutBlob(H, s0.fs, env, k, size, data).1) == out
    ensures PutAt(H, s0, k, size, fs, CommitDone(k, out))
  {
  }

  // The last step of a put, whatever it will report.
  lemma PutReports(H: Hashes, s0: State, k: Key, size: int, s: State, c: nat, ok: bool)
    requires ValidDigest(k.digest) && 0 <= size
    requires c in s.calls && s.calls[c].PutCleanup? && PutAt(H, s0, k, size, s.fs, s.calls[c])
    ensures var s' := Apply(H, s, PutUnlinks(c, ok)); PutAt(H, s0, k, size, s'.fs, s'.calls[c])
  {
    var sid, out := s.calls[c].sid, s.calls[c].out;
    var ino, data :| Cleaning(H, s0, k, sid, size, ino, data, out, s.fs);
    var env := Works(sid.id, ino).(unlinks := ok, copies := !out.Failed?, copied := |data|);
    PutShape(H, s0.fs, env, k, size, data);
    Unstaged(s0.fs, k, sid, ino, data, out.Stored?, ok);
    PutReport(H, s0, env, data, k, size, Apply(H, s, PutUnlinks(c, ok)).fs, out);
  }

  lemma PutWrites(H: Hashes, s0: State, k: Key, size: int, s: State, t: Step, c: nat)
    requires Enabled(s, t) && c in s.calls && (t.PutChunk? || t.PutBreaks?) && t.c == c
    requires PutAt(H, s0, k, size, s.fs, s.calls[c])
    ensures var s' := Apply(H, s, t); PutAt(H, s0, k, size, s'.fs, s'.calls[c])
  {
    var pc := s.calls[c];
    var h, old' := H(Algorithm(k.digest)), s.fs.inodes[pc.ino];
    AbsorbConcat(h, h.init, old', t.data);
    assert s0.fs.inodes[pc.ino := old'][pc.ino := old' + t.data] == s0.fs.inodes[pc.ino := old' + t.data];
    if t.PutBreaks? { assert Cleaning(H, s0, k, pc.sid, size, pc.ino, old' + t.data, Failed, Apply(H, s, t).fs); }
  }

  lemma PutConcludes(H: Hashes, s0: State, k: Key, size: int, s: State, t: Step, c: nat)
    requires Enabled(s, t) && c in s.calls && (t.PutVerify? || t.PutLinks?) && t.c == c
    requires PutAt(H, s0, k, size, s.fs, s.calls[c])
    ensures var s' := Apply(H, s, t); PutAt(H, s0, k, size, s'.fs, s'.calls[c])
  {
    var s', sid := Apply(H, s, t), s.calls[c].sid;
    if t.PutVerify? {
      var ino, data := s.calls[c].ino, s.fs.inodes[s.calls[c].ino];
      if s'.calls[c].PutLink? {
        assert Holds(s0, k, sid, ino, data, s'.fs);
      } else {
        assert Cleaning(H, s0, k, sid, size, ino, data, Failed, s'.fs);
      }
    } else {
      var ino, data :| Holds(s0, k, sid, ino, data, s.fs) && |data| == size && Matches(H, k.digest, data);
      assert Cleaning(H, s0, k, sid, size, ino, data, s'.calls[c].out, s'.fs);
    }
  }

  lemma PutStep(H: Hashes, s0: State, k: Key, size: int, s: State, t: Step, c: nat)
    requires ValidDigest(k.digest) && 0 <= size && Enabled(s, t) && OfCall(t, c) && c in s.calls
    requires PutAt(H, s0, k, size, s.fs, s.calls[c])
    requires s.calls[c].PutCreate? ==> s.made == s0.made
    ensures var s' := Apply(H, s, t); c in s'.calls && PutAt(H, s0, k, size, s'.fs, s'.calls[c])
  {
    if t.PutUnlinks? {
      PutReports(H, s0, k, size, s, c, t.ok);
    } else if t.PutChunk? || t.PutBreaks? {
      PutWrites(H, s0, k, size, s, t, c);
    } else if t.PutVerify? || t.PutLinks? {
      PutConcludes(H, s0, k, size, s, t, c);
    } else if t.PutOpenFails? {
      PutReport(H, s0, Works("", Ino("", 0)).(opens := false), [], k, size, s.fs, Failed);
    } else if t.PutOpen? {
      assert Holds(s0, k, t.sid, t.ino, [], Apply(H, s, t).fs);
    }
  }

  lemma {:induction false} PutStays(H: Hashes, s0: State, k: Key, size: int, s: State, run: seq<Step>, c: nat)
    requires ValidDigest(k.digest) && 0 <= size && Alone(H, s, run, c) && c in s.calls
    requires PutAt(H, s0, k, size, s.fs, s.calls[c]) && (s.calls[c].PutCreate? ==> s.made == s0.made)
    ensures var s' := After(H, s, run); c in s'.calls && PutAt(H, s0, k, size, s'.fs, s'.calls[c])
    decreases |run|
  {
    if run != [] {
      PutStep(H, s0, k, size, s, run[0], c);
      PutStays(H, s0, k, size, Apply(H, s, run[0]), run[1..], c);
    }
  }

  // A put alone ends exactly as the specification allows, in files and in report.
  lemma PutAlone(H: Hashes, s: State, c: nat, fs': Files, out: Outcome)
    requires c in s.calls && s.calls[c].PutCreate? && Admissible(s, s.calls[c])
    ensures Ends(H, s, c, fs', CommitDone(s.calls[c].key, out)) <==> MayPut(H, s, s.calls[c].key, s.calls[c].size, fs', out)
  {
    var k, size := s.calls[c].key, s.calls[c].size;
    if Ends(H, s, c, fs', CommitDone(k, out)) {
      var run :| Alone(H, s, run, c) && After(H, s, run).fs == fs' && c in After(H, s, run).calls && After(H, s, run).calls[c] == CommitDone(k, out);
      PutStays(H, s, k, size, s, run, c);
    }
    if MayPut(H, s, k, size, fs', out) {
      var env: Blobs.Env, data :|
        && (env.mkdirs && env.opens ==> FreshSession(s, Session(k.ns, env.id), env.ino))
        && Blobs.PutBlob(H, s.fs, env, k, size, data).0 == fs'
        && OutcomeOf(Blobs.PutBlob(H, s.fs, env, k, size, data).1) == out;
      PutCan(H, s, c, env, data, fs', out);
    }
  }

  lemma PutCan(H: Hashes, s: State, c: nat, env: Blobs.Env, data: Bytes, fs': Files, out: Outcome)
    requires c in s.calls && s.calls[c].PutCreate? && Admissible(s, s.calls[c])
    requires var pc := s.calls[c]; var r := Blobs.PutBlob(H, s.fs, env, pc.key, pc.size, data);
      && (env.mkdirs && env.opens ==> FreshSession(s, Session(pc.key.ns, env.id), env.ino))
      && r.0 == fs' && OutcomeOf(r.1) == out
    ensures Ends(H, s, c, fs', CommitDone(s.calls[c].key, out))
  {
    var k, size := s.calls[c].key, s.calls[c].size;
    PutShape(H, s.fs, env, k, size, data);
    if !env.mkdirs || !env.opens {
      Ended(H, Apply(H, s, PutOpenFails(c)), c);
      StepFirst(H, s, PutOpenFails(c), c, fs', CommitDone(k, out));
    } else {
      var t := PutOpen(c, Session(k.ns, env.id), env.ino);
      var s1 := Apply(H, s, t);
      if Blobs.Staging(H, env, k, size, data).Some? {
        PutFails(H, s, s1, c, Blobs.Copied(data, env), env.unlinks);
      } else {
        PutFills(H, s, s1, c, data, env.links, env.unlinks);
      }
      StepFirst(H, s, t, c, fs', CommitDone(k, out));
    }
  }

  // A put that has just created its staging file.
  ghost predicate Created(H: Hashes, s0: State, s: State, c: nat)
  {
    && c in s.calls && s.calls[c].PutWrite? && s.calls[c].n == 0
    && s.calls[c].st == H(Algorithm(s.calls[c].key.digest)).init
    && FreshSession(s0, s.calls[c].sid, s.calls[c].ino)
    && s.fs == Create(s0.fs, StagedName(s.calls[c].sid), s.calls[c].ino)
  }

  lemma Filled(fs0: Files, k: Key, n: Name, ino: Ino, data: Bytes)
    ensures Append(Create(fs0, n, ino), ino, data) == StagedFiles(fs0, k, n, ino, data, false)
  {
    assert [] + data == data;
  }

  lemma PutFails(H: Hashes, s0: State, s: State, c: nat, data: Bytes, unlinks: bool)
    requires Created(H, s0, s, c)
    ensures var pc := s.calls[c];
      Ends(H, s, c, PutFiles(s0.fs, pc.key, StagedName(pc.sid), pc.ino, data, false, unlinks), CommitDone(pc.key, Failed))
  {
    var pc := s.calls[c];
    var s1 := Apply(H, s, PutBreaks(c, data));
    Filled(s0.fs, pc.key, StagedName(pc.sid), pc.ino, data);
    PutCleansUp(H, s0, s1, c, pc.ino, data, unlinks);
    StepFirst(H, s, PutBreaks(c, data), c, PutFiles(s0.fs, pc.key, StagedName(pc.sid), pc.ino, data, false, unlinks), CommitDone(pc.key, Failed));
  }

  lemma PutCleansUp(H: Hashes, s0: State, s: State, c: nat, ino: Ino, data: Bytes, unlinks: bool)
    requires c in s.calls && s.calls[c].PutCleanup? && StagedName(s.calls[c].sid) !in s0.fs.names
    requires var pc := s.calls[c]; s.fs == StagedFiles(s0.fs, pc.key, StagedName(pc.sid), ino, data, pc.out.Stored?)
    ensures var pc := s.calls[c];
      Ends(H, s, c, PutFiles(s0.fs, pc.key, StagedName(pc.sid), ino, data, pc.out.Stored?, unlinks), CommitDone(pc.key, pc.out))
  {
    var pc := s.calls[c];
    Unstaged(s0.fs, pc.key, pc.sid, ino, data, pc.out.Stored?, unlinks);
    var s1 := Apply(H, s, PutUnlinks(c, unlinks));
    Ended(H, s1, c);
    StepFirst(H, s, PutUnlinks(c, unlinks), c, s1.fs, CommitDone(pc.key, pc.out));
  }

  lemma PutFills(H: Hashes, s0: State, s: State, c: nat, data: Bytes, links: bool, unlinks: bool)
    requires Created(H, s0, s, c) && |data| == s.calls[c].size && Matches(H, s.calls[c].key.digest, data)
    ensures var pc := s.calls[c]; var out := if links then Taken(s0.fs, pc.key) else Failed;
      Ends(H, s, c, PutFiles(s0.fs, pc.key, StagedName(pc.sid), pc.ino, data, out.Stored?, unlinks), CommitDone(pc.key, out))
  {
    var pc := s.calls[c];
    var k := pc.key;
    var out := if links then Taken(s0.fs, k) else Failed;
    var fs' := PutFiles(s0.fs, k, StagedName(pc.sid), pc.ino, data, out.Stored?, unlinks);
    var s1 := Apply(H, s, PutChunk(c, data));
    Filled(s0.fs, k, StagedName(pc.sid), pc.ino, data);
    var s2 := Apply(H, s1, PutVerify(c));
    var s3 := Apply(H, s2, PutLinks(c, links));
    PutCleansUp(H, s0, s3, c, pc.ino, data, unlinks);
    StepFirst(H, s2, PutLinks(c, links), c, fs', CommitDone(k, out));
    StepFirst(H, s1, PutVerify(c), c, fs', CommitDone(k, out));
    StepFirst(H, s, PutChunk(c, data), c, fs', CommitDone(k, out));
  }

  // ---- Cancels and deletes ----

  ghost predicate MayCancel(fs: Files, sid: Session, fs': Files)
  {
    exists env :: Blobs.CancelBlobUpload(fs, env, sid.ns, sid.id).0 == fs'
  }

  ghost predicate MayDelete(fs: Files, k: Key, fs': Files)
  {
    exists env :: Blobs.DeleteBlob(fs, env, k).0 == fs'
  }

  // The call has not begun, or its one system call has been made or refused.
  ghost predicate UnlinkAt(fs0: Files, start: Pc, n: Name, fs: Files, pc: Pc)
  {
    (pc == start && fs == fs0) || (pc == Done && (fs == fs0 || fs == Unlink(fs0, n)))
  }

  lemma {:induction false} UnlinkStays(H: Hashes, fs0: Files, start: Pc, n: Name, s: State, run: seq<Step>, c: nat)
    requires (start.CancelUnlink? && n == StagedName(start.sid)) || (start.DeleteUnlink? && n == BlobName(start.key))
    requires Alone(H, s, run, c) && c in s.calls && UnlinkAt(fs0, start, n, s.fs, s.calls[c])
    ensures var s' := After(H, s, run); c in s'.calls && UnlinkAt(fs0, start, n, s'.fs, s'.calls[c])
    decreases |run|
  {
    if run != [] { UnlinkStays(H, fs0, start, n, Apply(H, s, run[0]), run[1..], c); }
  }

  lemma UnlinkAlone(H: Hashes, s: State, c: nat, fs': Files)
    requires c in s.calls && (s.calls[c].CancelUnlink? || s.calls[c].DeleteUnlink?)
    ensures var n := if s.calls[c].CancelUnlink? then StagedName(s.calls[c].sid) else BlobName(s.calls[c].key);
      Ends(H, s, c, fs', Done) <==> fs' == s.fs || fs' == Unlink(s.fs, n)
  {
    var pc := s.calls[c];
    var n := if pc.CancelUnlink? then StagedName(pc.sid) else BlobName(pc.key);
    if Ends(H, s, c, fs', Done) {
      var run :| Alone(H, s, run, c) && After(H, s, run).fs == fs' && c in After(H, s, run).calls && After(H, s, run).calls[c] == Done;
      UnlinkStays(H, s.fs, pc, n, s, run, c);
    }
    if fs' == s.fs || fs' == Unlink(s.fs, n) {
      var ok := fs' != s.fs;
      var t := if pc.CancelUnlink? then CancelUnlinks(c, ok) else DeleteUnlinks(c, ok);
      assert n !in s.fs.names ==> s.fs.names - {n} == s.fs.names;
      Ended(H, Apply(H, s, t), c);
      StepFirst(H, s, t, c, fs', Done);
    }
  }

  lemma CancelAlone(H: Hashes, s: State, c: nat, fs': Files)
    requires c in s.calls && s.calls[c].CancelUnlink?
    ensures Ends(H, s, c, fs', Done) <==> MayCancel(s.fs, s.calls[c].sid, fs')
  {
    var sid, env := s.calls[c].sid, Works("", Ino("", 0));
    UnlinkAlone(H, s, c, fs');
    assert Blobs.CancelBlobUpload(s.fs, env, sid.ns, sid.id).0 == Unlink(s.fs, StagedName(sid));
    if StagedName(sid) in s.fs.names {
      assert Blobs.CancelBlobUpload(s.fs, env.(unlinks := false), sid.ns, sid.id).0 == s.fs;
    } else {
      assert s.fs.names - {StagedName(sid)} == s.fs.names;
    }
  }

  lemma DeleteAlone(H: Hashes, s: State, c: nat, fs': Files)
    requires c in s.calls && s.calls[c].DeleteUnlink? && Admissible(s, s.calls[c])
    ensures Ends(H, s, c, fs', Done) <==> MayDelete(s.fs, s.calls[c].key, fs')
  {
    var k, env := s.calls[c].key, Works("", Ino("", 0));
    UnlinkAlone(H, s, c, fs');
    assert Blobs.DeleteBlob(s.fs, env.(live := false), k).0 == s.fs;
    assert BlobName(k) !in s.fs.names ==> s.fs.names - {BlobName(k)} == s.fs.names;
    if BlobName(k) in s.fs.names { assert Blobs.DeleteBlob(s.fs, env, k).0 == Unlink(s.fs, BlobName(k)); }
  }
}
