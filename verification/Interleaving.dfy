// internal/blobstore/fs/stream.go and store.go as file-level steps: any number of
// PutBlob, AppendBlobChunk, FinalizeBlobUpload, CancelBlobUpload, DeleteBlob and
// vacuum calls, interleaved between every two system calls, any of which may fail.
module Interleaving {
  import opened Basics
  import opened Digests
  import opened FileSystem

  datatype Session = Session(ns: string, id: string)

  function StagedName(sid: Session): Name { Staged(sid.ns, sid.id) }

  // What a committing call reports: nil, ErrBlobCommitted, or any other error.
  datatype Outcome = Stored | AlreadyCommitted | Failed

  // The moments at which a digest name appears, is found taken, or disappears.
  datatype Event = Linked(call: nat, key: Key) | Rejected(call: nat, key: Key) | Removed(call: nat, key: Key)

  // Where a call stands.  `ino` is an open descriptor, `st` a hash in progress, `n` the
  // bytes written, or in FinalizeLink the bytes verified.
  datatype Pc =
    | PutCreate(key: Key, size: int)
    | PutWrite(key: Key, size: int, sid: Session, ino: Ino, st: int, n: nat)
    | PutLink(key: Key, sid: Session)
    | PutCleanup(key: Key, sid: Session, out: Outcome)
    | AppendOpen(sid: Session, offset: int)
    | AppendStat(sid: Session, offset: int, ino: Ino)
    | AppendWrite(sid: Session, ino: Ino)
    | FinalizeStat(key: Key, sid: Session, size: int)
    | FinalizeOpen(key: Key, sid: Session)
    | FinalizeHash(key: Key, sid: Session, ino: Ino, pos: nat, st: int)
    | FinalizeLink(key: Key, sid: Session, n: nat)
    | FinalizeUnlink(key: Key, sid: Session, out: Outcome)
    | CancelUnlink(sid: Session)
    | DeleteUnlink(key: Key)
    | CommitDone(key: Key, out: Outcome)
    | Done

  // `issued` are the ids InitiateBlobUpload returned; the other keys of `made` are
  // PutBlob's private staging ids.  `made` remembers the inode each id was created
  // with and `leftover` the sessions whose unlink after a commit failed.
  datatype State = State(
    fs: Files,
    calls: map<nat, Pc>,
    issued: set<Session>,
    made: map<Session, Ino>,
    leftover: set<Session>,
    log: seq<Event>)

  const EMPTY: State := State(Files(map[], map[]), map[], {}, map[], {}, [])

  datatype Step =
    | Initiate(sid: Session, ino: Ino)
    | Start(c: nat, pc: Pc)
    | PutOpen(c: nat, sid: Session, ino: Ino)
    | PutOpenFails(c: nat)
    | PutChunk(c: nat, data: Bytes)
    | PutBreaks(c: nat, data: Bytes)
    | PutVerify(c: nat)
    | PutLinks(c: nat, ok: bool)
    | PutUnlinks(c: nat, ok: bool)
    | AppendOpens(c: nat)
    | AppendStats(c: nat)
    | AppendChunk(c: nat, data: Bytes)
    | AppendReturns(c: nat)
    | FinalizeStats(c: nat)
    | FinalizeOpens(c: nat)
    | FinalizeReads(c: nat, count: nat)
    | FinalizeVerifies(c: nat, ok: bool)
    | FinalizeLinks(c: nat, ok: bool)
    | FinalizeUnlinks(c: nat, ok: bool)
    | CancelUnlinks(c: nat, ok: bool)
    | DeleteUnlinks(c: nat, ok: bool)
    | VacuumUnlinks(sid: Session)

  predicate FreshSession(s: State, sid: Session, ino: Ino)
  {
    sid !in s.made && StagedName(sid) !in s.fs.names && ino !in s.fs.inodes
  }

  // A call may begin once its arguments pass the checks made before any file is touched.
  // Clients only name upload ids they were issued.
  predicate Admissible(s: State, pc: Pc)
  {
    match pc
    case PutCreate(k, size) => ValidDigest(k.digest) && 0 <= size
    case AppendOpen(sid, offset) => sid in s.issued && 0 <= offset
    case FinalizeStat(k, sid, _) => ValidDigest(k.digest) && sid in s.issued && sid.ns == k.ns
    case CancelUnlink(sid) => sid in s.issued
    case DeleteUnlink(k) => ValidDigest(k.digest)
    case _ => false
  }

  predicate Enabled(s: State, t: Step)
  {
    match t
    case Initiate(sid, ino) => FreshSession(s, sid, ino)
    case Start(c, pc) => c !in s.calls && Admissible(s, pc)
    case PutOpen(c, sid, ino) =>
      c in s.calls && s.calls[c].PutCreate? && sid.ns == s.calls[c].key.ns && FreshSession(s, sid, ino)
    case PutOpenFails(c) => c in s.calls && s.calls[c].PutCreate?
    case PutChunk(c, _) => c in s.calls && s.calls[c].PutWrite? && s.calls[c].ino in s.fs.inodes
    case PutBreaks(c, _) => c in s.calls && s.calls[c].PutWrite? && s.calls[c].ino in s.fs.inodes
    case PutVerify(c) => c in s.calls && s.calls[c].PutWrite?
    case PutLinks(c, _) => c in s.calls && s.calls[c].PutLink?
    case PutUnlinks(c, _) => c in s.calls && s.calls[c].PutCleanup?
    case AppendOpens(c) => c in s.calls && s.calls[c].AppendOpen?
    case AppendStats(c) => c in s.calls && s.calls[c].AppendStat? && s.calls[c].ino in s.fs.inodes
    case AppendChunk(c, _) => c in s.calls && s.calls[c].AppendWrite? && s.calls[c].ino in s.fs.inodes
    case AppendReturns(c) => c in s.calls && s.calls[c].AppendWrite?
    case FinalizeStats(c) =>
      && c in s.calls && s.calls[c].FinalizeStat?
      && (StagedName(s.calls[c].sid) in s.fs.names ==> s.fs.names[StagedName(s.calls[c].sid)] in s.fs.inodes)
    case FinalizeOpens(c) => c in s.calls && s.calls[c].FinalizeOpen?
    case FinalizeReads(c, count) =>
      && c in s.calls && s.calls[c].FinalizeHash? && s.calls[c].ino in s.fs.inodes
      && s.calls[c].pos + count <= |s.fs.inodes[s.calls[c].ino]|
    case FinalizeVerifies(c, ok) =>
      && c in s.calls && s.calls[c].FinalizeHash? && s.calls[c].ino in s.fs.inodes
      && (ok ==> s.calls[c].pos == |s.fs.inodes[s.calls[c].ino]|)
    case FinalizeLinks(c, _) => c in s.calls && s.calls[c].FinalizeLink?
    case FinalizeUnlinks(c, _) => c in s.calls && s.calls[c].FinalizeUnlink?
    case CancelUnlinks(c, _) => c in s.calls && s.calls[c].CancelUnlink?
    case DeleteUnlinks(c, _) => c in s.calls && s.calls[c].DeleteUnlink?
    case VacuumUnlinks(sid) => true
  }

  function Goto(s: State, c: nat, pc: Pc): State { s.(calls := s.calls[c := pc]) }

  // link(2) as linkStagedFile sees it: a missing source or any other error fails the
  // call, an existing target is ErrBlobCommitted.
  function LinkOutcome(s: State, k: Key, sid: Session, ok: bool): Outcome
  {
    if !ok || StagedName(sid) !in s.fs.names then Failed
    else if BlobName(k) in s.fs.names then AlreadyCommitted
    else Stored
  }

  function LinkBlob(s: State, c: nat, k: Key, sid: Session, ok: bool): State
  {
    match LinkOutcome(s, k, sid, ok)
    case Failed => s
    case AlreadyCommitted => s.(log := s.log + [Rejected(c, k)])
    case Stored => s.(fs := Link(s.fs, StagedName(sid), BlobName(k)), log := s.log + [Linked(c, k)])
  }

  function UnlinkIf(s: State, n: Name, ok: bool): State { if ok then s.(fs := Unlink(s.fs, n)) else s }

  function Apply(H: Hashes, s: State, t: Step): State
    requires Enabled(s, t)
  {
    match t
    case Initiate(sid, ino) =>
      s.(fs := Create(s.fs, StagedName(sid), ino), issued := s.issued + {sid}, made := s.made[sid := ino])
    case Start(c, pc) => Goto(s, c, pc)
    case PutOpen(c, sid, ino) =>
      var pc := s.calls[c];
      Goto(s.(fs := Create(s.fs, StagedName(sid), ino), made := s.made[sid := ino]), c,
           PutWrite(pc.key, pc.size, sid, ino, H(Algorithm(pc.key.digest)).init, 0))
    case PutOpenFails(c) => Goto(s, c, CommitDone(s.calls[c].key, Failed))
    case PutChunk(c, data) =>
      var pc := s.calls[c];
      Goto(s.(fs := Append(s.fs, pc.ino, data)), c,
           pc.(st := Absorb(H(Algorithm(pc.key.digest)), pc.st, data), n := pc.n + |data|))
    case PutBreaks(c, data) =>
      var pc := s.calls[c];
      Goto(s.(fs := Append(s.fs, pc.ino, data)), c, PutCleanup(pc.key, pc.sid, Failed))
    case PutVerify(c) =>
      var pc := s.calls[c];
      var alg := Algorithm(pc.key.digest);
      if pc.n == pc.size && alg + ":" + H(alg).finish(pc.st) == pc.key.digest
      then Goto(s, c, PutLink(pc.key, pc.sid))
      else Goto(s, c, PutCleanup(pc.key, pc.sid, Failed))
    case PutLinks(c, ok) =>
      var pc := s.calls[c];
      Goto(LinkBlob(s, c, pc.key, pc.sid, ok), c, PutCleanup(pc.key, pc.sid, LinkOutcome(s, pc.key, pc.sid, ok)))
    case PutUnlinks(c, ok) =>
      var pc := s.calls[c];
      Goto(UnlinkIf(s, StagedName(pc.sid), ok), c, CommitDone(pc.key, pc.out))
    case AppendOpens(c) =>
      var pc := s.calls[c];
      if StagedName(pc.sid) in s.fs.names
      then Goto(s, c, AppendStat(pc.sid, pc.offset, s.fs.names[StagedName(pc.sid)]))
      else Goto(s, c, Done)
    case AppendStats(c) =>
      var pc := s.calls[c];
      if |s.fs.inodes[pc.ino]| == pc.offset then Goto(s, c, AppendWrite(pc.sid, pc.ino)) else Goto(s, c, Done)
    case AppendChunk(c, data) => s.(fs := Append(s.fs, s.calls[c].ino, data))
    case AppendReturns(c) => Goto(s, c, Done)
    case FinalizeStats(c) =>
      var pc := s.calls[c];
      if StagedName(pc.sid) in s.fs.names && |Content(s.fs, StagedName(pc.sid))| == pc.size
      then Goto(s, c, FinalizeOpen(pc.key, pc.sid))
      else Goto(s, c, CommitDone(pc.key, Failed))
    case FinalizeOpens(c) =>
      var pc := s.calls[c];
      if StagedName(pc.sid) in s.fs.names
      then Goto(s, c, FinalizeHash(pc.key, pc.sid, s.fs.names[StagedName(pc.sid)], 0,
                                   H(Algorithm(pc.key.digest)).init))
      else Goto(s, c, CommitDone(pc.key, Failed))
    case FinalizeReads(c, count) =>
      var pc := s.calls[c];
      Goto(s, c, pc.(pos := pc.pos + count,
                     st := Absorb(H(Algorithm(pc.key.digest)), pc.st,
                                  s.fs.inodes[pc.ino][pc.pos..pc.pos + count])))
    case FinalizeVerifies(c, ok) =>
      var pc := s.calls[c];
      var alg := Algorithm(pc.key.digest);
      if ok && alg + ":" + H(alg).finish(pc.st) == pc.key.digest
      then Goto(s, c, FinalizeLink(pc.key, pc.sid, pc.pos))
      else Goto(s, c, CommitDone(pc.key, Failed))
    case FinalizeLinks(c, ok) =>
      var pc := s.calls[c];
      var out := LinkOutcome(s, pc.key, pc.sid, ok);
      Goto(LinkBlob(s, c, pc.key, pc.sid, ok), c,
           if out == Failed then CommitDone(pc.key, Failed) else FinalizeUnlink(pc.key, pc.sid, out))
    case FinalizeUnlinks(c, ok) =>
      var pc := s.calls[c];
      var left := if !ok && StagedName(pc.sid) in s.fs.names then {pc.sid} else {};
      Goto(UnlinkIf(s, StagedName(pc.sid), ok).(leftover := s.leftover + left), c, CommitDone(pc.key, pc.out))
    case CancelUnlinks(c, ok) => Goto(UnlinkIf(s, StagedName(s.calls[c].sid), ok), c, Done)
    case DeleteUnlinks(c, ok) =>
      var k := s.calls[c].key;
      if ok && BlobName(k) in s.fs.names
      then Goto(s.(fs := Unlink(s.fs, BlobName(k)), log := s.log + [Removed(c, k)]), c, Done)
      else Goto(s, c, Done)
    case VacuumUnlinks(sid) => s.(fs := Unlink(s.fs, StagedName(sid)))
  }

  // ---- Runs ----

  ghost predicate Possible(H: Hashes, s: State, run: seq<Step>)
    decreases |run|
  {
    run == [] || (Enabled(s, run[0]) && Possible(H, Apply(H, s, run[0]), run[1..]))
  }

  function After(H: Hashes, s: State, run: seq<Step>): State
    requires Possible(H, s, run)
    decreases |run|
  {
    if run == [] then s else After(H, Apply(H, s, run[0]), run[1..])
  }

  // ---- The boundary of the theorem ----

  // The call holds the session's file open for appending.
  predicate Appending(pc: Pc, sid: Session)
  {
    (pc.AppendStat? || pc.AppendWrite?) && pc.sid == sid
  }

  // The call is between opening the staged file for verification and unlinking it.
  predicate Finalizing(pc: Pc, sid: Session)
  {
    (pc.FinalizeHash? || pc.FinalizeLink? || pc.FinalizeUnlink?) && pc.sid == sid
  }

  // No append is in flight on a session that is being finalized, nor on one whose
  // staging name survived its commit because the unlink failed.
  ghost predicate Quiet(s: State)
  {
    forall a :: a in s.calls ==>
      forall sid :: Appending(s.calls[a], sid) ==>
        sid !in s.leftover && forall f :: f in s.calls ==> !Finalizing(s.calls[f], sid)
  }

  ghost predicate QuietThroughout(H: Hashes, s: State, run: seq<Step>)
    requires Possible(H, s, run)
    decreases |run|
  {
    Quiet(s) && (run != [] ==> QuietThroughout(H, Apply(H, s, run[0]), run[1..]))
  }

  // ---- Who owns what ----

  // No digest name is bound to the inode.
  ghost predicate Uncommitted(s: State, ino: Ino)
  {
    forall n :: n in s.fs.names && n.Committed? ==> s.fs.names[n] != ino
  }

  ghost predicate Private(s: State, sid: Session) { sid in s.made && sid !in s.issued }

  // Staging ids and inodes correspond one to one, for ever.
  ghost predicate Ownership(s: State)
  {
    && s.issued <= s.made.Keys
    && (forall sid :: sid in s.made ==> s.made[sid] in s.fs.inodes)
    && (forall x, y :: x in s.made && y in s.made && s.made[x] == s.made[y] ==> x == y)
    && (forall n :: n in s.fs.names && n.Staged? ==>
          Session(n.ns, n.id) in s.made && s.fs.names[n] == s.made[Session(n.ns, n.id)])
  }

  predicate UsesPrivately(pc: Pc, sid: Session)
  {
    (pc.PutWrite? || pc.PutLink? || pc.PutCleanup?) && pc.sid == sid
  }

  // A private staging id belongs to one call.
  ghost predicate OneWriter(s: State)
  {
    forall a, b, sid ::
      (a in s.calls && b in s.calls && UsesPrivately(s.calls[a], sid) && UsesPrivately(s.calls[b], sid)) ==> a == b
  }

  function AddSession(s: State, sid: Session, ino: Ino, issued: set<Session>): State
  {
    s.(fs := Create(s.fs, StagedName(sid), ino), issued := s.issued + issued, made := s.made[sid := ino])
  }

  // ---- Kinds of steps ----

  predicate Links(t: Step) { t.PutLinks? || t.FinalizeLinks? }

  predicate Writes(t: Step) { t.PutChunk? || t.PutBreaks? || t.AppendChunk? }

  // The steps that bind or unbind a staging name.
  predicate Stages(t: Step)
  {
    t.Initiate? || t.PutOpen? || t.PutUnlinks? || t.FinalizeUnlinks? || t.CancelUnlinks? || t.VacuumUnlinks?
  }

  lemma LinkStep(H: Hashes, s: State, t: Step)
    requires Enabled(s, t) && Links(t)
    ensures Apply(H, s, t).fs == LinkBlob(s, t.c, s.calls[t.c].key, s.calls[t.c].sid, t.ok).fs
  {
  }

  // The remaining steps only read.
  lemma ReadingChangesNothing(H: Hashes, s: State, t: Step)
    requires Enabled(s, t) && !Links(t) && !t.DeleteUnlinks? && !Stages(t) && !Writes(t)
    ensures Apply(H, s, t).fs == s.fs
  {
  }

  // ---- What can go wrong ----

  lemma {:induction false} RunThen(H: Hashes, s: State, run: seq<Step>, t: Step)
    requires Possible(H, s, run) && Enabled(After(H, s, run), t)
    ensures Possible(H, s, run + [t]) && After(H, s, run + [t]) == Apply(H, After(H, s, run), t)
    decreases |run|
  {
    if run == [] {
      assert run + [t] == [t];
      assert [t][1..] == [];
    } else {
      assert (run + [t])[1..] == run[1..] + [t];
      RunThen(H, Apply(H, s, run[0]), run[1..], t);
    }
  }

  // `run` leads from an empty store to `s`.
  ghost predicate Reaches(H: Hashes, run: seq<Step>, s: State)
  {
    Possible(H, EMPTY, run) && After(H, EMPTY, run) == s
  }

  lemma Advance(H: Hashes, run: seq<Step>, s: State, t: Step, s': State)
    requires Reaches(H, run, s) && Enabled(s, t) && Apply(H, s, t) == s'
    ensures Reaches(H, run + [t], s')
  {
    RunThen(H, EMPTY, run, t);
  }

  // One upload session holding no bytes.
  function OneSession(sid: Session, ino: Ino): State
  {
    State(Files(map[StagedName(sid) := ino], map[ino := []]), map[], {sid}, map[sid := ino], {}, [])
  }

  // The same store once that empty session has been committed as `k`.
  function Shared(sid: Session, ino: Ino, k: Key, call: nat): State
  {
    OneSession(sid, ino).(
      fs := Files(map[StagedName(sid) := ino, BlobName(k) := ino], map[ino := []]),
      log := [Linked(call, k)])
  }

  lemma AppendOpensSession(H: Hashes, run: seq<Step>, s: State, c: nat, sid: Session, ino: Ino) returns (run': seq<Step>)
    requires Reaches(H, run, s) && c !in s.calls && sid in s.issued && StagedName(sid) in s.fs.names
    requires s.fs.names[StagedName(sid)] == ino && ino in s.fs.inodes && s.fs.inodes[ino] == []
    ensures run <= run' && Reaches(H, run', Goto(s, c, AppendWrite(sid, ino)))
  {
    var s1, s2 := Goto(s, c, AppendOpen(sid, 0)), Goto(s, c, AppendStat(sid, 0, ino));
    Advance(H, run, s, Start(c, AppendOpen(sid, 0)), s1);
    run' := run + [Start(c, AppendOpen(sid, 0))];
    assert Goto(s1, c, AppendStat(sid, 0, ino)) == s2;
    Advance(H, run', s1, AppendOpens(c), s2);
    run' := run' + [AppendOpens(c)];
    assert Goto(s2, c, AppendWrite(sid, ino)) == Goto(s, c, AppendWrite(sid, ino));
    Advance(H, run', s2, AppendStats(c), Goto(s, c, AppendWrite(sid, ino)));
    run' := run' + [AppendStats(c)];
  }

  lemma FinalizeOpensSession(H: Hashes, run: seq<Step>, s: State, c: nat, sid: Session, ino: Ino, d: Digest) returns (run': seq<Step>)
    requires Reaches(H, run, s) && c !in s.calls && sid in s.issued && s.fs == OneSession(sid, ino).fs && ValidDigest(d)
    ensures Reaches(H, run', Goto(s, c, FinalizeOpen(Key(sid.ns, d), sid)))
  {
    var k := Key(sid.ns, d);
    var s1, s2 := Goto(s, c, FinalizeStat(k, sid, 0)), Goto(s, c, FinalizeOpen(k, sid));
    Advance(H, run, s, Start(c, FinalizeStat(k, sid, 0)), s1);
    run' := run + [Start(c, FinalizeStat(k, sid, 0))];
    assert Goto(s1, c, FinalizeOpen(k, sid)) == s2;
    Advance(H, run', s1, FinalizeStats(c), s2);
    run' := run' + [FinalizeStats(c)];
  }

  lemma FinalizeHashesSession(H: Hashes, run: seq<Step>, s: State, c: nat, sid: Session, ino: Ino, d: Digest) returns (run': seq<Step>)
    requires Reaches(H, run, s) && c !in s.calls && sid in s.issued && s.fs == OneSession(sid, ino).fs && ValidDigest(d)
    ensures Reaches(H, run', Goto(s, c, FinalizeHash(Key(sid.ns, d), sid, ino, 0, H(Algorithm(d)).init)))
  {
    var k := Key(sid.ns, d);
    run' := FinalizeOpensSession(H, run, s, c, sid, ino, d);
    var s2, s3 := Goto(s, c, FinalizeOpen(k, sid)), Goto(s, c, FinalizeHash(k, sid, ino, 0, H(Algorithm(d)).init));
    assert Goto(s2, c, FinalizeHash(k, sid, ino, 0, H(Algorithm(d)).init)) == s3;
    Advance(H, run', s2, FinalizeOpens(c), s3);
    run' := run' + [FinalizeOpens(c)];
  }

  lemma FinalizeVerifiesSession(H: Hashes, run: seq<Step>, s: State, c: nat, sid: Session, ino: Ino, d: Digest) returns (run': seq<Step>)
    requires Reaches(H, run, s) && c !in s.calls && sid in s.issued && s.fs == OneSession(sid, ino).fs && ValidDigest(d)
    requires Matches(H, d, [])
    ensures Reaches(H, run', Goto(s, c, FinalizeLink(Key(sid.ns, d), sid, 0)))
  {
    var k := Key(sid.ns, d);
    run' := FinalizeHashesSession(H, run, s, c, sid, ino, d);
    var s3, s4 := Goto(s, c, FinalizeHash(k, sid, ino, 0, H(Algorithm(d)).init)), Goto(s, c, FinalizeLink(k, sid, 0));
    assert Goto(s3, c, FinalizeLink(k, sid, 0)) == s4;
    Advance(H, run', s3, FinalizeVerifies(c, true), s4);
    run' := run' + [FinalizeVerifies(c, true)];
  }

  lemma FinalizeLinksSession(H: Hashes, run: seq<Step>, s: State, c: nat, sid: Session, ino: Ino, d: Digest) returns (run': seq<Step>)
    requires Reaches(H, run, s) && c !in s.calls && sid in s.issued && s.fs == OneSession(sid, ino).fs && s.log == []
    requires ValidDigest(d) && Matches(H, d, [])
    ensures var k := Key(sid.ns, d);
      Reaches(H, run', Goto(s.(fs := Shared(sid, ino, k, c).fs, log := [Linked(c, k)]), c, FinalizeUnlink(k, sid, Stored)))
  {
    var k := Key(sid.ns, d);
    run' := FinalizeVerifiesSession(H, run, s, c, sid, ino, d);
    var s4 := Goto(s, c, FinalizeLink(k, sid, 0));
    var s5 := Goto(s.(fs := Shared(sid, ino, k, c).fs, log := [Linked(c, k)]), c, FinalizeUnlink(k, sid, Stored));
    assert Link(s4.fs, StagedName(sid), BlobName(k)) == s5.fs;
    assert Apply(H, s4, FinalizeLinks(c, true)).calls == s5.calls;
    assert Apply(H, s4, FinalizeLinks(c, true)).log == [] + [Linked(c, k)];
    Advance(H, run', s4, FinalizeLinks(c, true), s5);
    run' := run' + [FinalizeLinks(c, true)];
  }

  lemma WriteBreaks(H: Hashes, run: seq<Step>, s: State, c: nat, n: Name, b: byte)
    requires Reaches(H, run, s) && Enabled(s, AppendChunk(c, [b])) && n in s.fs.names && n.Committed?
    requires s.fs.names[n] == s.calls[c].ino && s.fs.inodes[s.calls[c].ino] == [] && !Matches(H, n.digest, [b])
    ensures Reaches(H, run + [AppendChunk(c, [b])], Apply(H, s, AppendChunk(c, [b])))
    ensures !ContentSafe(H, Apply(H, s, AppendChunk(c, [b])).fs)
  {
    var s' := Apply(H, s, AppendChunk(c, [b]));
    Advance(H, run, s, AppendChunk(c, [b]), s');
    assert [] + [b] == [b];
    assert n in s'.fs.names && Content(s'.fs, n) == [b];
  }

  // Without the boundary the property is false: a client that keeps a PATCH open
  // across the PUT that finalizes the same upload changes the committed blob.
  lemma OverlapBreaksSafety(H: Hashes, sid: Session, d: Digest, b: byte) returns (run: seq<Step>, s: State)
    requires ValidDigest(d) && Matches(H, d, []) && !Matches(H, d, [b])
    ensures Reaches(H, run, s) && !ContentSafe(H, s.fs)
  {
    var ino := Ino(sid.ns, 0);
    var s1 := OneSession(sid, ino);
    assert {} + {sid} == {sid};
    Advance(H, [], EMPTY, Initiate(sid, ino), s1);
    run := AppendOpensSession(H, [] + [Initiate(sid, ino)], s1, 0, sid, ino);
    var s2 := Goto(s1, 0, AppendWrite(sid, ino));
    run := FinalizeLinksSession(H, run, s2, 1, sid, ino, d);
    var k := Key(sid.ns, d);
    var s3 := Goto(s2.(fs := Shared(sid, ino, k, 1).fs, log := [Linked(1, k)]), 1, FinalizeUnlink(k, sid, Stored));
    WriteBreaks(H, run, s3, 0, BlobName(k), b);
    run, s := run + [AppendChunk(0, [b])], Apply(H, s3, AppendChunk(0, [b]));
  }

  // A finalize whose unlink fails still reports success.
  lemma CommitWithFailedUnlink(H: Hashes, sid: Session, ino: Ino, d: Digest) returns (run: seq<Step>, s: State)
    requires ValidDigest(d) && Matches(H, d, [])
    ensures Reaches(H, run, s) && s.calls == map[0 := CommitDone(Key(sid.ns, d), Stored)]
    ensures s.fs == Shared(sid, ino, Key(sid.ns, d), 0).fs && s.issued == {sid}
  {
    var k := Key(sid.ns, d);
    var s1 := OneSession(sid, ino);
    assert {} + {sid} == {sid};
    Advance(H, [], EMPTY, Initiate(sid, ino), s1);
    run := FinalizeLinksSession(H, [] + [Initiate(sid, ino)], s1, 0, sid, ino, d);
    var s2 := Goto(s1.(fs := Shared(sid, ino, k, 0).fs, log := [Linked(0, k)]), 0, FinalizeUnlink(k, sid, Stored));
    s := Apply(H, s2, FinalizeUnlinks(0, false));
    Advance(H, run, s2, FinalizeUnlinks(0, false), s);
    run := run + [FinalizeUnlinks(0, false)];
  }

  // So is it when an append follows a commit whose unlink failed: commitStagingBlob
  // only logs that failure, and the session goes on sharing the blob's inode.
  lemma FailedUnlinkBreaksSafety(H: Hashes, sid: Session, d: Digest, b: byte) returns (run: seq<Step>, s: State)
    requires ValidDigest(d) && Matches(H, d, []) && !Matches(H, d, [b])
    ensures Reaches(H, run, s) && !ContentSafe(H, s.fs)
    ensures forall c :: c in s.calls ==> forall x :: !Finalizing(s.calls[c], x)
  {
    var ino, k := Ino(sid.ns, 0), Key(sid.ns, d);
    var committed;
    run, committed := CommitWithFailedUnlink(H, sid, ino, d);
    run := AppendOpensSession(H, run, committed, 1, sid, ino);
    var s3 := Goto(committed, 1, AppendWrite(sid, ino));
    WriteBreaks(H, run, s3, 1, BlobName(k), b);
    run, s := run + [AppendChunk(1, [b])], Apply(H, s3, AppendChunk(1, [b]));
  }
}
