// Appends that are not kept off a finalize: from which states which system calls keep the
// store content-addressed, and which runs keep it so throughout.  No assumption is made
// about what overlaps what.
module AppendRaces {
  import opened Basics
  import opened Digests
  import opened FileSystem
  import opened Interleaving

  // ---- One step ----

  // A write hits no committed inode, or writes nothing; a link that binds a digest binds
  // it to bytes that still match.
  ghost predicate StepSafe(H: Hashes, s: State, t: Step)
    requires Enabled(s, t)
  {
    if Writes(t) then t.data == [] || Uncommitted(s, s.calls[t.c].ino)
    else if Links(t) then
      var k, n := s.calls[t.c].key, StagedName(s.calls[t.c].sid);
      LinkOutcome(s, k, s.calls[t.c].sid, t.ok).Stored? ==>
        s.fs.names[n] in s.fs.inodes && Matches(H, k.digest, Content(s.fs, n))
    else true
  }

  lemma WriteSafeExactly(H: Hashes, s: State, ino: Ino, data: Bytes)
    requires ContentSafe(H, s.fs) && ino in s.fs.inodes && CollisionFree(H, iset{s.fs.inodes[ino], s.fs.inodes[ino] + data})
    ensures ContentSafe(H, Append(s.fs, ino, data)) <==> data == [] || Uncommitted(s, ino)
  {
    var before, fs' := s.fs.inodes[ino], Append(s.fs, ino, data);
    if data == [] {
      assert before + data == before;
    } else if !Uncommitted(s, ino) {
      var n :| n in s.fs.names && n.Committed? && s.fs.names[n] == ino;
      assert Matches(H, n.digest, before) && |before + data| != |before|;
      assert n in fs'.names && Content(fs', n) == before + data;
    }
  }

  lemma LinkSafeExactly(H: Hashes, s: State, k: Key, from: Name)
    requires ContentSafe(H, s.fs) && from in s.fs.names && BlobName(k) !in s.fs.names
    ensures ContentSafe(H, Link(s.fs, from, BlobName(k))) <==>
      s.fs.names[from] in s.fs.inodes && Matches(H, k.digest, Content(s.fs, from))
  {
  }

  // The other system calls only create fresh files, unbind names or read.
  lemma OthersAreSafe(H: Hashes, s: State, t: Step)
    requires ContentSafe(H, s.fs) && Enabled(s, t) && !Writes(t) && !Links(t)
    ensures ContentSafe(H, Apply(H, s, t).fs)
  {
    if !t.DeleteUnlinks? && !Stages(t) { ReadingChangesNothing(H, s, t); }
  }

  // From any safe state, whatever calls are in flight, each system call keeps the store
  // safe exactly under that condition.
  lemma StepSafeExactly(H: Hashes, s: State, t: Step)
    requires ContentSafe(H, s.fs) && Enabled(s, t)
    requires Writes(t) ==> CollisionFree(H, iset{s.fs.inodes[s.calls[t.c].ino], s.fs.inodes[s.calls[t.c].ino] + t.data})
    ensures ContentSafe(H, Apply(H, s, t).fs) <==> StepSafe(H, s, t)
  {
    if Writes(t) {
      WriteSafeExactly(H, s, s.calls[t.c].ino, t.data);
    } else if Links(t) {
      var k, sid := s.calls[t.c].key, s.calls[t.c].sid;
      LinkStep(H, s, t);
      if LinkOutcome(s, k, sid, t.ok).Stored? { LinkSafeExactly(H, s, k, StagedName(sid)); }
    } else {
      OthersAreSafe(H, s, t);
    }
  }

  // ---- What stands in every run ----

  // What each call relies on, whatever else is in flight.
  ghost predicate CallStands(H: Hashes, s: State, pc: Pc)
    requires Ownership(s)
  {
    match pc
    case PutWrite(k, _, sid, ino, st, n) =>
      && Private(s, sid) && sid.ns == k.ns && ino == s.made[sid] && Uncommitted(s, ino)
      && n == |s.fs.inodes[ino]|
      && st == Absorb(H(Algorithm(k.digest)), H(Algorithm(k.digest)).init, s.fs.inodes[ino])
    case PutLink(k, sid) => Private(s, sid) && Matches(H, k.digest, s.fs.inodes[s.made[sid]])
    case PutCleanup(_, sid, _) => Private(s, sid)
    case AppendOpen(sid, _) => sid in s.issued
    case AppendStat(sid, _, ino) => sid in s.issued && ino == s.made[sid]
    case AppendWrite(sid, ino) => sid in s.issued && ino == s.made[sid]
    case FinalizeStat(_, sid, _) => sid in s.issued
    case FinalizeOpen(_, sid) => sid in s.issued
    case FinalizeHash(k, sid, ino, pos, st) =>
      && sid in s.issued && ino == s.made[sid] && pos <= |s.fs.inodes[ino]|
      && st == Absorb(H(Algorithm(k.digest)), H(Algorithm(k.digest)).init, s.fs.inodes[ino][..pos])
    case FinalizeLink(k, sid, n) =>
      && sid in s.issued && n <= |s.fs.inodes[s.made[sid]]|
      && Matches(H, k.digest, s.fs.inodes[s.made[sid]][..n])
    case FinalizeUnlink(_, sid, _) => sid in s.issued
    case CancelUnlink(sid) => sid in s.issued
    case _ => true
  }

  ghost predicate Stands(H: Hashes, s: State)
  {
    && WellFormed(s.fs) && Ownership(s) && OneWriter(s)
    && forall c :: c in s.calls ==> CallStands(H, s, s.calls[c])
  }

  // What a step may do under the other calls: sessions stay, files only grow.
  ghost predicate Grows(s: State, s': State)
  {
    && Ownership(s) && Ownership(s')
    && s.issued <= s'.issued && (forall sid :: Private(s, sid) ==> Private(s', sid))
    && (forall sid :: sid in s.made ==> sid in s'.made && s'.made[sid] == s.made[sid])
    && (forall ino :: ino in s.fs.inodes ==> ino in s'.fs.inodes && s.fs.inodes[ino] <= s'.fs.inodes[ino])
  }

  // The session's file is not written, nor committed.
  ghost predicate Spared(s: State, s': State, sid: Session)
  {
    sid in s.made && sid in s'.made && s.made[sid] in s.fs.inodes && s'.made[sid] in s'.fs.inodes
    && s'.fs.inodes[s'.made[sid]] == s.fs.inodes[s.made[sid]]
    && (Uncommitted(s, s.made[sid]) ==> Uncommitted(s', s'.made[sid]))
  }

  lemma OthersStand(H: Hashes, s: State, s': State, pc: Pc)
    requires Grows(s, s') && CallStands(H, s, pc)
    requires forall sid :: UsesPrivately(pc, sid) ==> Spared(s, s', sid)
    ensures CallStands(H, s', pc)
  {
    if pc.FinalizeHash? { assert s.fs.inodes[pc.ino][..pc.pos] == s'.fs.inodes[pc.ino][..pc.pos]; }
    if pc.FinalizeLink? { assert s.fs.inodes[s.made[pc.sid]][..pc.n] == s'.fs.inodes[s.made[pc.sid]][..pc.n]; }
    if pc.PutWrite? || pc.PutLink? || pc.PutCleanup? { assert UsesPrivately(pc, pc.sid); }
  }

  // A step of call `c` to `pc` that spares every other call's private file.
  lemma CallsStand(H: Hashes, s: State, s': State, c: nat, pc: Pc)
    requires Stands(H, s) && Grows(s, s') && WellFormed(s'.fs) && s'.calls == s.calls[c := pc] && CallStands(H, s', pc)
    requires forall a, sid :: a in s.calls && a != c && UsesPrivately(s.calls[a], sid) ==> Spared(s, s', sid) && !UsesPrivately(pc, sid)
    ensures Stands(H, s')
  {
    forall a | a in s'.calls ensures CallStands(H, s', s'.calls[a]) {
      if a != c { OthersStand(H, s, s', s.calls[a]); }
    }
  }

  // ---- Every step, without exception ----

  // A call moves on to a point that uses no session another call uses privately.
  lemma GotoAlone(H: Hashes, s: State, c: nat, pc: Pc)
    requires Stands(H, s) && CallStands(H, s, pc)
    requires forall a, sid :: a in s.calls && a != c && UsesPrivately(s.calls[a], sid) ==> !UsesPrivately(pc, sid)
    ensures Stands(H, Goto(s, c, pc))
  {
    forall a, sid | a in s.calls && a != c && UsesPrivately(s.calls[a], sid) ensures Spared(s, Goto(s, c, pc), sid) {
      assert CallStands(H, s, s.calls[a]);
    }
    CallsStand(H, s, Goto(s, c, pc), c, pc);
  }

  lemma GotoStands(H: Hashes, s: State, c: nat, pc: Pc)
    requires Stands(H, s) && CallStands(H, s, pc)
    requires forall sid :: UsesPrivately(pc, sid) ==> c in s.calls && UsesPrivately(s.calls[c], sid)
    ensures Stands(H, Goto(s, c, pc))
  {
  }

  lemma PutReadsStand(H: Hashes, s: State, t: Step)
    requires Stands(H, s) && Enabled(s, t) && (t.PutOpenFails? || t.PutVerify?)
    ensures Stands(H, Apply(H, s, t))
  {
    assert CallStands(H, s, s.calls[t.c]);
    GotoStands(H, s, t.c, Apply(H, s, t).calls[t.c]);
  }

  lemma AppendReadsStand(H: Hashes, s: State, t: Step)
    requires Stands(H, s) && Enabled(s, t) && (t.AppendOpens? || t.AppendStats? || t.AppendReturns?)
    ensures Stands(H, Apply(H, s, t))
  {
    assert CallStands(H, s, s.calls[t.c]);
    GotoStands(H, s, t.c, Apply(H, s, t).calls[t.c]);
  }

  // The hash of the re-read file grows with the read position.
  lemma HashGrows(h: Hasher, data: Bytes, pos: nat, count: nat)
    requires pos + count <= |data|
    ensures Absorb(h, Absorb(h, h.init, data[..pos]), data[pos..pos + count]) == Absorb(h, h.init, data[..pos + count])
  {
    AbsorbConcat(h, h.init, data[..pos], data[pos..pos + count]);
    assert data[..pos] + data[pos..pos + count] == data[..pos + count];
  }

  lemma FinalizeReadsStand(H: Hashes, s: State, t: Step)
    requires Stands(H, s) && Enabled(s, t) && (t.FinalizeStats? || t.FinalizeOpens? || t.FinalizeReads? || t.FinalizeVerifies?)
    ensures Stands(H, Apply(H, s, t))
  {
    var pc := s.calls[t.c];
    assert CallStands(H, s, pc);
    match t {
      case FinalizeReads(_, count) => HashGrows(H(Algorithm(pc.key.digest)), s.fs.inodes[pc.ino], pc.pos, count);
      case FinalizeVerifies(_, _) => assert s.fs.inodes[pc.ino][..pc.pos] <= s.fs.inodes[pc.ino];
      case FinalizeOpens(_) =>
        if StagedName(pc.sid) in s.fs.names { assert s.fs.inodes[s.made[pc.sid]][..0] == []; }
      case _ =>
    }
    GotoStands(H, s, t.c, Apply(H, s, t).calls[t.c]);
  }

  lemma ReadingStands(H: Hashes, s: State, t: Step)
    requires Stands(H, s) && Enabled(s, t) && !Links(t) && !t.DeleteUnlinks? && !Stages(t) && !Writes(t)
    ensures Stands(H, Apply(H, s, t))
  {
    match t {
      case Start(c, pc) => GotoStands(H, s, c, pc);
      case PutOpenFails(_) => PutReadsStand(H, s, t);
      case PutVerify(_) => PutReadsStand(H, s, t);
      case AppendOpens(_) => AppendReadsStand(H, s, t);
      case AppendStats(_) => AppendReadsStand(H, s, t);
      case AppendReturns(_) => AppendReadsStand(H, s, t);
      case _ => FinalizeReadsStand(H, s, t);
    }
  }

  predicate Creates(t: Step) { t.Initiate? || t.PutOpen? }

  // A fresh staging file.
  lemma CreationStands(H: Hashes, s: State, sid: Session, ino: Ino, issued: set<Session>)
    requires Stands(H, s) && FreshSession(s, sid, ino) && issued <= {sid}
    ensures Stands(H, AddSession(s, sid, ino, issued)) && Uncommitted(AddSession(s, sid, ino, issued), ino)
    ensures forall c :: c in s.calls ==> !UsesPrivately(s.calls[c], sid)
  {
    var s' := AddSession(s, sid, ino, issued);
    forall a, x | a in s.calls && UsesPrivately(s.calls[a], x) ensures x != sid && Spared(s, s', x) {
      assert CallStands(H, s, s.calls[a]);
    }
    forall a | a in s.calls ensures CallStands(H, s', s.calls[a]) { OthersStand(H, s, s', s.calls[a]); }
  }

  lemma UnlinkStands(H: Hashes, s: State, n: Name)
    requires Stands(H, s)
    ensures Stands(H, s.(fs := Unlink(s.fs, n)))
  {
  }

  // PutBlob opens the private file it has created.
  lemma PutOpenStands(H: Hashes, s: State, t: Step)
    requires Stands(H, s) && Enabled(s, t) && t.PutOpen?
    ensures Stands(H, Apply(H, s, t))
  {
    var s1, s' := AddSession(s, t.sid, t.ino, {}), Apply(H, s, t);
    CreationStands(H, s, t.sid, t.ino, {});
    assert s.issued + {} == s.issued;
    assert s' == Goto(s1, t.c, s'.calls[t.c]);
    GotoAlone(H, s1, t.c, s'.calls[t.c]);
  }

  lemma CreatingStands(H: Hashes, s: State, t: Step)
    requires Stands(H, s) && Enabled(s, t) && Creates(t)
    ensures Stands(H, Apply(H, s, t))
  {
    if t.PutOpen? { PutOpenStands(H, s, t); } else { CreationStands(H, s, t.sid, t.ino, {t.sid}); }
  }

  // A step that changed the files as in `s1` and then moved call `c` on.
  lemma MovesOn(H: Hashes, s1: State, c: nat, s': State)
    requires Stands(H, s1) && c in s1.calls && c in s'.calls && CallStands(H, s1, s'.calls[c])
    requires forall sid :: UsesPrivately(s'.calls[c], sid) ==> UsesPrivately(s1.calls[c], sid)
    requires s'.fs == s1.fs && s'.made == s1.made && s'.issued == s1.issued && s'.calls == s1.calls[c := s'.calls[c]]
    ensures Stands(H, s')
  {
  }

  lemma UnlinkingStands(H: Hashes, s: State, t: Step)
    requires Stands(H, s) && Enabled(s, t) && Stages(t) && !Creates(t)
    ensures Stands(H, Apply(H, s, t))
  {
    var s' := Apply(H, s, t);
    if t.VacuumUnlinks? {
      UnlinkStands(H, s, StagedName(t.sid));
    } else {
      UnlinkStands(H, s, StagedName(s.calls[t.c].sid));
      assert s.(fs := s.fs) == s;
      MovesOn(H, s.(fs := s'.fs), t.c, s');
    }
  }

  lemma DeletingStands(H: Hashes, s: State, t: Step)
    requires Stands(H, s) && Enabled(s, t) && t.DeleteUnlinks?
    ensures Stands(H, Apply(H, s, t))
  {
    UnlinkStands(H, s, BlobName(s.calls[t.c].key));
    assert s.(fs := s.fs) == s;
    MovesOn(H, s.(fs := Apply(H, s, t).fs), t.c, Apply(H, s, t));
  }

  lemma WriterStands(H: Hashes, s: State, t: Step)
    requires Stands(H, s) && Enabled(s, t) && Writes(t) && Ownership(Apply(H, s, t))
    ensures t.c in Apply(H, s, t).calls && CallStands(H, Apply(H, s, t), Apply(H, s, t).calls[t.c])
  {
    var pc := s.calls[t.c];
    assert CallStands(H, s, pc);
    if t.PutChunk? {
      var h := H(Algorithm(pc.key.digest));
      AbsorbConcat(h, h.init, s.fs.inodes[pc.ino], t.data);
    }
  }

  // A write only lets one file grow.
  lemma WriteGrows(H: Hashes, s: State, t: Step)
    requires Stands(H, s) && Enabled(s, t) && Writes(t)
    ensures var s' := Apply(H, s, t);
      Grows(s, s') && WellFormed(s'.fs) && t.c in s'.calls && s'.calls == s.calls[t.c := s'.calls[t.c]]
  {
  }

  // Nobody else uses a private session.
  lemma WriteSpares(H: Hashes, s: State, t: Step, a: nat, sid: Session)
    requires Stands(H, s) && Enabled(s, t) && Writes(t) && a in s.calls && a != t.c && UsesPrivately(s.calls[a], sid)
    requires t.c in Apply(H, s, t).calls
    ensures Spared(s, Apply(H, s, t), sid) && !UsesPrivately(Apply(H, s, t).calls[t.c], sid)
  {
    assert CallStands(H, s, s.calls[a]) && CallStands(H, s, s.calls[t.c]);
    assert !UsesPrivately(s.calls[t.c], sid);
  }

  lemma WritingStands(H: Hashes, s: State, t: Step)
    requires Stands(H, s) && Enabled(s, t) && Writes(t)
    ensures Stands(H, Apply(H, s, t))
  {
    var s' := Apply(H, s, t);
    WriteGrows(H, s, t);
    WriterStands(H, s, t);
    forall a, sid | a in s.calls && a != t.c && UsesPrivately(s.calls[a], sid)
      ensures Spared(s, s', sid) && !UsesPrivately(s'.calls[t.c], sid)
    {
      WriteSpares(H, s, t, a, sid);
    }
    CallsStand(H, s, s', t.c, s'.calls[t.c]);
  }

  // A link: what it commits is the call's own private file, or an issued session's.
  lemma LinkStands(H: Hashes, s: State, c: nat, k: Key)
    requires Stands(H, s) && c in s.calls && (s.calls[c].PutLink? || s.calls[c].FinalizeLink?)
    requires StagedName(s.calls[c].sid) in s.fs.names
    ensures Stands(H, s.(fs := Link(s.fs, StagedName(s.calls[c].sid), BlobName(k))))
  {
    var pc := s.calls[c];
    var s' := s.(fs := Link(s.fs, StagedName(pc.sid), BlobName(k)));
    assert CallStands(H, s, pc);
    forall a | a in s.calls ensures CallStands(H, s', s.calls[a]) {
      assert CallStands(H, s, s.calls[a]);
      if a != c {
        assert forall sid :: UsesPrivately(s.calls[a], sid) ==> !UsesPrivately(pc, sid);
        OthersStand(H, s, s', s.calls[a]);
      }
    }
  }

  lemma LinkingStands(H: Hashes, s: State, t: Step)
    requires Stands(H, s) && Enabled(s, t) && Links(t)
    ensures Stands(H, Apply(H, s, t))
  {
    var pc := s.calls[t.c];
    LinkStep(H, s, t);
    if LinkOutcome(s, pc.key, pc.sid, t.ok).Stored? { LinkStands(H, s, t.c, pc.key); }
    assert s.(fs := s.fs) == s;
    assert CallStands(H, s, pc);
    MovesOn(H, s.(fs := Apply(H, s, t).fs), t.c, Apply(H, s, t));
  }

  lemma StepStands(H: Hashes, s: State, t: Step)
    requires Stands(H, s) && Enabled(s, t)
    ensures Stands(H, Apply(H, s, t))
  {
    if Links(t) {
      LinkingStands(H, s, t);
    } else if Writes(t) {
      WritingStands(H, s, t);
    } else if t.DeleteUnlinks? {
      DeletingStands(H, s, t);
    } else if !Stages(t) {
      ReadingStands(H, s, t);
    } else if Creates(t) {
      CreatingStands(H, s, t);
    } else {
      UnlinkingStands(H, s, t);
    }
  }

  // ---- Runs ----

  // The states a run goes through, from the empty store on.
  ghost predicate Trace(H: Hashes, run: seq<Step>, states: seq<State>)
  {
    && |states| == |run| + 1 && states[0] == EMPTY
    && forall i :: 0 <= i < |run| ==> Enabled(states[i], run[i]) && states[i + 1] == Apply(H, states[i], run[i])
  }

  lemma {:induction false} TraceOf(H: Hashes, run: seq<Step>) returns (states: seq<State>)
    requires Possible(H, EMPTY, run)
    ensures Trace(H, run, states) && states[|run|] == After(H, EMPTY, run)
    decreases |run|
  {
    if run == [] {
      states := [EMPTY];
    } else {
      var n := |run| - 1;
      PossiblePrefix(H, EMPTY, run);
      states := TraceOf(H, run[..n]);
      states := states + [Apply(H, states[n], run[n])];
    }
  }

  lemma {:induction false} PossiblePrefix(H: Hashes, s: State, run: seq<Step>)
    requires run != [] && Possible(H, s, run)
    ensures var n := |run| - 1;
      && Possible(H, s, run[..n]) && Enabled(After(H, s, run[..n]), run[n])
      && After(H, s, run) == Apply(H, After(H, s, run[..n]), run[n])
    decreases |run|
  {
    var n := |run| - 1;
    if n == 0 {
      assert run[..0] == [] && run[1..] == [];
    } else {
      PossiblePrefix(H, Apply(H, s, run[0]), run[1..]);
      assert run[1..][..n - 1] == run[..n][1..];
    }
  }

  lemma {:induction false} StandsThroughout(H: Hashes, run: seq<Step>, states: seq<State>, i: nat)
    requires Trace(H, run, states) && i <= |run|
    ensures Stands(H, states[i])
    decreases i
  {
    if i > 0 {
      StandsThroughout(H, run, states, i - 1);
      StepStands(H, states[i - 1], run[i - 1]);
    }
  }

  // The link at `l` is about to bind its digest to the inode.
  predicate BindsInode(s: State, t: Step, ino: Ino)
  {
    && t.FinalizeLinks? && t.c in s.calls && s.calls[t.c].FinalizeLink?
    && LinkOutcome(s, s.calls[t.c].key, s.calls[t.c].sid, t.ok).Stored?
    && s.calls[t.c].sid in s.made && s.made[s.calls[t.c].sid] == ino
  }

  // At step `i` a call has verified the inode's bytes that binds them at a later step.
  ghost predicate Verified(run: seq<Step>, states: seq<State>, i: nat, ino: Ino)
    requires |states| == |run| + 1 && i < |run|
  {
    exists l :: i < l < |run| && BindsInode(states[l], run[l], ino)
      && run[l].c in states[i].calls && states[i].calls[run[l].c] == states[l].calls[run[l].c]
  }

  // A write of an append to a committed inode, or to one that a finalize has verified and
  // goes on to commit.
  ghost predicate Harms(run: seq<Step>, states: seq<State>, i: nat)
    requires |states| == |run| + 1 && i < |run|
  {
    && run[i].AppendChunk? && run[i].data != [] && run[i].c in states[i].calls && states[i].calls[run[i].c].AppendWrite?
    && var ino := states[i].calls[run[i].c].ino;
    (!Uncommitted(states[i], ino) || Verified(run, states, i, ino))
  }

  // What a session's file holds, bound to its name or not.
  function Held(s: State, sid: Session): Bytes
    requires Ownership(s) && sid in s.made
  {
    s.fs.inodes[s.made[sid]]
  }

  lemma OnlyCreationAddsSessions(H: Hashes, s: State, t: Step)
    requires Enabled(s, t) && !Creates(t)
    ensures Apply(H, s, t).made == s.made && Apply(H, s, t).issued == s.issued
  {
  }

  lemma OnlyWritesChangeFiles(H: Hashes, s: State, t: Step)
    requires Enabled(s, t) && !Creates(t) && !Writes(t)
    ensures Apply(H, s, t).fs.inodes == s.fs.inodes
  {
  }

  lemma StepGrows(H: Hashes, s: State, t: Step, sid: Session)
    requires Stands(H, s) && Enabled(s, t) && sid in s.issued
    ensures Stands(H, Apply(H, s, t)) && sid in Apply(H, s, t).issued
    ensures Apply(H, s, t).made[sid] == s.made[sid] && Held(s, sid) <= Held(Apply(H, s, t), sid)
    ensures Held(Apply(H, s, t), sid) != Held(s, sid) ==>
      && t.AppendChunk? && t.data != [] && s.calls[t.c].ino == s.made[sid]
      && Apply(H, s, t).calls == s.calls && Held(Apply(H, s, t), sid) == Held(s, sid) + t.data
  {
    StepStands(H, s, t);
    if !Creates(t) { OnlyCreationAddsSessions(H, s, t); }
    if Writes(t) {
      assert CallStands(H, s, s.calls[t.c]);
    } else if !Creates(t) {
      OnlyWritesChangeFiles(H, s, t);
    }
  }

  lemma {:induction false} HeldGrows(H: Hashes, run: seq<Step>, states: seq<State>, i: nat, l: nat, sid: Session)
    requires Trace(H, run, states) && i <= l <= |run| && sid in states[i].issued && Stands(H, states[i])
    ensures Stands(H, states[l]) && sid in states[l].issued && states[l].made[sid] == states[i].made[sid]
    ensures Held(states[i], sid) <= Held(states[l], sid)
    decreases l - i
  {
    if i < l {
      StepGrows(H, states[i], run[i], sid);
      HeldGrows(H, run, states, i + 1, l, sid);
    }
  }

  lemma OnlyVerifyingLeadsToLink(H: Hashes, s: State, t: Step, c: nat)
    requires Enabled(s, t) && c in Apply(H, s, t).calls && Apply(H, s, t).calls[c].FinalizeLink?
    requires !(c in s.calls && s.calls[c] == Apply(H, s, t).calls[c])
    ensures t.FinalizeVerifies? && t.c == c && t.ok
  {
  }

  // A call comes to be about to link only by verifying all of its session's file.
  lemma ComesToLink(H: Hashes, s: State, t: Step, c: nat)
    requires Stands(H, s) && Enabled(s, t) && c in Apply(H, s, t).calls && Apply(H, s, t).calls[c].FinalizeLink?
    requires !(c in s.calls && s.calls[c] == Apply(H, s, t).calls[c])
    ensures var pc := Apply(H, s, t).calls[c];
      pc.sid in s.issued && |Held(s, pc.sid)| == pc.n && Apply(H, s, t).fs == s.fs && Apply(H, s, t).made == s.made
  {
    OnlyVerifyingLeadsToLink(H, s, t, c);
    assert CallStands(H, s, s.calls[c]);
  }

  // The write at step `w` went to the session while the call stood at `pc`.
  ghost predicate WroteMeanwhile(run: seq<Step>, states: seq<State>, w: nat, c: nat, pc: Pc, ino: Ino)
    requires |states| == |run| + 1 && w < |run|
  {
    && run[w].AppendChunk? && run[w].data != [] && run[w].c in states[w].calls && states[w].calls[run[w].c].AppendWrite?
    && states[w].calls[run[w].c].ino == ino && c in states[w].calls && states[w].calls[c] == pc
  }

  // What the call verified was all its session held at some earlier time; if the session
  // holds more now, it was written to since.
  lemma {:induction false} SinceVerified(H: Hashes, run: seq<Step>, states: seq<State>, i: nat, c: nat) returns (j: nat)
    requires Trace(H, run, states) && i <= |run| && c in states[i].calls && states[i].calls[c].FinalizeLink?
    ensures var pc := states[i].calls[c];
      && Stands(H, states[i]) && pc.sid in states[i].issued
      && j <= i && Stands(H, states[j]) && pc.sid in states[j].issued && states[j].made[pc.sid] == states[i].made[pc.sid]
      && |Held(states[j], pc.sid)| == pc.n && Held(states[j], pc.sid) <= Held(states[i], pc.sid)
      && (|Held(states[i], pc.sid)| > pc.n ==>
            exists w :: 0 <= w < i && WroteMeanwhile(run, states, w, c, pc, states[i].made[pc.sid]))
    decreases i
  {
    StandsThroughout(H, run, states, i);
    var m, pc := i - 1, states[i].calls[c];
    StandsThroughout(H, run, states, m);
    assert CallStands(H, states[i], pc);
    if c in states[m].calls && states[m].calls[c] == pc {
      assert CallStands(H, states[m], pc);
      StepGrows(H, states[m], run[m], pc.sid);
      j := SinceVerified(H, run, states, m, c);
      if |Held(states[i], pc.sid)| > |Held(states[m], pc.sid)| {
        assert WroteMeanwhile(run, states, m, c, pc, states[i].made[pc.sid]);
      }
    } else {
      ComesToLink(H, states[m], run[m], c);
      j := m;
    }
  }

  // ---- Which runs keep the store safe throughout ----

  // `U` holds whatever any file ever holds in the run.
  ghost predicate Covers(U: iset<Bytes>, states: seq<State>)
  {
    forall i, ino :: 0 <= i < |states| && ino in states[i].fs.inodes ==> states[i].fs.inodes[ino] in U
  }

  lemma LinkUnharmed(H: Hashes, run: seq<Step>, states: seq<State>, i: nat)
    requires Trace(H, run, states) && i < |run| && run[i].FinalizeLinks?
    requires forall w :: 0 <= w < |run| ==> !Harms(run, states, w)
    ensures StepSafe(H, states[i], run[i])
  {
    var s, t := states[i], run[i];
    var pc := s.calls[t.c];
    var j := SinceVerified(H, run, states, i, t.c);
    if LinkOutcome(s, pc.key, pc.sid, t.ok).Stored? {
      if |Held(s, pc.sid)| > pc.n {
        var w :| 0 <= w < i && WroteMeanwhile(run, states, w, t.c, pc, s.made[pc.sid]);
        assert BindsInode(s, t, s.made[pc.sid]);
        assert Verified(run, states, w, s.made[pc.sid]);
        assert Harms(run, states, w);
      }
      assert CallStands(H, s, pc);
      assert Held(s, pc.sid)[..pc.n] == Held(s, pc.sid);
    }
  }

  lemma StepUnharmed(H: Hashes, run: seq<Step>, states: seq<State>, i: nat)
    requires Trace(H, run, states) && i < |run| && forall w :: 0 <= w < |run| ==> !Harms(run, states, w)
    ensures StepSafe(H, states[i], run[i])
  {
    var s, t := states[i], run[i];
    StandsThroughout(H, run, states, i);
    if t.FinalizeLinks? {
      LinkUnharmed(H, run, states, i);
    } else if Writes(t) || Links(t) {
      assert CallStands(H, s, s.calls[t.c]);
      assert !Harms(run, states, i);
    }
  }

  // A step that is safe keeps the store safe, collisions or not.
  lemma SafeStepKeeps(H: Hashes, s: State, t: Step)
    requires ContentSafe(H, s.fs) && Enabled(s, t) && StepSafe(H, s, t)
    ensures ContentSafe(H, Apply(H, s, t).fs)
  {
    if Writes(t) {
      assert t.data == [] ==> s.fs.inodes[s.calls[t.c].ino] + t.data == s.fs.inodes[s.calls[t.c].ino];
    } else if Links(t) {
      LinkStep(H, s, t);
    } else {
      OthersAreSafe(H, s, t);
    }
  }

  lemma {:induction false} UnharmedIsSafe(H: Hashes, run: seq<Step>, states: seq<State>, i: nat)
    requires Trace(H, run, states) && i <= |run| && forall w :: 0 <= w < |run| ==> !Harms(run, states, w)
    ensures ContentSafe(H, states[i].fs)
    decreases i
  {
    if i > 0 {
      UnharmedIsSafe(H, run, states, i - 1);
      StepUnharmed(H, run, states, i - 1);
      SafeStepKeeps(H, states[i - 1], run[i - 1]);
    }
  }

  // Writing into a committed blob changes it there and then.
  lemma CommittedWriteBreaks(H: Hashes, U: iset<Bytes>, run: seq<Step>, states: seq<State>, i: nat)
    requires Trace(H, run, states) && CollisionFree(H, U) && Covers(U, states) && i < |run| && Harms(run, states, i)
    requires ContentSafe(H, states[i].fs) && !Uncommitted(states[i], states[i].calls[run[i].c].ino)
    ensures !ContentSafe(H, states[i + 1].fs)
  {
  }

  // The session then holds more than was verified.
  lemma OutgrowsVerified(H: Hashes, run: seq<Step>, states: seq<State>, i: nat, l: nat, c: nat, pc: Pc)
    requires Trace(H, run, states) && i < l < |run| && pc.FinalizeLink?
    requires c in states[i].calls && states[i].calls[c] == pc && c in states[l].calls && states[l].calls[c] == pc
    requires pc.sid in states[l].made && WroteMeanwhile(run, states, i, c, pc, states[l].made[pc.sid])
    ensures Stands(H, states[l]) && pc.sid in states[l].issued && |Held(states[l], pc.sid)| > pc.n
  {
    StandsThroughout(H, run, states, i);
    assert CallStands(H, states[i], pc);
    HeldGrows(H, run, states, i, l, pc.sid);
    StepGrows(H, states[i], run[i], pc.sid);
    HeldGrows(H, run, states, i + 1, l, pc.sid);
  }

  lemma OutgrownDiffers(H: Hashes, U: iset<Bytes>, run: seq<Step>, states: seq<State>, l: nat, c: nat)
    requires Trace(H, run, states) && CollisionFree(H, U) && Covers(U, states) && l <= |run|
    requires c in states[l].calls && states[l].calls[c].FinalizeLink? && Stands(H, states[l])
    requires var pc := states[l].calls[c]; pc.sid in states[l].issued && |Held(states[l], pc.sid)| > pc.n
    ensures var pc := states[l].calls[c]; !Matches(H, pc.key.digest, Held(states[l], pc.sid))
  {
    var pc := states[l].calls[c];
    var j := SinceVerified(H, run, states, l, c);
    assert CallStands(H, states[l], pc);
    var was, now := Held(states[j], pc.sid), Held(states[l], pc.sid);
    assert now[..pc.n] == was && was in U && now in U;
  }

  // Writing into a verified session spoils the link that follows.
  lemma VerifiedWriteBreaks(H: Hashes, U: iset<Bytes>, run: seq<Step>, states: seq<State>, i: nat, l: nat)
    requires Trace(H, run, states) && CollisionFree(H, U) && Covers(U, states) && i < l < |run| && Harms(run, states, i)
    requires BindsInode(states[l], run[l], states[i].calls[run[i].c].ino) && run[l].c in states[i].calls
    requires states[i].calls[run[l].c] == states[l].calls[run[l].c] && ContentSafe(H, states[l].fs)
    ensures !ContentSafe(H, states[l + 1].fs)
  {
    OutgrowsVerified(H, run, states, i, l, run[l].c, states[l].calls[run[l].c]);
    OutgrownDiffers(H, U, run, states, l, run[l].c);
  }

  lemma HarmBreaks(H: Hashes, U: iset<Bytes>, run: seq<Step>, states: seq<State>, i: nat)
    requires Trace(H, run, states) && CollisionFree(H, U) && Covers(U, states) && i < |run| && Harms(run, states, i)
    ensures exists m :: 0 <= m <= |run| && !ContentSafe(H, states[m].fs)
  {
    if ContentSafe(H, states[i].fs) {
      var ino := states[i].calls[run[i].c].ino;
      if !Uncommitted(states[i], ino) {
        CommittedWriteBreaks(H, U, run, states, i);
      } else {
        var l :| i < l < |run| && BindsInode(states[l], run[l], ino)
          && run[l].c in states[i].calls && states[i].calls[run[l].c] == states[l].calls[run[l].c];
        if ContentSafe(H, states[l].fs) { VerifiedWriteBreaks(H, U, run, states, i, l); }
      }
    }
  }

  // Content-address safety, exactly: whatever overlaps whatever, the store is safe after
  // every step of a run if and only if no append writes to a committed blob, and none
  // writes to a session between the verification and the link of a finalize that commits it.
  lemma SafeThroughoutExactly(H: Hashes, U: iset<Bytes>, run: seq<Step>, states: seq<State>)
    requires Trace(H, run, states) && CollisionFree(H, U) && Covers(U, states)
    ensures (forall i :: 0 <= i <= |run| ==> ContentSafe(H, states[i].fs)) <==> (forall i :: 0 <= i < |run| ==> !Harms(run, states, i))
  {
    if forall i :: 0 <= i < |run| ==> !Harms(run, states, i) {
      forall i | 0 <= i <= |run| ensures ContentSafe(H, states[i].fs) { UnharmedIsSafe(H, run, states, i); }
    }
    if forall i :: 0 <= i <= |run| ==> ContentSafe(H, states[i].fs) {
      forall i | 0 <= i < |run| ensures !Harms(run, states, i) {
        if Harms(run, states, i) { HarmBreaks(H, U, run, states, i); }
      }
    }
  }

  lemma WriteThenLinkBreaks(H: Hashes, run: seq<Step>, s: State, sid: Session, ino: Ino, d: Digest, b: byte) returns (s': State)
    requires Reaches(H, run, s) && s.fs == OneSession(sid, ino).fs && !Matches(H, d, [b])
    requires 0 in s.calls && s.calls[0] == AppendWrite(sid, ino) && 1 in s.calls && s.calls[1] == FinalizeLink(Key(sid.ns, d), sid, 0)
    ensures Reaches(H, run + [AppendChunk(0, [b])] + [FinalizeLinks(1, true)], s') && !ContentSafe(H, s'.fs)
  {
    var k := Key(sid.ns, d);
    var s1 := Apply(H, s, AppendChunk(0, [b]));
    Advance(H, run, s, AppendChunk(0, [b]), s1);
    s' := Apply(H, s1, FinalizeLinks(1, true));
    Advance(H, run + [AppendChunk(0, [b])], s1, FinalizeLinks(1, true), s');
    assert [] + [b] == [b];
    assert BlobName(k) in s'.fs.names && Content(s'.fs, BlobName(k)) == [b];
  }

  // Such a write before the link: a PATCH kept open across the verification of the PUT
  // that finalizes its upload.  No committed blob is written to.
  lemma WriteBeforeLinkBreaks(H: Hashes, sid: Session, d: Digest, b: byte) returns (run: seq<Step>, s: State)
    requires ValidDigest(d) && Matches(H, d, []) && !Matches(H, d, [b])
    ensures Reaches(H, run, s) && !ContentSafe(H, s.fs)
    ensures |run| > 1 && run[|run| - 1].FinalizeLinks? && run[|run| - 2].AppendChunk?
  {
    var ino := Ino(sid.ns, 0);
    var s1 := OneSession(sid, ino);
    assert {} + {sid} == {sid};
    Advance(H, [], EMPTY, Initiate(sid, ino), s1);
    run := AppendOpensSession(H, [] + [Initiate(sid, ino)], s1, 0, sid, ino);
    var s2 := Goto(s1, 0, AppendWrite(sid, ino));
    run := FinalizeVerifiesSession(H, run, s2, 1, sid, ino, d);
    s := WriteThenLinkBreaks(H, run, Goto(s2, 1, FinalizeLink(Key(sid.ns, d), sid, 0)), sid, ino, d, b);
    run := run + [AppendChunk(0, [b])] + [FinalizeLinks(1, true)];
  }
}
