// Runs in which appends are kept off finalizes: content-address safety in all of them.
module QuietRuns {
  import opened Basics
  import opened Digests
  import opened FileSystem
  import opened AppendRaces
  import opened Interleaving

  // ---- The invariant ----

  ghost predicate BeingUnlinked(s: State, sid: Session)
  {
    exists c :: c in s.calls && s.calls[c].FinalizeUnlink? && s.calls[c].sid == sid
  }

  // A session whose staging name is still bound while its inode is committed is
  // about to be unlinked, or is left over from a failed unlink.
  ghost predicate Sealed(s: State, sid: Session)
  {
    sid in s.made && StagedName(sid) in s.fs.names && !Uncommitted(s, s.made[sid]) ==>
      sid in s.leftover || BeingUnlinked(s, sid)
  }

  // What a call relies on beyond what stands in every run: an open append writes to no
  // committed file, and what a finalize verified is all its session holds.
  ghost predicate CallQuiet(s: State, pc: Pc)
    requires Ownership(s)
  {
    match pc
    case AppendStat(_, _, ino) => Uncommitted(s, ino)
    case AppendWrite(_, ino) => Uncommitted(s, ino)
    case FinalizeLink(_, sid, n) => sid in s.made && n == |Held(s, sid)|
    case _ => true
  }

  ghost predicate Inv(H: Hashes, s: State)
  {
    && Stands(H, s) && ContentSafe(H, s.fs)
    && (forall sid :: sid in s.issued ==> Sealed(s, sid))
    && (forall c :: c in s.calls ==> CallQuiet(s, s.calls[c]))
  }

  // ---- Every step keeps the invariant ----

  lemma StepIsSafe(H: Hashes, s: State, t: Step)
    requires Inv(H, s) && Enabled(s, t)
    ensures StepSafe(H, s, t)
  {
    if Writes(t) || Links(t) {
      var pc := s.calls[t.c];
      assert CallStands(H, s, pc) && CallQuiet(s, pc);
      if pc.FinalizeLink? { assert Held(s, pc.sid)[..pc.n] == Held(s, pc.sid); }
    }
  }

  // Only a link commits an inode, and it is the inode of its call's session.
  lemma OnlyLinksCommit(H: Hashes, s: State, t: Step)
    requires Enabled(s, t) && !Links(t)
    ensures forall n: Name :: n.Committed? && n in Apply(H, s, t).fs.names ==> n in s.fs.names && Apply(H, s, t).fs.names[n] == s.fs.names[n]
  {
  }

  lemma LinkCommitsOwn(H: Hashes, s: State, t: Step, sid: Session)
    requires Stands(H, s) && Enabled(s, t) && sid in s.made
    requires Uncommitted(s, s.made[sid]) && !Uncommitted(Apply(H, s, t), s.made[sid])
    ensures Links(t) && s.calls[t.c].sid == sid && LinkOutcome(s, s.calls[t.c].key, sid, t.ok).Stored?
  {
    if Links(t) { LinkStep(H, s, t); } else { OnlyLinksCommit(H, s, t); }
  }

  // An append in flight either was before, or has just opened its session.
  lemma AppendWasOpen(H: Hashes, s: State, t: Step, c: nat, sid: Session)
    requires Enabled(s, t) && c in Apply(H, s, t).calls && Appending(Apply(H, s, t).calls[c], sid)
    ensures (c in s.calls && Appending(s.calls[c], sid) && s.calls[c].ino == Apply(H, s, t).calls[c].ino)
      || (t == AppendOpens(c) && c in s.calls && s.calls[c].AppendOpen? && s.calls[c].sid == sid && StagedName(sid) in s.fs.names)
  {
  }

  lemma OpeningIsQuiet(H: Hashes, s: State, c: nat, sid: Session)
    requires Inv(H, s) && Enabled(s, AppendOpens(c)) && Quiet(Apply(H, s, AppendOpens(c)))
    requires s.calls[c].sid == sid && StagedName(sid) in s.fs.names
    ensures sid in s.made && Uncommitted(s, s.made[sid])
  {
    var s' := Apply(H, s, AppendOpens(c));
    assert CallStands(H, s, s.calls[c]) && Sealed(s, sid);
    assert Appending(s'.calls[c], sid);
    if BeingUnlinked(s, sid) {
      var f :| f in s.calls && s.calls[f].FinalizeUnlink? && s.calls[f].sid == sid;
      assert f in s'.calls && Finalizing(s'.calls[f], sid);
    }
  }

  lemma AppendsStayQuiet(H: Hashes, s: State, t: Step, c: nat, sid: Session)
    requires Inv(H, s) && Enabled(s, t) && Quiet(s) && Quiet(Apply(H, s, t)) && Stands(H, Apply(H, s, t))
    requires c in Apply(H, s, t).calls && Appending(Apply(H, s, t).calls[c], sid)
    ensures Uncommitted(Apply(H, s, t), Apply(H, s, t).calls[c].ino)
  {
    AppendWasOpen(H, s, t, c, sid);
    assert CallStands(H, s, s.calls[c]) && CallQuiet(s, s.calls[c]);
    assert CallStands(H, Apply(H, s, t), Apply(H, s, t).calls[c]);
    if t == AppendOpens(c) && !Appending(s.calls[c], sid) {
      OpeningIsQuiet(H, s, c, sid);
      OnlyLinksCommit(H, s, t);
    } else if !Uncommitted(Apply(H, s, t), s.made[sid]) {
      LinkCommitsOwn(H, s, t, sid);
    }
  }

  lemma LinksStayQuiet(H: Hashes, s: State, t: Step, c: nat)
    requires Inv(H, s) && Enabled(s, t) && Quiet(s)
    requires c in Apply(H, s, t).calls && Apply(H, s, t).calls[c].FinalizeLink?
    ensures var pc := Apply(H, s, t).calls[c];
      Ownership(Apply(H, s, t)) && pc.sid in Apply(H, s, t).made && pc.n == |Held(Apply(H, s, t), pc.sid)|
  {
    var s', pc := Apply(H, s, t), Apply(H, s, t).calls[c];
    if c in s.calls && s.calls[c] == pc {
      assert CallStands(H, s, pc) && CallQuiet(s, pc) && Finalizing(pc, pc.sid);
      StepGrows(H, s, t, pc.sid);
      if Held(s', pc.sid) != Held(s, pc.sid) {
        assert CallStands(H, s, s.calls[t.c]);
        assert Appending(s.calls[t.c], pc.sid);
      }
    } else {
      ComesToLink(H, s, t, c);
      StepGrows(H, s, t, pc.sid);
    }
  }

  lemma UnlinkingStays(H: Hashes, s: State, t: Step, sid: Session)
    requires Enabled(s, t) && BeingUnlinked(s, sid)
    ensures BeingUnlinked(Apply(H, s, t), sid) || (t.FinalizeUnlinks? && s.calls[t.c].sid == sid)
  {
    var f :| f in s.calls && s.calls[f].FinalizeUnlink? && s.calls[f].sid == sid;
    if !(t.FinalizeUnlinks? && t.c == f) { assert f in Apply(H, s, t).calls && Apply(H, s, t).calls[f] == s.calls[f]; }
  }

  // A staging name that is bound now was bound before to the same inode, or is new.
  lemma StagedWas(H: Hashes, s: State, t: Step, sid: Session)
    requires Enabled(s, t) && StagedName(sid) in Apply(H, s, t).fs.names
    ensures StagedName(sid) in s.fs.names || (Creates(t) && t.sid == sid)
    ensures s.leftover <= Apply(H, s, t).leftover
  {
  }

  // What FinalizeUnlinks leaves bound it leaves over.
  lemma UnlinkedOrLeft(H: Hashes, s: State, t: Step)
    requires Enabled(s, t) && t.FinalizeUnlinks?
    ensures StagedName(s.calls[t.c].sid) !in Apply(H, s, t).fs.names || s.calls[t.c].sid in Apply(H, s, t).leftover
  {
  }

  lemma FreshIsUncommitted(H: Hashes, s: State, t: Step)
    requires WellFormed(s.fs) && Enabled(s, t) && Creates(t)
    ensures t.sid in Apply(H, s, t).made && Uncommitted(Apply(H, s, t), Apply(H, s, t).made[t.sid])
  {
  }

  lemma SealsStay(H: Hashes, s: State, t: Step, sid: Session)
    requires Inv(H, s) && Enabled(s, t) && Stands(H, Apply(H, s, t)) && sid in Apply(H, s, t).issued
    ensures Sealed(Apply(H, s, t), sid)
  {
    var s' := Apply(H, s, t);
    if StagedName(sid) in s'.fs.names && !Uncommitted(s', s'.made[sid]) {
      StagedWas(H, s, t, sid);
      if Creates(t) { FreshIsUncommitted(H, s, t); }
      SessionsWere(H, s, t, sid);
      assert Sealed(s, sid);
      if Uncommitted(s, s.made[sid]) {
        LinkCommitsOwn(H, s, t, sid);
        assert CallStands(H, s, s.calls[t.c]) && s'.calls[t.c].FinalizeUnlink?;
      } else if sid !in s.leftover {
        UnlinkingStays(H, s, t, sid);
        if t.FinalizeUnlinks? { UnlinkedOrLeft(H, s, t); }
      }
    }
  }

  lemma SessionsWere(H: Hashes, s: State, t: Step, sid: Session)
    requires Ownership(s) && Enabled(s, t) && sid in Apply(H, s, t).issued && !(Creates(t) && t.sid == sid)
    ensures sid in s.issued && sid in Apply(H, s, t).made && Apply(H, s, t).made[sid] == s.made[sid]
  {
    if !Creates(t) { OnlyCreationAddsSessions(H, s, t); }
  }

  // Every step keeps the invariant, provided no append overlaps a finalize.
  lemma StepKeepsInv(H: Hashes, s: State, t: Step)
    requires Inv(H, s) && Enabled(s, t) && Quiet(s) && Quiet(Apply(H, s, t))
    ensures Inv(H, Apply(H, s, t))
  {
    var s' := Apply(H, s, t);
    StepStands(H, s, t);
    StepIsSafe(H, s, t);
    SafeStepKeeps(H, s, t);
    forall sid | sid in s'.issued ensures Sealed(s', sid) { SealsStay(H, s, t, sid); }
    forall c | c in s'.calls ensures CallQuiet(s', s'.calls[c]) {
      var pc := s'.calls[c];
      if pc.AppendStat? || pc.AppendWrite? {
        AppendsStayQuiet(H, s, t, c, pc.sid);
      } else if pc.FinalizeLink? {
        LinksStayQuiet(H, s, t, c);
      }
    }
  }

  lemma {:induction false} RunKeepsInv(H: Hashes, s: State, run: seq<Step>)
    requires Inv(H, s) && Possible(H, s, run) && QuietThroughout(H, s, run)
    ensures Inv(H, After(H, s, run))
    decreases |run|
  {
    if run != [] {
      StepKeepsInv(H, s, run[0]);
      RunKeepsInv(H, Apply(H, s, run[0]), run[1..]);
    }
  }

  // Content-address safety: after any quiet interleaving from an empty store, every
  // digest name holds bytes that hash to that digest.
  lemma ContentAddressSafety(H: Hashes, run: seq<Step>)
    requires Possible(H, EMPTY, run) && QuietThroughout(H, EMPTY, run)
    ensures ContentSafe(H, After(H, EMPTY, run).fs)
  {
    RunKeepsInv(H, EMPTY, run);
  }
}
