// Commits and removals of one digest alternate, in every interleaving: link(2) is the
// only arbiter between concurrent commits (internal/blobstore/fs/store.go:184-203).
module Conservation {
  import opened Basics
  import opened Digests
  import opened FileSystem
  import opened Interleaving

  // ---- Logs ----

  // Whether the digest name is bound after these events.
  predicate PresentAfter(log: seq<Event>, k: Key)
  {
    log != [] &&
    var e := log[|log| - 1];
    if e.key == k && e.Linked? then true
    else if e.key == k && e.Removed? then false
    else PresentAfter(log[..|log| - 1], k)
  }

  // Each event fits what came before it.
  predicate Legal(log: seq<Event>, k: Key)
  {
    log == [] ||
    var before, e := log[..|log| - 1], log[|log| - 1];
    Legal(before, k) && (e.key == k ==> (e.Linked? <==> !PresentAfter(before, k)))
  }

  function Links(log: seq<Event>, k: Key): nat
  {
    if log == [] then 0
    else Links(log[..|log| - 1], k) + (if log[|log| - 1].Linked? && log[|log| - 1].key == k then 1 else 0)
  }

  function Removals(log: seq<Event>, k: Key): nat
  {
    if log == [] then 0
    else Removals(log[..|log| - 1], k) + (if log[|log| - 1].Removed? && log[|log| - 1].key == k then 1 else 0)
  }

  lemma {:induction false} LinksMinusRemovals(log: seq<Event>, k: Key)
    requires Legal(log, k)
    ensures Links(log, k) - Removals(log, k) == if PresentAfter(log, k) then 1 else 0
  {
    if log != [] { LinksMinusRemovals(log[..|log| - 1], k); }
  }

  predicate CommitsTo(e: Event, k: Key) { e.key == k && (e.Linked? || e.Rejected?) }

  // Between two removals: the first commit to reach link(2) stores the blob, and
  // every later one is told it is already there.
  lemma {:induction false} FirstCommitWins(log: seq<Event>, k: Key, i: nat, j: nat) returns (p: nat)
    requires i < j <= |log| && Legal(log[..j], k) && !PresentAfter(log[..i], k)
    requires forall q :: i <= q < j ==> !(log[q].Removed? && log[q].key == k)
    requires exists q :: i <= q < j && CommitsTo(log[q], k)
    ensures i <= p < j && log[p].Linked? && log[p].key == k
    ensures forall q :: i <= q < p ==> !CommitsTo(log[q], k)
    ensures forall q :: p < q < j && CommitsTo(log[q], k) ==> log[q].Rejected?
    ensures PresentAfter(log[..j], k)
    decreases j
  {
    assert log[..j][..j - 1] == log[..j - 1];
    if q :| i <= q < j - 1 && CommitsTo(log[q], k) {
      p := FirstCommitWins(log, k, i, j - 1);
    } else {
      p := j - 1;
      NothingHappens(log, k, i, j - 1);
    }
  }

  lemma {:induction false} NothingHappens(log: seq<Event>, k: Key, i: nat, j: nat)
    requires i <= j <= |log|
    requires forall q :: i <= q < j ==> !CommitsTo(log[q], k) && !(log[q].Removed? && log[q].key == k)
    ensures PresentAfter(log[..j], k) == PresentAfter(log[..i], k)
    decreases j
  {
    if i < j {
      assert log[..j][..j - 1] == log[..j - 1];
      NothingHappens(log, k, i, j - 1);
    }
  }

  // ---- The log of a run ----

  predicate Decided(pc: Pc) { pc.PutCleanup? || pc.FinalizeUnlink? || pc.CommitDone? }

  // The call has reported, or can only report, this outcome for this digest.
  predicate Reports(s: State, c: nat, k: Key, out: Outcome)
  {
    c in s.calls && Decided(s.calls[c]) && s.calls[c].key == k && s.calls[c].out == out
  }

  function Successes(s: State, k: Key): set<nat>
  {
    set c | c in s.calls && Reports(s, c, k, Stored)
  }

  // A commit's outcome is what its caller is told.
  predicate Honest(s: State, e: Event)
  {
    match e
    case Linked(c, k) => Reports(s, c, k, Stored)
    case Rejected(c, k) => Reports(s, c, k, AlreadyCommitted)
    case Removed(_, _) => true
  }

  ghost predicate Faithful(s: State, k: Key)
  {
    && Legal(s.log, k)
    && (PresentAfter(s.log, k) <==> BlobName(k) in s.fs.names)
    && |Successes(s, k)| == Links(s.log, k)
  }

  ghost predicate LogInv(s: State)
  {
    && (forall k :: Faithful(s, k))
    && (forall e :: e in s.log ==> Honest(s, e))
  }

  // A step that touches no digest name.
  lemma KeepSilent(s: State, s': State)
    requires LogInv(s) && s'.log == s.log
    requires forall k :: BlobName(k) in s'.fs.names <==> BlobName(k) in s.fs.names
    requires forall c, k, out :: Reports(s, c, k, out) ==> Reports(s', c, k, out)
    requires forall c, k :: Reports(s', c, k, Stored) ==> Reports(s, c, k, Stored)
    ensures LogInv(s')
  {
    forall k ensures Faithful(s', k) {
      assert Faithful(s, k);
      assert Successes(s', k) == Successes(s, k);
    }
    forall e | e in s'.log ensures Honest(s', e) { assert Honest(s, e); }
  }

  // A step in which call `c` reaches link(2).
  lemma KeepCommit(s: State, s': State, c: nat, k: Key, e: Event)
    requires LogInv(s) && c in s.calls && !Decided(s.calls[c])
    requires e == (if BlobName(k) in s.fs.names then Rejected(c, k) else Linked(c, k))
    requires s'.log == s.log + [e]
    requires forall x :: BlobName(x) in s'.fs.names <==> x == k || BlobName(x) in s.fs.names
    requires forall a :: a != c && a in s.calls ==> a in s'.calls && s'.calls[a] == s.calls[a]
    requires forall a :: a in s'.calls ==> a in s.calls
    requires c in s'.calls && Decided(s'.calls[c]) && s'.calls[c].key == k
    requires s'.calls[c].out == if e.Linked? then Stored else AlreadyCommitted
    ensures LogInv(s')
  {
    forall x ensures Faithful(s', x) {
      assert Faithful(s, x);
      if x == k && e.Linked? {
        assert Successes(s', x) == Successes(s, x) + {c};
        assert c !in Successes(s, x);
      } else {
        assert Successes(s', x) == Successes(s, x);
      }
    }
    forall x | x in s'.log ensures Honest(s', x) {
      if x in s.log { assert Honest(s, x); } else { assert x == e; }
    }
  }

  lemma KeepRemove(s: State, s': State, c: nat, k: Key)
    requires LogInv(s) && c in s.calls && s.calls[c].DeleteUnlink? && BlobName(k) in s.fs.names
    requires s'.log == s.log + [Removed(c, k)] && s'.calls == s.calls[c := Done]
    requires forall x :: BlobName(x) in s'.fs.names <==> x != k && BlobName(x) in s.fs.names
    ensures LogInv(s')
  {
    var e := Removed(c, k);
    forall x ensures Faithful(s', x) {
      assert Faithful(s, x);
      assert Successes(s', x) == Successes(s, x);
    }
    forall x | x in s'.log ensures Honest(s', x) {
      if x in s.log { assert Honest(s, x); } else { assert x == e; }
    }
  }

  lemma LinkKeepsLog(H: Hashes, s: State, t: Step)
    requires LogInv(s) && Enabled(s, t) && (t.PutLinks? || t.FinalizeLinks?)
    ensures LogInv(Apply(H, s, t))
  {
    var pc, s' := s.calls[t.c], Apply(H, s, t);
    match LinkOutcome(s, pc.key, pc.sid, t.ok)
    case Failed => KeepSilent(s, s');
    case AlreadyCommitted => KeepCommit(s, s', t.c, pc.key, Rejected(t.c, pc.key));
    case Stored => KeepCommit(s, s', t.c, pc.key, Linked(t.c, pc.key));
  }

  lemma RemovalKeepsLog(H: Hashes, s: State, t: Step)
    requires LogInv(s) && Enabled(s, t) && t.DeleteUnlinks?
    ensures LogInv(Apply(H, s, t))
  {
    var k := s.calls[t.c].key;
    if t.ok && BlobName(k) in s.fs.names {
      KeepRemove(s, Apply(H, s, t), t.c, k);
    } else {
      KeepSilent(s, Apply(H, s, t));
    }
  }

  lemma OthersReportNothing(H: Hashes, s: State, t: Step, c: nat)
    requires Enabled(s, t) && !t.PutLinks? && !t.FinalizeLinks? && !t.DeleteUnlinks?
    ensures var s' := Apply(H, s, t);
      && (c in s.calls && Decided(s.calls[c]) ==>
            c in s'.calls && Decided(s'.calls[c]) && s'.calls[c].key == s.calls[c].key && s'.calls[c].out == s.calls[c].out)
      && (c in s'.calls && Decided(s'.calls[c]) && s'.calls[c].out.Stored? ==> c in s.calls && Decided(s.calls[c]))
  {
  }

  lemma StepKeepsLog(H: Hashes, s: State, t: Step)
    requires LogInv(s) && Enabled(s, t)
    ensures LogInv(Apply(H, s, t))
  {
    if t.PutLinks? || t.FinalizeLinks? {
      LinkKeepsLog(H, s, t);
    } else if t.DeleteUnlinks? {
      RemovalKeepsLog(H, s, t);
    } else {
      forall c { OthersReportNothing(H, s, t, c); }
      KeepSilent(s, Apply(H, s, t));
    }
  }

  lemma {:induction false} RunKeepsLog(H: Hashes, s: State, run: seq<Step>)
    requires LogInv(s) && Possible(H, s, run)
    ensures LogInv(After(H, s, run))
    decreases |run|
  {
    if run != [] {
      StepKeepsLog(H, s, run[0]);
      RunKeepsLog(H, Apply(H, s, run[0]), run[1..]);
    }
  }

  // Conservation: in any interleaving, successful commits of a digest minus its
  // successful removals is 0 or 1, and is 1 exactly when the blob is there.
  lemma CommitsMinusRemovals(H: Hashes, run: seq<Step>, k: Key)
    requires Possible(H, EMPTY, run)
    ensures var s := After(H, EMPTY, run);
      |Successes(s, k)| - Removals(s.log, k) == if BlobName(k) in s.fs.names then 1 else 0
  {
    RunKeepsLog(H, EMPTY, run);
    var s := After(H, EMPTY, run);
    assert Faithful(s, k);
    LinksMinusRemovals(s.log, k);
  }

  // Of the commits of a digest that reach link(2) between two removals, the first
  // reports success and all the others report ErrBlobCommitted.
  lemma ExactlyOneCommitSucceeds(H: Hashes, run: seq<Step>, k: Key, i: nat, j: nat) returns (p: nat)
    requires Possible(H, EMPTY, run)
    requires var log := After(H, EMPTY, run).log;
      && i < j <= |log|
      && (i == 0 || (log[i - 1].Removed? && log[i - 1].key == k))
      && (forall q :: i <= q < j ==> !(log[q].Removed? && log[q].key == k))
      && exists q :: i <= q < j && CommitsTo(log[q], k)
    ensures var s := After(H, EMPTY, run);
      && i <= p < j && CommitsTo(s.log[p], k) && Reports(s, s.log[p].call, k, Stored)
      && forall q :: i <= q < j && q != p && CommitsTo(s.log[q], k) ==> p < q && Reports(s, s.log[q].call, k, AlreadyCommitted)
  {
    RunKeepsLog(H, EMPTY, run);
    var s := After(H, EMPTY, run);
    assert Faithful(s, k);
    LegalPrefix(s.log, k, j);
    if i > 0 { assert s.log[..i][..i - 1] == s.log[..i - 1]; }
    p := FirstCommitWins(s.log, k, i, j);
    assert s.log[p] in s.log;
    forall q | i <= q < j && q != p && CommitsTo(s.log[q], k)
      ensures p < q && Reports(s, s.log[q].call, k, AlreadyCommitted)
    {
      assert s.log[q] in s.log && Honest(s, s.log[q]);
    }
  }

  lemma {:induction false} LegalPrefix(log: seq<Event>, k: Key, j: nat)
    requires Legal(log, k) && j <= |log|
    ensures Legal(log[..j], k)
    decreases |log|
  {
    if j == |log| {
      assert log[..j] == log;
    } else {
      var before := log[..|log| - 1];
      LegalPrefix(before, k, j);
      assert before[..j] == log[..j];
    }
  }
}
