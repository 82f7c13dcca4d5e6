// What licenses module JointStores to see a blob store call as one step on a map of
// committed files: of the system calls of module Interleaving only link(2) on a digest
// name and unlink(2) of one change that map, and link(2) decides what a commit reports.
module Linearization {
  import opened Basics
  import opened Digests
  import opened FileSystem
  import opened AppendRaces
  import opened Interleaving
  import opened QuietRuns

  function FilesSeen(s: State): map<Key, Bytes>
    requires WellFormed(s.fs)
  {
    CommittedFiles(s.fs)
  }

  // What the committing call `c` finds when it links, and what is seen afterwards.
  ghost predicate Commits(H: Hashes, before: map<Key, Bytes>, after: map<Key, Bytes>, k: Key, data: Bytes, out: Outcome)
  {
    match out
    case Stored => Matches(H, k.digest, data) && k !in before && after == before[k := data]
    case AlreadyCommitted => Matches(H, k.digest, data) && k in before && after == before
    case Failed => after == before
  }

  lemma LinkShows(fs: Files, n: Name, k: Key)
    requires WellFormed(fs) && n in fs.names && BlobName(k) !in fs.names
    ensures var fs' := Link(fs, n, BlobName(k)); WellFormed(fs') && CommittedFiles(fs') == CommittedFiles(fs)[k := Content(fs, n)]
  {
    ShownAs(Link(fs, n, BlobName(k)), CommittedFiles(fs)[k := Content(fs, n)]);
  }

  lemma UnlinkShows(fs: Files, n: Name)
    requires WellFormed(fs)
    ensures var fs' := Unlink(fs, n);
      && WellFormed(fs')
      && CommittedFiles(fs') == if n.Committed? then CommittedFiles(fs) - {Key(n.ns, n.digest)} else CommittedFiles(fs)
  {
    ShownAs(Unlink(fs, n), if n.Committed? then CommittedFiles(fs) - {Key(n.ns, n.digest)} else CommittedFiles(fs));
  }

  lemma AppendShows(s: State, ino: Ino, data: Bytes)
    requires WellFormed(s.fs) && ino in s.fs.inodes && Uncommitted(s, ino)
    ensures var fs' := Append(s.fs, ino, data); WellFormed(fs') && CommittedFiles(fs') == CommittedFiles(s.fs)
  {
    ShownAs(Append(s.fs, ino, data), CommittedFiles(s.fs));
  }

  lemma CreateShows(fs: Files, sid: Session, ino: Ino)
    requires WellFormed(fs) && ino !in fs.inodes
    ensures var fs' := Create(fs, StagedName(sid), ino); WellFormed(fs') && CommittedFiles(fs') == CommittedFiles(fs)
  {
    ShownAs(Create(fs, StagedName(sid), ino), CommittedFiles(fs));
  }

  lemma LinkBlobShows(s: State, c: nat, k: Key, sid: Session, ok: bool)
    requires WellFormed(s.fs)
    ensures var s' := LinkBlob(s, c, k, sid, ok);
      && WellFormed(s'.fs)
      && match LinkOutcome(s, k, sid, ok)
         case Stored => StagedName(sid) in s.fs.names && k !in FilesSeen(s) && FilesSeen(s') == FilesSeen(s)[k := Content(s.fs, StagedName(sid))]
         case AlreadyCommitted => k in FilesSeen(s) && FilesSeen(s') == FilesSeen(s)
         case Failed => FilesSeen(s') == FilesSeen(s)
  {
    if LinkOutcome(s, k, sid, ok).Stored? { LinkShows(s.fs, StagedName(sid), k); }
  }

  // The call has verified the bytes it is about to link.
  lemma LinksVerified(H: Hashes, s: State, t: Step)
    requires Inv(H, s) && Enabled(s, t) && Links(t)
    ensures var k, sid := s.calls[t.c].key, s.calls[t.c].sid;
      && sid in s.made && s.made[sid] in s.fs.inodes && Matches(H, k.digest, s.fs.inodes[s.made[sid]])
      && (StagedName(sid) in s.fs.names ==> s.fs.names[StagedName(sid)] == s.made[sid])
  {
    assert CallStands(H, s, s.calls[t.c]) && CallQuiet(s, s.calls[t.c]);
    if s.calls[t.c].FinalizeLink? { assert Held(s, s.calls[t.c].sid)[..s.calls[t.c].n] == Held(s, s.calls[t.c].sid); }
  }

  // The link is where a commit takes effect and what it reports is decided, all at once:
  // the bytes it verified are what the digest holds from then on, or the digest was taken.
  lemma CommitIsAtomic(H: Hashes, s: State, t: Step)
    requires Inv(H, s) && Enabled(s, t) && Links(t)
    ensures var k, sid := s.calls[t.c].key, s.calls[t.c].sid;
      && sid in s.made && s.made[sid] in s.fs.inodes && WellFormed(Apply(H, s, t).fs)
      && Commits(H, FilesSeen(s), FilesSeen(Apply(H, s, t)), k, s.fs.inodes[s.made[sid]], LinkOutcome(s, k, sid, t.ok))
  {
    var pc := s.calls[t.c];
    LinksVerified(H, s, t);
    LinkStep(H, s, t);
    LinkBlobShows(s, t.c, pc.key, pc.sid, t.ok);
  }

  // The unlink of a digest name is where a removal takes effect.
  lemma RemovalIsAtomic(H: Hashes, s: State, t: Step)
    requires WellFormed(s.fs) && Enabled(s, t) && t.DeleteUnlinks?
    ensures WellFormed(Apply(H, s, t).fs)
    ensures FilesSeen(Apply(H, s, t)) == if t.ok then FilesSeen(s) - {s.calls[t.c].key} else FilesSeen(s)
  {
    UnlinkShows(s.fs, BlobName(s.calls[t.c].key));
  }

  lemma StagingShowsNothing(H: Hashes, s: State, t: Step)
    requires WellFormed(s.fs) && Enabled(s, t) && Stages(t)
    ensures WellFormed(Apply(H, s, t).fs) && FilesSeen(Apply(H, s, t)) == FilesSeen(s)
  {
    match t {
      case Initiate(sid, ino) => CreateShows(s.fs, sid, ino);
      case PutOpen(_, sid, ino) => CreateShows(s.fs, sid, ino);
      case PutUnlinks(c, _) => UnlinkShows(s.fs, StagedName(s.calls[c].sid));
      case FinalizeUnlinks(c, _) => UnlinkShows(s.fs, StagedName(s.calls[c].sid));
      case CancelUnlinks(c, _) => UnlinkShows(s.fs, StagedName(s.calls[c].sid));
      case VacuumUnlinks(sid) => UnlinkShows(s.fs, StagedName(sid));
    }
  }

  lemma WriterShows(H: Hashes, s: State, c: nat, data: Bytes)
    requires Inv(H, s) && c in s.calls && (s.calls[c].PutWrite? || s.calls[c].AppendWrite?)
    ensures s.calls[c].ino in s.fs.inodes
    ensures var fs' := Append(s.fs, s.calls[c].ino, data); WellFormed(fs') && CommittedFiles(fs') == CommittedFiles(s.fs)
  {
    assert CallStands(H, s, s.calls[c]) && CallQuiet(s, s.calls[c]);
    AppendShows(s, s.calls[c].ino, data);
  }

  lemma WritingShowsNothing(H: Hashes, s: State, t: Step)
    requires Inv(H, s) && Enabled(s, t) && Writes(t)
    ensures WellFormed(Apply(H, s, t).fs) && FilesSeen(Apply(H, s, t)) == FilesSeen(s)
  {
    WriterShows(H, s, t.c, t.data);
  }

  // No other system call changes a committed file: the bytes under a digest never change
  // while they are there.
  lemma NothingElseShows(H: Hashes, s: State, t: Step)
    requires Inv(H, s) && Enabled(s, t) && !Links(t) && !t.DeleteUnlinks?
    ensures WellFormed(Apply(H, s, t).fs) && FilesSeen(Apply(H, s, t)) == FilesSeen(s)
  {
    if Stages(t) {
      StagingShowsNothing(H, s, t);
    } else if Writes(t) {
      WritingShowsNothing(H, s, t);
    } else {
      ReadingChangesNothing(H, s, t);
    }
  }
}
