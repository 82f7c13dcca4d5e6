// Chunked uploads: what a session holds through failures and retries, and that
// committing it is the same as uploading its bytes at once.
module Uploads {
  import opened Basics
  import opened Digests
  import opened FileSystem
  import opened NameGrammar
  import opened Metastore
  import Blobs = BlobStoreSpec
  import opened BlobStoreSpec
  import opened Services

  // ---- Resuming ----

  // One AppendBlobChunk call as a client makes it.
  datatype Attempt = Attempt(offset: int, data: Bytes, env: Env)

  function Attempts(fs: Files, ns: string, id: string, tries: seq<Attempt>): (r: Files)
    requires WellFormed(fs)
    ensures WellFormed(r)
    decreases |tries|
  {
    if tries == [] then fs
    else Attempts(Blobs.AppendBlobChunk(fs, tries[0].env, ns, id, tries[0].offset, tries[0].data).0, ns, id, tries[1..])
  }

  // The chunk is the slice of `content` that starts at the offset it is offered at.
  predicate SliceOf(content: Bytes, a: Attempt)
  {
    0 <= a.offset ==> a.offset + |a.data| <= |content| && a.data == content[a.offset..a.offset + |a.data|]
  }

  lemma PrefixGrows(content: Bytes, held: Bytes, a: Attempt, got: Bytes)
    requires held <= content && SliceOf(content, a) && a.offset == |held| && got <= a.data
    ensures held + got <= content
  {
  }

  // Whatever is rejected, cut short or retried, the session holds a prefix of the
  // intended content, and the offset it reports is that prefix's length.
  lemma {:induction false} ResumeSafety(fs: Files, ns: string, id: string, tries: seq<Attempt>, content: Bytes, env: Env)
    requires WellFormed(fs) && Staged(ns, id) in fs.names && Content(fs, Staged(ns, id)) <= content
    requires forall a :: a in tries ==> SliceOf(content, a)
    ensures var fs' := Attempts(fs, ns, id, tries);
      && Staged(ns, id) in fs'.names && Content(fs', Staged(ns, id)) <= content
      && Content(fs, Staged(ns, id)) <= Content(fs', Staged(ns, id))
      && (env.stats ==> Blobs.GetBlobUploadOffset(fs', env, ns, id) == Ok(|Content(fs', Staged(ns, id))|))
    decreases |tries|
  {
    if tries != [] {
      var a := tries[0];
      var n := Staged(ns, id);
      var fs1 := Blobs.AppendBlobChunk(fs, a.env, ns, id, a.offset, a.data).0;
      if fs1 != fs {
        assert a in tries && a.offset == |Content(fs, n)|;
        PrefixGrows(content, Content(fs, n), a, Copied(a.data, a.env));
      }
      ResumeSafety(fs1, ns, id, tries[1..], content, env);
    }
  }

  // ---- Chunked against monolithic ----

  // Nothing goes wrong during the call.
  predicate Works(env: CallEnv)
  {
    && env.lookup && env.sourceLookup && Healthy(env.read) && Healthy(env.again) && Healthy(env.blob)
    && env.tx.begins && env.tx.commits && env.tx.faults == map[]
  }

  predicate Healthy(env: Env)
  {
    && env.mkdirs && env.opens && env.stats && env.copies && env.syncs && env.closes
    && env.readable && env.links && env.unlinks
  }

  // Every bound name with the bytes it holds: all that any later call can observe.
  function View(fs: Files): map<Name, Bytes>
    requires WellFormed(fs)
  {
    map n | n in fs.names :: Content(fs, n)
  }

  function Concat(chunks: seq<Bytes>): Bytes
  {
    if chunks == [] then [] else chunks[0] + Concat(chunks[1..])
  }

  // Appends the chunks one by one, each at the offset the previous append reported.
  function AppendAll(w: World, envs: seq<CallEnv>, ns: string, id: string, offset: int, chunks: seq<Bytes>): (r: (World, Result<int, ServiceError>))
    requires WellFormed(w.fs) && |envs| == |chunks|
    ensures WellFormed(r.0.fs)
    decreases |chunks|
  {
    if chunks == [] then (w, Ok(offset))
    else
      var (w1, r) := AppendChunk(w, envs[0], ns, id, offset, chunks[0]);
      if r.Err? then (w1, r) else AppendAll(w1, envs[1..], ns, id, r.value, chunks[1..])
  }

  function ChunkedUpload(
      H: Hashes, w: World, first: CallEnv, envs: seq<CallEnv>, last: CallEnv,
      ns: string, d: Digest, chunks: seq<Bytes>, final: Option<Bytes>): (World, Result<(), ServiceError>)
    requires WellFormed(w.fs) && |envs| == |chunks| && Fresh(w.fs, first.blob, ns)
  {
    var (w1, id) := InitiateUpload(w, first, ns);
    if id.Err? then (w1, Err(id.error))
    else
      var (w2, offset) := AppendAll(w1, envs, ns, id.value, 0, chunks);
      if offset.Err? then (w2, Err(offset.error))
      else CommitUpload(H, w2, last, ns, id.value, d, final)
  }

  // The world with one more session in it, holding `data`.
  function WithSession(w: World, ns: string, id: string, ino: Ino, data: Bytes): World
  {
    w.(fs := Files(w.fs.names[Staged(ns, id) := ino], w.fs.inodes[ino := data]))
  }

  lemma {:induction false} AppendsAccumulate(w: World, envs: seq<CallEnv>, ns: string, id: string, ino: Ino, held: Bytes, chunks: seq<Bytes>)
    requires WellFormed(w.fs) && |envs| == |chunks| && ValidName(ns) && ns in w.db.namespaces
    requires forall e :: e in envs ==> Works(e)
    ensures AppendAll(WithSession(w, ns, id, ino, held), envs, ns, id, |held|, chunks)
         == (WithSession(w, ns, id, ino, held + Concat(chunks)), Ok(|held + Concat(chunks)|))
    decreases |chunks|
  {
    var w0 := WithSession(w, ns, id, ino, held);
    if chunks == [] {
      assert held + [] == held;
    } else {
      assert envs[0] in envs;
      var w1 := AppendChunk(w0, envs[0], ns, id, |held|, chunks[0]).0;
      assert w1.fs.inodes == w.fs.inodes[ino := held + chunks[0]];
      assert w1 == WithSession(w, ns, id, ino, held + chunks[0]);
      AppendsAccumulate(w, envs[1..], ns, id, ino, held + chunks[0], chunks[1..]);
      assert held + chunks[0] + Concat(chunks[1..]) == held + Concat(chunks);
    }
  }

  // Recording a blob of an existing namespace succeeds.
  lemma Registers(w: World, env: CallEnv, k: Key, size: int, compensate: bool)
    requires Works(env) && k.ns in w.db.namespaces
    ensures Exec(w.db, InsertNamespaceBlob(k, size)).Ok?
    ensures Register(w, env, k, size, compensate) == (w.(db := Exec(w.db, InsertNamespaceBlob(k, size)).value), Ok(()))
  {
    var stmt := InsertNamespaceBlob(k, size);
    assert RunFrom(w.db, [stmt], 0, env.tx.faults) == RunFrom(Exec(w.db, stmt).value, [stmt], 1, env.tx.faults);
  }

  lemma FinalChunkCompletes(w: World, last: CallEnv, ns: string, id: string, ino: Ino, held: Bytes, final: Option<Bytes>)
    requires WellFormed(w.fs) && Works(last)
    ensures var data := held + (if final.Some? then final.value else []);
      AppendFinalChunk(WithSession(w, ns, id, ino, held).fs, last, ns, id, final)
        == (WithSession(w, ns, id, ino, data).fs, Ok(|data|))
  {
    assert held + [] == held;
    var data := held + (if final.Some? then final.value else []);
    assert w.fs.inodes[ino := held][ino := data] == w.fs.inodes[ino := data];
  }

  // Finalizing a session that holds `data`: its name goes, and the digest's appears.
  lemma FinalizesSession(H: Hashes, w: World, env: Env, ns: string, id: string, ino: Ino, d: Digest, data: Bytes)
    requires WellFormed(w.fs) && Staged(ns, id) !in w.fs.names && ino !in w.fs.inodes && Healthy(env) && ValidDigest(d)
    ensures var fs0 := WithSession(w, ns, id, ino, data).fs;
      var (fs, r) := Blobs.FinalizeBlobUpload(H, fs0, env, ns, id, d, |data|);
      var k := Key(ns, d);
      && (Matches(H, d, data) && BlobName(k) !in w.fs.names ==>
            r == Ok(()) && WellFormed(fs) && View(fs) == View(w.fs)[BlobName(k) := data])
      && (Matches(H, d, data) && BlobName(k) in w.fs.names ==> r == Err(BlobCommitted) && WellFormed(fs) && View(fs) == View(w.fs))
      && (!Matches(H, d, data) ==> r == Err(DigestMismatch) && fs == fs0)
  {
  }

  // What the commit reports.
  lemma CommitReports(H: Hashes, w: World, last: CallEnv, ns: string, id: string, ino: Ino, d: Digest, held: Bytes, final: Option<Bytes>, data: Bytes)
    requires WellFormed(w.fs) && Staged(ns, id) !in w.fs.names && ino !in w.fs.inodes
    requires Works(last) && ValidName(ns) && ns in w.db.namespaces && ValidDigest(d)
    requires data == held + (if final.Some? then final.value else [])
    ensures var r := CommitUpload(H, WithSession(w, ns, id, ino, held), last, ns, id, d, final).1;
      r == if !Matches(H, d, data) then Err(DigestInvalid) else if BlobName(Key(ns, d)) in w.fs.names then Err(Store(BlobCommitted)) else Ok(())
  {
    FinalChunkCompletes(w, last, ns, id, ino, held, final);
    FinalizesSession(H, w, last.blob, ns, id, ino, d, data);
    var fs := Blobs.FinalizeBlobUpload(H, WithSession(w, ns, id, ino, data).fs, last.blob, ns, id, d, |data|).0;
    Registers(World(fs, w.db), last, Key(ns, d), |data|, true);
    assert WithSession(w, ns, id, ino, held).(fs := fs) == World(fs, w.db);
  }

  // Committing a session that holds all but the final chunk of `data`.
  lemma CommitsSession(H: Hashes, w: World, last: CallEnv, ns: string, id: string, ino: Ino, d: Digest, held: Bytes, final: Option<Bytes>, data: Bytes)
    requires WellFormed(w.fs) && Staged(ns, id) !in w.fs.names && ino !in w.fs.inodes
    requires Works(last) && ValidName(ns) && ns in w.db.namespaces && ValidDigest(d)
    requires data == held + (if final.Some? then final.value else [])
    ensures var (w', r) := CommitUpload(H, WithSession(w, ns, id, ino, held), last, ns, id, d, final);
      var k := Key(ns, d);
      && WellFormed(w'.fs)
      && (Matches(H, d, data) && BlobName(k) !in w.fs.names ==>
            r == Ok(()) && View(w'.fs) == View(w.fs)[BlobName(k) := data]
            && w'.db == Exec(w.db, InsertNamespaceBlob(k, |data|)).value)
      && (Matches(H, d, data) && BlobName(k) in w.fs.names ==>
            r == Err(Store(BlobCommitted)) && View(w'.fs) == View(w.fs) && w'.db == w.db)
      && (!Matches(H, d, data) ==> r == Err(DigestInvalid) && View(w'.fs) == View(w.fs) && w'.db == w.db)
  {
    var w0 := WithSession(w, ns, id, ino, held);
    CommitReports(H, w, last, ns, id, ino, d, held, final, data);
    CommitLeaves(H, w0, last, ns, id, d, final);
    FinalChunkCompletes(w, last, ns, id, ino, held, final);
    FinalizesSession(H, w, last.blob, ns, id, ino, d, data);
    var fs := Blobs.FinalizeBlobUpload(H, WithSession(w, ns, id, ino, data).fs, last.blob, ns, id, d, |data|).0;
    Registers(World(fs, w.db), last, Key(ns, d), |data|, true);
    assert w0.(fs := fs) == World(fs, w.db);
    DiscardView(w, ns, id, ino, data);
  }

  // Discarding a session leaves what there was without it.
  lemma DiscardView(w: World, ns: string, id: string, ino: Ino, data: Bytes)
    requires WellFormed(w.fs) && Staged(ns, id) !in w.fs.names && ino !in w.fs.inodes
    ensures var fs := Unlink(WithSession(w, ns, id, ino, data).fs, Staged(ns, id)); WellFormed(fs) && View(fs) == View(w.fs)
  {
  }

  // What a put leaves to be seen when nothing fails.
  lemma PutView(H: Hashes, fs: Files, env: Env, k: Key, data: Bytes)
    requires WellFormed(fs) && Fresh(fs, env, k.ns) && Healthy(env) && ValidDigest(k.digest)
    ensures var (fs', r) := Blobs.PutBlob(H, fs, env, k, |data|, data);
      && WellFormed(fs')
      && (Matches(H, k.digest, data) && BlobName(k) !in fs.names ==> r == Ok(|data|) && View(fs') == View(fs)[BlobName(k) := data])
      && (Matches(H, k.digest, data) && BlobName(k) in fs.names ==> r == Err(BlobCommitted) && View(fs') == View(fs))
      && (!Matches(H, k.digest, data) ==> r == Err(DigestMismatch) && View(fs') == View(fs))
  {
  }

  // The same for an upload of the bytes at once.
  lemma UploadsAtOnce(H: Hashes, w: World, env: CallEnv, k: Key, data: Bytes)
    requires WellFormed(w.fs) && Fresh(w.fs, env.blob, k.ns)
    requires Works(env) && ValidName(k.ns) && k.ns in w.db.namespaces && ValidDigest(k.digest)
    ensures var (w', r) := MonolithicUpload(H, w, env, k, |data|, data);
      && WellFormed(w'.fs)
      && (Matches(H, k.digest, data) && BlobName(k) !in w.fs.names ==>
            r == Ok(()) && View(w'.fs) == View(w.fs)[BlobName(k) := data]
            && w'.db == Exec(w.db, InsertNamespaceBlob(k, |data|)).value)
      && (Matches(H, k.digest, data) && BlobName(k) in w.fs.names ==>
            r == Ok(()) && View(w'.fs) == View(w.fs)
            && w'.db == Exec(w.db, InsertNamespaceBlob(k, |Content(w.fs, BlobName(k))|)).value)
      && (!Matches(H, k.digest, data) ==> r == Err(DigestInvalid) && View(w'.fs) == View(w.fs) && w'.db == w.db)
  {
    var fs := Blobs.PutBlob(H, w.fs, env.blob, k, |data|, data).0;
    PutView(H, w.fs, env.blob, k, data);
    if BlobName(k) in w.fs.names { assert View(fs)[BlobName(k)] == View(w.fs)[BlobName(k)]; }
    var size := if BlobName(k) in w.fs.names then |Content(w.fs, BlobName(k))| else |data|;
    Registers(w.(fs := fs), env, k, size, true);
  }

  // For every way of cutting the content into chunks, with or without a final chunk in
  // the commit, a chunked upload of a digest not yet committed in its namespace leaves
  // the same files, sessions and rows and reports the same outcome as uploading the
  // concatenation at once.  On a digest already committed the two differ: the commit
  // reports ErrBlobCommitted and records no row.
  lemma ChunkedRefinesMonolithic(
      H: Hashes, w: World, first: CallEnv, envs: seq<CallEnv>, last: CallEnv, env: CallEnv,
      ns: string, d: Digest, chunks: seq<Bytes>, final: Option<Bytes>)
    requires WellFormed(w.fs) && |envs| == |chunks| && Fresh(w.fs, first.blob, ns) && Fresh(w.fs, env.blob, ns)
    requires Works(first) && Works(last) && Works(env) && forall e :: e in envs ==> Works(e)
    requires ValidName(ns) && ns in w.db.namespaces && ValidDigest(d)
    ensures var data := Concat(chunks) + (if final.Some? then final.value else []);
      var (wc, rc) := ChunkedUpload(H, w, first, envs, last, ns, d, chunks, final);
      var (wm, rm) := MonolithicUpload(H, w, env, Key(ns, d), |data|, data);
      && WellFormed(wc.fs) && WellFormed(wm.fs) && View(wc.fs) == View(wm.fs)
      && (rc == rm <==> BlobName(Key(ns, d)) !in w.fs.names || !Matches(H, d, data))
      && (rc == rm ==> wc.db == wm.db)
  {
    var data := Concat(chunks) + (if final.Some? then final.value else []);
    var id, ino := first.blob.id, first.blob.ino;
    assert InitiateUpload(w, first, ns) == (WithSession(w, ns, id, ino, []), Ok(id));
    AppendsAccumulate(w, envs, ns, id, ino, [], chunks);
    assert [] + Concat(chunks) == Concat(chunks);
    CommitsSession(H, w, last, ns, id, ino, d, Concat(chunks), final, data);
    UploadsAtOnce(H, w, env, Key(ns, d), data);
  }
}
