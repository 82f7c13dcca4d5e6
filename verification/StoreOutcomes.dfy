// What each call of the blob store promises its caller: when it succeeds, when it reports
// which error, and what there is to read afterwards.
module StoreOutcomes {
  import opened Basics
  import opened Digests
  import opened FileSystem
  import opened BlobStoreSpec

  // Every name but `n` is bound as before, and holds what it held.
  ghost predicate OnlyChanges(fs: Files, fs': Files, n: Name)
    requires WellFormed(fs)
  {
    forall x :: x != n && x in fs.names ==> x in fs'.names && fs'.names[x] in fs'.inodes && Content(fs', x) == Content(fs, x)
  }

  // The system calls of staging succeed.
  predicate Stages(env: Env) { env.mkdirs && env.opens && env.copies && env.syncs && env.closes }

  // The number of bytes PutBlob believes it has staged: a failure before the copy, or in the
  // sync after it, counts as none.
  function Counted(env: Env, data: Bytes): nat
  {
    if !env.mkdirs || !env.opens || (env.copies && !env.syncs) then 0 else |Copied(data, env)|
  }

  // A put succeeds exactly on a new digest that its bytes hash to, of the size announced.
  lemma PutOutcome(H: Hashes, fs: Files, env: Env, k: Key, size: int, data: Bytes)
    requires WellFormed(fs) && Fresh(fs, env, k.ns)
    ensures var (fs', r) := PutBlob(H, fs, env, k, size, data);
      && (r.Ok? <==> ValidDigest(k.digest) && Stages(env) && env.links && size == |data| && Matches(H, k.digest, data) && BlobName(k) !in fs.names)
      && (r.Ok? ==> r.value == |data| && BlobName(k) in fs'.names && fs'.names[BlobName(k)] in fs'.inodes && Content(fs', BlobName(k)) == data)
      && (r == Err(InvalidDigest) <==> !ValidDigest(k.digest))
      && (r == Err(SizeInvalid) <==> ValidDigest(k.digest) && (size < 0 || Counted(env, data) != size))
      && (r == Err(DigestMismatch) <==> ValidDigest(k.digest) && Stages(env) && size == |data| && !Matches(H, k.digest, data))
      && (r == Err(BlobCommitted) <==>
            ValidDigest(k.digest) && Stages(env) && env.links && size == |data| && Matches(H, k.digest, data) && BlobName(k) in fs.names)
  {
  }

  // What was there stays as it was; a put adds the digest when it succeeds, and otherwise at
  // most a staging file it could not remove again.
  lemma PutLeavesRest(H: Hashes, fs: Files, env: Env, k: Key, size: int, data: Bytes)
    requires WellFormed(fs) && Fresh(fs, env, k.ns)
    ensures var (fs', r) := PutBlob(H, fs, env, k, size, data);
      && (forall x :: x in fs.names ==> x in fs'.names && fs'.names[x] in fs'.inodes && Content(fs', x) == Content(fs, x))
      && (forall x :: x in fs'.names && x !in fs.names ==> (r.Ok? && x == BlobName(k)) || (!env.unlinks && x == Staged(k.ns, env.id)))
  {
  }

  lemma StatOutcome(fs: Files, env: Env, k: Key)
    requires WellFormed(fs)
    ensures var r := StatBlob(fs, env, k);
      && (r.Ok? <==> ValidDigest(k.digest) && BlobName(k) in fs.names && env.stats)
      && (r.Ok? ==> r.value == |Content(fs, BlobName(k))|)
      && (r == Err(InvalidDigest) <==> !ValidDigest(k.digest))
      && (r == Err(BlobUnknown) <==> ValidDigest(k.digest) && BlobName(k) !in fs.names)
  {
  }

  lemma GetOutcome(fs: Files, env: Env, k: Key)
    requires WellFormed(fs)
    ensures var r := GetBlob(fs, env, k);
      && (r.Ok? <==> ValidDigest(k.digest) && BlobName(k) in fs.names && env.opens && env.stats)
      && (r.Ok? ==> r.value == Content(fs, BlobName(k)))
      && (r == Err(InvalidDigest) <==> !ValidDigest(k.digest))
      && (r == Err(BlobUnknown) <==> ValidDigest(k.digest) && BlobName(k) !in fs.names)
  {
  }

  // A new session is empty, under the id reported, beside everything that was there.
  lemma InitiateOutcome(fs: Files, env: Env, ns: string)
    requires WellFormed(fs) && Fresh(fs, env, ns)
    ensures var (fs', r) := InitiateBlobUpload(fs, env, ns);
      && (r.Ok? <==> env.mkdirs && env.opens && env.closes)
      && (r.Ok? ==>
            var n := Staged(ns, r.value);
            && n !in fs.names && n in fs'.names && fs'.names[n] in fs'.inodes && Content(fs', n) == []
            && OnlyChanges(fs, fs', n) && fs'.names.Keys == fs.names.Keys + {n})
      && (r.Err? ==> r.error == IoError)
  {
  }

  // An append succeeds exactly at the session's length, and then the session holds its old
  // bytes and the new ones, and is as long as reported.  At any other offset it is refused
  // and nothing changes; a copy or sync that fails is never a success.
  lemma AppendOutcome(fs: Files, env: Env, ns: string, id: string, offset: int, data: Bytes)
    requires WellFormed(fs)
    ensures var (fs', r) := AppendBlobChunk(fs, env, ns, id, offset, data);
      var n := Staged(ns, id);
      var reached := n in fs.names && env.opens && env.stats;
      && (r.Ok? <==> 0 <= offset && reached && |Content(fs, n)| == offset && env.copies && env.syncs)
      && (r.Ok? ==> n in fs'.names && fs'.names[n] in fs'.inodes && Content(fs', n) == Content(fs, n) + data && r.value == |Content(fs', n)|)
      && (r == Err(UploadInvalid) <==> offset < 0)
      && (r == Err(UploadUnknown) <==> 0 <= offset && n !in fs.names)
      && (r == Err(RangeNotSatisfiable) <==> 0 <= offset && reached && |Content(fs, n)| != offset)
      && (r.Err? && r.error != IoError ==> fs' == fs)
      && (r == Err(IoError) && fs' != fs ==> reached && |Content(fs, n)| == offset && !(env.copies && env.syncs))
      && fs'.names == fs.names
      && (forall x :: x in fs.names && (n !in fs.names || fs.names[x] != fs.names[n]) ==>
            fs'.names[x] in fs'.inodes && Content(fs', x) == Content(fs, x))
  {
  }

  lemma OffsetOutcome(fs: Files, env: Env, ns: string, id: string)
    requires WellFormed(fs)
    ensures var r := GetBlobUploadOffset(fs, env, ns, id);
      && (r.Ok? <==> Staged(ns, id) in fs.names && env.stats)
      && (r.Ok? ==> r.value == |Content(fs, Staged(ns, id))|)
      && (r == Err(UploadUnknown) <==> Staged(ns, id) !in fs.names)
  {
  }

  // The staged file can be examined, and is what the caller says it is.
  predicate Verifies(H: Hashes, fs: Files, env: Env, n: Name, d: Digest, size: int)
    requires WellFormed(fs)
  {
    n in fs.names && env.stats && env.opens && env.readable && |Content(fs, n)| == size && Matches(H, d, Content(fs, n))
  }

  // A finalize succeeds exactly on a session of the size and digest announced whose digest
  // is new; then the digest holds what the session held.
  lemma FinalizeOutcome(H: Hashes, fs: Files, env: Env, ns: string, id: string, d: Digest, size: int)
    requires WellFormed(fs)
    ensures var (fs', r) := FinalizeBlobUpload(H, fs, env, ns, id, d, size);
      var n, blob := Staged(ns, id), BlobName(Key(ns, d));
      && (r.Ok? <==> ValidDigest(d) && Verifies(H, fs, env, n, d, size) && env.mkdirs && env.links && blob !in fs.names)
      && (r.Ok? ==> blob in fs'.names && fs'.names[blob] in fs'.inodes && Content(fs', blob) == Content(fs, n))
      && (r == Err(InvalidDigest) <==> !ValidDigest(d))
      && (r == Err(UploadUnknown) <==> ValidDigest(d) && n !in fs.names)
      && (r == Err(SizeInvalid) <==> ValidDigest(d) && n in fs.names && env.stats && |Content(fs, n)| != size)
      && (r == Err(DigestMismatch) <==>
            && ValidDigest(d) && n in fs.names && env.stats && env.opens && env.readable
            && |Content(fs, n)| == size && !Matches(H, d, Content(fs, n)))
      && (r == Err(BlobCommitted) <==> ValidDigest(d) && Verifies(H, fs, env, n, d, size) && env.mkdirs && env.links && blob in fs.names)
      && (r.Ok? || r == Err(BlobCommitted) ==> (n !in fs'.names <==> env.unlinks))
      && (r.Err? && r.error != BlobCommitted ==> fs' == fs)
  {
  }

  // Cancelling succeeds exactly when the session's name is gone afterwards.
  lemma CancelOutcome(fs: Files, env: Env, ns: string, id: string)
    requires WellFormed(fs)
    ensures var (fs', r) := CancelBlobUpload(fs, env, ns, id);
      && (r.Ok? <==> Staged(ns, id) !in fs'.names)
      && (r.Ok? <==> env.unlinks || Staged(ns, id) !in fs.names)
      && OnlyChanges(fs, fs', Staged(ns, id)) && (forall x :: x in fs'.names ==> x in fs.names)
  {
  }

  // A delete succeeds exactly when it removed the file; an absent one is told apart.
  lemma DeleteOutcome(fs: Files, env: Env, k: Key)
    requires WellFormed(fs)
    ensures var (fs', r) := DeleteBlob(fs, env, k);
      && (r.Ok? <==> BlobName(k) in fs.names && BlobName(k) !in fs'.names)
      && (r.Ok? <==> env.live && ValidDigest(k.digest) && env.started && BlobName(k) in fs.names && env.removes)
      && (r == Err(Cancelled) <==> !env.live)
      && (r == Err(InvalidDigest) <==> env.live && !ValidDigest(k.digest))
      && (r == Err(BlobUnknown) <==> env.live && ValidDigest(k.digest) && env.started && BlobName(k) !in fs.names)
      && OnlyChanges(fs, fs', BlobName(k)) && (forall x :: x in fs'.names ==> x in fs.names)
  {
  }
}
