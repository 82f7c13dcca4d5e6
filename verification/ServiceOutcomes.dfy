// What each service call promises its caller, in terms of what the two stores hold before
// and after it.
module ServiceOutcomes {
  import opened Basics
  import opened Digests
  import opened FileSystem
  import opened NameGrammar
  import opened Metastore
  import opened Manifests
  import Blobs = BlobStoreSpec
  import opened BlobStoreSpec
  import opened Services
  import opened StoreOutcomes

  // ---- Checks on the arguments ----

  // The namespace can be used, with this digest.
  predicate Usable(w: World, env: CallEnv, ns: string) { ValidName(ns) && env.lookup && ns in w.db.namespaces }

  predicate UsableKey(w: World, env: CallEnv, k: Key) { Usable(w, env, k.ns) && ValidDigest(k.digest) }

  // A malformed name is reported first, then a malformed digest, then a lookup that fails,
  // then an unknown name.
  lemma ChecksInOrder(w: World, env: CallEnv, k: Key)
    ensures ValidateNamespaceDigest(w, env, k).None? <==> UsableKey(w, env, k)
    ensures ValidateNamespaceDigest(w, env, k) == Some(NameInvalid) <==> !ValidName(k.ns)
    ensures ValidateNamespaceDigest(w, env, k) == Some(DigestInvalid) <==> ValidName(k.ns) && !ValidDigest(k.digest)
    ensures ValidateNamespaceDigest(w, env, k) == Some(UnknownName) <==>
      ValidName(k.ns) && ValidDigest(k.digest) && env.lookup && k.ns !in w.db.namespaces
    ensures ValidateNamespace(w, env, k.ns).None? <==> Usable(w, env, k.ns)
    ensures ValidateNamespace(w, env, k.ns) == Some(NameInvalid) <==> !ValidName(k.ns)
    ensures ValidateNamespace(w, env, k.ns) == Some(UnknownName) <==> ValidName(k.ns) && env.lookup && k.ns !in w.db.namespaces
  {
  }

  // ---- Blobs ----

  predicate ActiveBlob(db: Db, k: Key) { k in db.blobs && db.blobs[k].lifecycle.Active? }

  // A stat answers with the row's size exactly when there is an active row.
  lemma StatOutcome(w: World, env: CallEnv, k: Key)
    requires UsableKey(w, env, k) && env.tx.begins
    ensures Services.StatBlob(w, env, k).Ok? <==> ActiveBlob(w.db, k)
    ensures ActiveBlob(w.db, k) ==> Services.StatBlob(w, env, k) == Ok(w.db.blobs[k].size)
    ensures !ActiveBlob(w.db, k) ==> Services.StatBlob(w, env, k) == Err(UnknownBlob)
  {
  }

  // A get delivers the file's bytes with the row's size exactly when there are both.
  lemma GetOutcome(w: World, env: CallEnv, k: Key)
    requires WellFormed(w.fs) && UsableKey(w, env, k) && env.tx.begins && env.read.opens && env.read.stats
    ensures Services.GetBlob(w, env, k).Ok? <==> ActiveBlob(w.db, k) && BlobName(k) in w.fs.names
    ensures Services.GetBlob(w, env, k).Ok? ==> Services.GetBlob(w, env, k) == Ok((Content(w.fs, BlobName(k)), w.db.blobs[k].size))
    ensures Services.GetBlob(w, env, k).Err? ==> Services.GetBlob(w, env, k) == Err(UnknownBlob)
  {
  }

  // ---- Uploads ----

  lemma InitiateOutcome(w: World, env: CallEnv, ns: string)
    requires WellFormed(w.fs) && Fresh(w.fs, env.blob, ns)
    ensures var (w', r) := InitiateUpload(w, env, ns);
      && w'.db == w.db
      && (r.Ok? <==> Usable(w, env, ns) && env.blob.mkdirs && env.blob.opens && env.blob.closes)
      && (r.Ok? ==> Staged(ns, r.value) !in w.fs.names && Staged(ns, r.value) in w'.fs.names && w'.fs.names[Staged(ns, r.value)] in w'.fs.inodes
                    && Content(w'.fs, Staged(ns, r.value)) == [])
      && (!Usable(w, env, ns) ==> w' == w)
  {
    StoreOutcomes.InitiateOutcome(w.fs, env.blob, ns);
  }

  // Appending succeeds exactly at the session's length, and then the session holds its old
  // bytes and the chunk; at another offset the range is refused, and no row changes ever.
  lemma AppendOutcome(w: World, env: CallEnv, ns: string, id: string, offset: int, data: Bytes)
    requires WellFormed(w.fs) && Usable(w, env, ns) && env.again.opens && env.again.stats
    ensures var (w', r) := AppendChunk(w, env, ns, id, offset, data);
      var n := Staged(ns, id);
      && w'.db == w.db
      && (r.Ok? <==> 0 <= offset && n in w.fs.names && |Content(w.fs, n)| == offset && env.again.copies && env.again.syncs)
      && (r.Ok? ==> n in w'.fs.names && w'.fs.names[n] in w'.fs.inodes && Content(w'.fs, n) == Content(w.fs, n) + data
                    && r.value == |Content(w'.fs, n)|)
      && (r == Err(BadRange) <==> 0 <= offset && n in w.fs.names && |Content(w.fs, n)| != offset)
      && (r == Err(UnknownUpload) <==> 0 <= offset && n !in w.fs.names)
      && (r == Err(BadRange) || r == Err(UnknownUpload) || offset < 0 ==> w' == w)
  {
    StoreOutcomes.AppendOutcome(w.fs, env.again, ns, id, offset, data);
  }

  lemma StatusOutcome(w: World, env: CallEnv, ns: string, id: string)
    requires WellFormed(w.fs) && Usable(w, env, ns) && env.read.stats
    ensures var r := GetUploadStatus(w, env, ns, id);
      && (r.Ok? <==> Staged(ns, id) in w.fs.names)
      && (r.Ok? ==> r.value == |Content(w.fs, Staged(ns, id))|)
      && (r.Err? ==> r.error == UnknownUpload)
  {
  }

  // Cancelling succeeds exactly on a known session whose removal works, and then its name is
  // gone; an unknown session is reported, and whatever happens nothing else changes.
  lemma CancelOutcome(w: World, env: CallEnv, ns: string, id: string)
    requires WellFormed(w.fs) && Usable(w, env, ns) && env.read.stats
    ensures var (w', r) := CancelUpload(w, env, ns, id);
      && w'.db == w.db && OnlyChanges(w.fs, w'.fs, Staged(ns, id)) && (forall x :: x in w'.fs.names ==> x in w.fs.names)
      && (r.Ok? <==> Staged(ns, id) in w.fs.names && env.blob.unlinks)
      && (r.Ok? ==> Staged(ns, id) !in w'.fs.names)
      && (r == Err(UnknownUpload) <==> Staged(ns, id) !in w.fs.names)
      && (r.Err? ==> w' == w)
  {
    StoreOutcomes.CancelOutcome(w.fs, env.blob, ns, id);
  }

  // The blob is there to be served: its file and an active row.
  ghost predicate Stored(w: World, k: Key)
  {
    BlobName(k) in w.fs.names && w.fs.names[BlobName(k)] in w.fs.inodes && ActiveBlob(w.db, k)
  }

  // Recording a row succeeds only when the row is there.
  lemma RegisterOutcome(w: World, env: CallEnv, k: Key, size: int, compensate: bool)
    ensures var (w', r) := Register(w, env, k, size, compensate);
      && (r.Ok? ==> w'.fs == w.fs && ActiveBlob(w'.db, k) && w'.db.blobs[k].size == if k in w.db.blobs then w.db.blobs[k].size else size)
      && (r.Err? ==> w'.db == w.db)
      && (r.Err? && !compensate ==> w' == w)
  {
    AllOrNothing(w.db, [InsertNamespaceBlob(k, size)], env.tx);
    if Register(w, env, k, size, compensate).1.Ok? {
      assert [] + [InsertNamespaceBlob(k, size)] == [InsertNamespaceBlob(k, size)];
      ExecAllSnoc(w.db, [], InsertNamespaceBlob(k, size));
    }
  }

  // An upload that succeeds has stored its blob: new bytes as they were sent, of the size
  // announced, unless the digest was there before, which is left as it was.
  lemma MonolithicOutcome(H: Hashes, w: World, env: CallEnv, k: Key, size: int, data: Bytes)
    requires WellFormed(w.fs) && Fresh(w.fs, env.blob, k.ns)
    ensures var (w', r) := MonolithicUpload(H, w, env, k, size, data);
      && (r.Ok? ==> UsableKey(w, env, k) && Stored(w', k) && size == |data| && Matches(H, k.digest, data)
                    && Content(w'.fs, BlobName(k)) == if BlobName(k) in w.fs.names then Content(w.fs, BlobName(k)) else data)
      && (r.Err? ==> w'.db == w.db)
      && (!UsableKey(w, env, k) ==> r.Err? && w' == w)
      && (UsableKey(w, env, k) && Stages(env.blob) && size == |data| && !Matches(H, k.digest, data) ==> r == Err(DigestInvalid))
      && (UsableKey(w, env, k) && (size < 0 || Counted(env.blob, data) != size) ==> r == Err(BadSize))
  {
    PutOutcome(H, w.fs, env.blob, k, size, data);
    PutLeavesRest(H, w.fs, env.blob, k, size, data);
    var (fs, put) := Blobs.PutBlob(H, w.fs, env.blob, k, size, data);
    if put.Ok? {
      RegisterOutcome(w.(fs := fs), env, k, put.value, true);
    } else if put == Err(BlobCommitted) && Blobs.StatBlob(fs, env.read, k).Ok? {
      RegisterOutcome(w.(fs := fs), env, k, Blobs.StatBlob(fs, env.read, k).value, true);
    }
  }

  // A commit that succeeds has moved to the digest what the session held and the chunk added.
  lemma CommitOutcome(H: Hashes, w: World, env: CallEnv, ns: string, id: string, d: Digest, chunk: Option<Bytes>)
    requires WellFormed(w.fs)
    ensures var (w', r) := CommitUpload(H, w, env, ns, id, d, chunk);
      var n, k := Staged(ns, id), Key(ns, d);
      && (r.Ok? ==>
            && UsableKey(w, env, k) && n in w.fs.names && BlobName(k) !in w.fs.names && Stored(w', k)
            && Content(w'.fs, BlobName(k)) == Content(w.fs, n) + (if chunk.Some? then chunk.value else [])
            && Matches(H, d, Content(w'.fs, BlobName(k))) && (env.blob.unlinks ==> n !in w'.fs.names))
      && (r.Err? ==> w'.db == w.db)
      && (!UsableKey(w, env, k) ==> r.Err? && w' == w)
      && (UsableKey(w, env, k) && n !in w.fs.names ==> r == Err(UnknownUpload) && w' == w)
  {
    if UsableKey(w, env, Key(ns, d)) {
      var (fs, total) := AppendFinalChunk(w.fs, env, ns, id, chunk);
      FinalChunkOutcome(w.fs, env, ns, id, chunk);
      if total.Ok? {
        FinalizeOutcome(H, fs, env.blob, ns, id, d, total.value);
        var fs2 := Blobs.FinalizeBlobUpload(H, fs, env.blob, ns, id, d, total.value).0;
        RegisterOutcome(w.(fs := fs2), env, Key(ns, d), total.value, true);
      }
    }
  }

  // The session as it is when it is finalized, and its length.
  lemma FinalChunkOutcome(fs: Files, env: CallEnv, ns: string, id: string, chunk: Option<Bytes>)
    requires WellFormed(fs)
    ensures var (fs', r) := AppendFinalChunk(fs, env, ns, id, chunk);
      var n := Staged(ns, id);
      && WellFormed(fs') && fs'.names == fs.names
      && (r.Ok? ==> n in fs.names && Content(fs', n) == Content(fs, n) + (if chunk.Some? then chunk.value else []) && r.value == |Content(fs', n)|)
      && (n !in fs.names ==> r == Err(UploadUnknown) && fs' == fs)
  {
    OffsetOutcome(fs, env.read, ns, id);
    var offset := Blobs.GetBlobUploadOffset(fs, env.read, ns, id);
    if offset.Ok? && chunk.Some? { StoreOutcomes.AppendOutcome(fs, env.again, ns, id, offset.value, chunk.value); }
  }

  // A mount that succeeds has the source's blob in the target namespace, or what the digest
  // held there before; a missing source is a failed mount.
  lemma MountOutcome(H: Hashes, w: World, env: CallEnv, source: string, k: Key)
    requires WellFormed(w.fs) && Fresh(w.fs, env.blob, k.ns)
    ensures var (w', r) := MountBlob(H, w, env, source, k);
      var from := BlobName(Key(source, k.digest));
      && (r.Ok? ==>
            && UsableKey(w, env, k) && ValidName(source) && source in w.db.namespaces && from in w.fs.names && Stored(w', k)
            && Matches(H, k.digest, Content(w.fs, from))
            && Content(w'.fs, BlobName(k)) == if BlobName(k) in w.fs.names then Content(w.fs, BlobName(k)) else Content(w.fs, from))
      && (!UsableKey(w, env, k) ==> r.Err? && w' == w)
      && (UsableKey(w, env, k) && env.sourceLookup && env.read.opens && env.read.stats ==>
            (r == Err(MountFailed) <==> !ValidName(source) || source !in w.db.namespaces || from !in w.fs.names))
      && (r == Err(MountFailed) ==> w' == w)
  {
    if UsableKey(w, env, k) && Blobs.GetBlob(w.fs, env.read, Key(source, k.digest)).Ok? {
      CopyOutcome(H, w, env, k, Content(w.fs, BlobName(Key(source, k.digest))));
    }
  }

  lemma CopyOutcome(H: Hashes, w: World, env: CallEnv, k: Key, data: Bytes)
    requires WellFormed(w.fs) && Fresh(w.fs, env.blob, k.ns)
    ensures var (w', r) := MountBlobCopy(H, w, env, k, data);
      && (r.Ok? ==> Stored(w', k) && Matches(H, k.digest, data)
                    && Content(w'.fs, BlobName(k)) == if BlobName(k) in w.fs.names then Content(w.fs, BlobName(k)) else data)
      && r != Err(MountFailed)
  {
    PutOutcome(H, w.fs, env.blob, k, |data|, data);
    PutLeavesRest(H, w.fs, env.blob, k, |data|, data);
    var (fs, put) := Blobs.PutBlob(H, w.fs, env.blob, k, |data|, data);
    if put.Ok? {
      RegisterOutcome(w.(fs := fs), env, k, put.value, true);
    } else if put == Err(BlobCommitted) && Blobs.StatBlob(fs, env.again, k).Ok? {
      RegisterOutcome(w.(fs := fs), env, k, Blobs.StatBlob(fs, env.again, k).value, false);
    }
  }

  lemma RegisterSucceeds(w: World, env: CallEnv, k: Key, size: int, compensate: bool)
    requires k.ns in w.db.namespaces && env.tx.begins && env.tx.commits && env.tx.faults == map[]
    ensures Register(w, env, k, size, compensate).1.Ok?
  {
    AllOrNothing(w.db, [InsertNamespaceBlob(k, size)], env.tx);
    assert [] + [InsertNamespaceBlob(k, size)] == [InsertNamespaceBlob(k, size)];
    ExecAllSnoc(w.db, [], InsertNamespaceBlob(k, size));
  }

  // When nothing fails, a mount succeeds exactly if its source has a blob that is what its
  // digest says, whether or not the target has it too.
  lemma MountSucceeds(H: Hashes, w: World, env: CallEnv, source: string, k: Key)
    requires WellFormed(w.fs) && Fresh(w.fs, env.blob, k.ns) && UsableKey(w, env, k)
    requires env.sourceLookup && env.read.opens && env.read.stats && env.read.closes && env.again.stats
    requires Stages(env.blob) && env.blob.links && env.tx.begins && env.tx.commits && env.tx.faults == map[]
    ensures var from := BlobName(Key(source, k.digest));
      MountBlob(H, w, env, source, k).1.Ok? <==>
        ValidName(source) && source in w.db.namespaces && from in w.fs.names && Matches(H, k.digest, Content(w.fs, from))
  {
    var from := Key(source, k.digest);
    if BlobName(from) in w.fs.names {
      var data := Content(w.fs, BlobName(from));
      PutOutcome(H, w.fs, env.blob, k, |data|, data);
      PutLeavesRest(H, w.fs, env.blob, k, |data|, data);
      var (fs, put) := Blobs.PutBlob(H, w.fs, env.blob, k, |data|, data);
      var size := if put.Ok? then put.value else if BlobName(k) in fs.names then |Content(fs, BlobName(k))| else 0;
      RegisterSucceeds(w.(fs := fs), env, k, size, put.Ok?);
    }
  }

  // ---- Manifests ----

  predicate ActiveManifest(db: Db, k: Key) { k in db.manifests && db.manifests[k].lifecycle.Active? }

  // References are digests; anything without a colon is a tag, which is not supported.
  lemma ReferenceOutcome(w: World, env: CallEnv, ns: string, reference: string)
    ensures var r := ValidateManifestKey(w, env, ns, reference);
      && (r.Ok? <==> Usable(w, env, ns) && ValidDigest(reference))
      && (r.Ok? ==> r.value == Key(ns, reference))
      && (r == Err(NameInvalid) <==> !ValidName(ns))
      && (r == Err(Unsupported) <==> ValidName(ns) && ':' !in reference)
      && (r == Err(DigestInvalid) <==> ValidName(ns) && ':' in reference && !ValidDigest(reference))
      && (r == Err(UnknownName) <==> ValidName(ns) && ValidDigest(reference) && env.lookup && ns !in w.db.namespaces)
  {
    DigestHasColon(reference);
  }

  lemma DigestHasColon(d: Digest)
    ensures ValidDigest(d) ==> ':' in d
  {
    if ValidDigest(d) { assert d[Colon(d)] == ':'; }
  }

  // A put that succeeds reports the body's own digest, and the body and a row are there; one
  // that fails for its arguments changes nothing.
  lemma PutOutcomeOk(H: Hashes, parse: Parser, w: World, env: CallEnv, ns: string, reference: string, ct: string, body: Bytes, now: int)
    requires WellFormed(w.fs) && Fresh(w.fs, env.blob, ns)
    ensures var (w', r) := PutManifest(H, parse, w, env, ns, reference, ct, body, now);
      var k := Key(ns, reference);
      && (r.Ok? ==>
            && r.value == reference == ManifestDigest(H, body) && PutAccepted(H, parse, w, env, ns, reference, ct, body)
            && k in w'.db.manifests && BlobName(k) in w'.fs.names && w'.fs.names[BlobName(k)] in w'.fs.inodes
            && (BlobName(k) !in w.fs.names ==> Content(w'.fs, BlobName(k)) == body)
            && (k !in w.db.manifests ==> ActiveManifest(w'.db, k) && w'.db.manifests[k].size == |body|))
      && (r.Err? ==> w'.db == w.db)
  {
    PutOutcome(H, w.fs, env.blob, Key(ns, reference), |body|, body);
    PutLeavesRest(H, w.fs, env.blob, Key(ns, reference), |body|, body);
    if PutAccepted(H, parse, w, env, ns, reference, ct, body) {
      var k, m := Key(ns, reference), ParseManifestBody(parse, ct, body).value;
      AllOrNothing(w.db, StoreManifest(k, m, |body|, now), env.tx);
      if ExecAll(w.db, StoreManifest(k, m, |body|, now)).Ok? { StoreEffect(w.db, k, m, |body|, now); }
    }
  }

  // Once accepted, a request can only fail in one of the stores.
  lemma AcceptedReports(H: Hashes, parse: Parser, w: World, env: CallEnv, ns: string, reference: string, ct: string, body: Bytes, now: int)
    requires WellFormed(w.fs) && Fresh(w.fs, env.blob, ns) && PutAccepted(H, parse, w, env, ns, reference, ct, body)
    ensures var r := PutManifest(H, parse, w, env, ns, reference, ct, body, now).1;
      r.Ok? || r.error.Store? || r.error.Meta? || r.error.Panicking?
  {
  }

  // What is not accepted changes nothing, and is refused in this order: name, tag reference,
  // malformed or wrong digest, unknown name, body.
  lemma PutRefusals(H: Hashes, parse: Parser, w: World, env: CallEnv, ns: string, reference: string, ct: string, body: Bytes, now: int)
    requires WellFormed(w.fs) && Fresh(w.fs, env.blob, ns) && !PutAccepted(H, parse, w, env, ns, reference, ct, body)
    ensures PutManifest(H, parse, w, env, ns, reference, ct, body, now) == (w, Err(
      if !ValidName(ns) then NameInvalid
      else if ':' !in reference then Unsupported
      else if !ValidDigest(reference) || ManifestDigest(H, body) != reference then DigestInvalid
      else if !env.lookup then Meta(Broken)
      else if ns !in w.db.namespaces then UnknownName
      else ManifestInvalid))
  {
    DigestHasColon(reference);
  }

  lemma AcceptedSucceeds(H: Hashes, parse: Parser, w: World, env: CallEnv, ns: string, reference: string, ct: string, body: Bytes, now: int)
    requires WellFormed(w.fs) && Fresh(w.fs, env.blob, ns) && PutAccepted(H, parse, w, env, ns, reference, ct, body)
    requires var k := Key(ns, reference);
      var put := Blobs.PutBlob(H, w.fs, env.blob, k, |body|, body).1;
      && (put.Ok? || put == Err(BlobCommitted))
      && Transact(w.db, StoreManifest(k, ParseManifestBody(parse, ct, body).value, |body|, now), env.tx).1.Committed?
    ensures PutManifest(H, parse, w, env, ns, reference, ct, body, now).1.Ok?
  {
  }

  // When nothing fails, what is accepted, and only that, succeeds.
  lemma PutSucceeds(H: Hashes, parse: Parser, w: World, env: CallEnv, ns: string, reference: string, ct: string, body: Bytes, now: int)
    requires WellFormed(w.fs) && Fresh(w.fs, env.blob, ns) && Stages(env.blob) && env.blob.links
    requires env.tx.begins && env.tx.commits && env.tx.faults == map[]
    ensures PutManifest(H, parse, w, env, ns, reference, ct, body, now).1.Ok? <==> PutAccepted(H, parse, w, env, ns, reference, ct, body)
  {
    if PutAccepted(H, parse, w, env, ns, reference, ct, body) {
      var k, m := Key(ns, reference), ParseManifestBody(parse, ct, body).value;
      ManifestMatches(H, body);
      PutOutcome(H, w.fs, env.blob, k, |body|, body);
      AllOrNothing(w.db, StoreManifest(k, m, |body|, now), env.tx);
      StoreSucceeds(w.db, k, m, |body|, now);
      AcceptedSucceeds(H, parse, w, env, ns, reference, ct, body, now);
    } else {
      PutRefusals(H, parse, w, env, ns, reference, ct, body, now);
    }
  }

  // A delete succeeds exactly on an active manifest whose transaction goes through; then it
  // is not active any more, and its file is gone if it could be removed.
  lemma DeleteOutcome(w: World, env: CallEnv, ns: string, reference: string)
    requires Usable(w, env, ns) && ValidDigest(reference) && env.tx.begins && env.tx.commits && env.tx.faults == map[]
    ensures var (w', r) := DeleteManifest(w, env, ns, reference);
      var k := Key(ns, reference);
      && (r.Ok? <==> ActiveManifest(w.db, k))
      && (r.Ok? ==> !ActiveManifest(w'.db, k) && k !in w'.db.referrers)
      && (r.Ok? && env.blob.live && env.blob.started && env.blob.removes ==> BlobName(k) !in w'.fs.names)
      && (r.Err? ==> r == Err(Meta(ManifestUnknown)) && w' == w)
  {
    var k := Key(ns, reference);
    DigestHasColon(reference);
    AllOrNothing(w.db, RemoveManifest(k), env.tx);
    RemoveEffect(w.db, k);
  }

  // ---- Namespaces ----

  lemma NamespaceOutcome(w: World, env: CallEnv, ns: string, create: bool)
    requires env.tx.begins && env.tx.commits && env.tx.faults == map[]
    ensures var (w', r) := ChangeNamespace(w, env, ns, if create then CreateNamespace(ns) else DeleteNamespace(ns));
      && (r == Err(NameInvalid) <==> !ValidName(ns))
      && (r.Ok? <==> ValidName(ns) && if create then ns !in w.db.namespaces else ns in w.db.namespaces && !Referenced(w.db, ns))
      && (r.Ok? ==> w'.fs == w.fs && (ns in w'.db.namespaces <==> create))
      && (r.Err? ==> w' == w)
  {
    var stmt := if create then CreateNamespace(ns) else DeleteNamespace(ns);
    AllOrNothing(w.db, [stmt], env.tx);
    assert [] + [stmt] == [stmt];
    ExecAllSnoc(w.db, [], stmt);
  }
}
