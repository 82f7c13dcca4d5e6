// Namespaces do not see each other: whatever a history does, what it leaves in one
// namespace is what the calls naming that namespace do on their own.
module Isolation {
  import opened Basics
  import opened Digests
  import opened FileSystem
  import opened NameGrammar
  import opened Metastore
  import opened Manifests
  import Blobs = BlobStoreSpec
  import opened BlobStoreSpec
  import opened Services

  // ---- One namespace's share of the stores ----

  function FilesOf(fs: Files, ns: string): Files
  {
    Files(map n | n in fs.names && n.ns == ns :: fs.names[n],
          map i | i in fs.inodes && i.ns == ns :: fs.inodes[i])
  }

  function OwnRows<V>(rows: map<Key, V>, ns: string): map<Key, V>
  {
    map k | k in rows && k.ns == ns :: rows[k]
  }

  function RowsOf(db: Db, ns: string): Db
  {
    Db((set x | x in db.namespaces && x == ns), OwnRows(db.blobs, ns), OwnRows(db.manifests, ns), OwnRows(db.referrers, ns))
  }

  function ShareOf(w: World, ns: string): World { World(FilesOf(w.fs, ns), RowsOf(w.db, ns)) }

  // Every name is bound to an inode that its own namespace's calls allocated.
  ghost predicate Owned(fs: Files)
  {
    forall n :: n in fs.names ==> fs.names[n] in fs.inodes && fs.names[n].ns == n.ns
  }

  // The operating system hands a call of `ns` an inode of `ns`.
  predicate Own(fs: Files, env: Env, ns: string) { Fresh(fs, env, ns) && env.ino.ns == ns }

  // ---- The blob store ----

  lemma SharesAgree(fs: Files, ns: string)
    requires Owned(fs)
    ensures Owned(FilesOf(fs, ns)) && WellFormed(fs) && WellFormed(FilesOf(fs, ns))
    ensures forall n: Name :: n.ns == ns ==> (n in FilesOf(fs, ns).names <==> n in fs.names)
    ensures forall n :: n in FilesOf(fs, ns).names ==> Content(FilesOf(fs, ns), n) == Content(fs, n)
  {
  }

  lemma BindShares(fs: Files, n: Name, ino: Ino, ns: string)
    ensures FilesOf(fs.(names := fs.names[n := ino]), ns)
         == if ns != n.ns then FilesOf(fs, ns) else FilesOf(fs, ns).(names := FilesOf(fs, ns).names[n := ino])
  {
  }

  lemma WriteShares(fs: Files, ino: Ino, data: Bytes, ns: string)
    ensures FilesOf(fs.(inodes := fs.inodes[ino := data]), ns)
         == if ns != ino.ns then FilesOf(fs, ns) else FilesOf(fs, ns).(inodes := FilesOf(fs, ns).inodes[ino := data])
  {
  }

  lemma StagedBytesShares(fs: Files, env: Env, up: string, data: Bytes, ns: string)
    requires Owned(fs) && Own(fs, env, up)
    ensures Owned(StagedBytes(fs, env, up, data))
    ensures FilesOf(StagedBytes(fs, env, up, data), ns)
         == if ns == up then StagedBytes(FilesOf(fs, ns), env, up, data) else FilesOf(fs, ns)
  {
    var written := fs.(inodes := fs.inodes[env.ino := Copied(data, env)]);
    WriteShares(fs, env.ino, Copied(data, env), ns);
    BindShares(written, Staged(up, env.id), env.ino, ns);
  }

  lemma PutShares(H: Hashes, fs: Files, env: Env, k: Key, size: int, data: Bytes, ns: string)
    requires Owned(fs) && Own(fs, env, k.ns)
    ensures var (fs', r) := Blobs.PutBlob(H, fs, env, k, size, data);
      && Owned(fs')
      && (ns != k.ns ==> FilesOf(fs', ns) == FilesOf(fs, ns))
      && (ns == k.ns ==> Own(FilesOf(fs, ns), env, ns) && Blobs.PutBlob(H, FilesOf(fs, ns), env, k, size, data) == (FilesOf(fs', ns), r))
  {
    PutCases(H, fs, env, k, size, data);
    PutCases(H, FilesOf(fs, ns), env, k, size, data);
    StagedBytesShares(fs, env, k.ns, data, ns);
    BindShares(StagedBytes(fs, env, k.ns, data), BlobName(k), env.ino, ns);
  }

  lemma AppendShares(fs: Files, env: Env, up: string, id: string, offset: int, data: Bytes, ns: string)
    requires Owned(fs)
    ensures WellFormed(fs) && WellFormed(FilesOf(fs, ns))
    ensures var (fs', r) := Blobs.AppendBlobChunk(fs, env, up, id, offset, data);
      && Owned(fs')
      && (ns != up ==> FilesOf(fs', ns) == FilesOf(fs, ns))
      && (ns == up ==> Blobs.AppendBlobChunk(FilesOf(fs, ns), env, up, id, offset, data) == (FilesOf(fs', ns), r))
  {
    SharesAgree(fs, ns);
    if Staged(up, id) in fs.names {
      var ino := fs.names[Staged(up, id)];
      WriteShares(fs, ino, fs.inodes[ino] + Copied(data, env), ns);
    }
  }

  // The files once a finalize has linked, or found the digest taken, and unlinked or not.
  function Linked(fs: Files, env: Env, ns: string, id: string, k: Key): Files
    requires Staged(ns, id) in fs.names
  {
    var released := if env.unlinks then Unlink(fs, Staged(ns, id)) else fs;
    if BlobName(k) in fs.names then released
    else released.(names := released.names[BlobName(k) := fs.names[Staged(ns, id)]])
  }

  lemma LinkedShares(fs: Files, env: Env, up: string, id: string, d: Digest, ns: string)
    requires Owned(fs) && Staged(up, id) in fs.names
    ensures Owned(Linked(fs, env, up, id, Key(up, d)))
    ensures ns != up ==> FilesOf(Linked(fs, env, up, id, Key(up, d)), ns) == FilesOf(fs, ns)
    ensures ns == up ==>
      Staged(up, id) in FilesOf(fs, ns).names && FilesOf(Linked(fs, env, up, id, Key(up, d)), ns) == Linked(FilesOf(fs, ns), env, up, id, Key(up, d))
  {
    var released := if env.unlinks then Unlink(fs, Staged(up, id)) else fs;
    UnlinkShares(fs, Staged(up, id), ns);
    BindShares(released, BlobName(Key(up, d)), fs.names[Staged(up, id)], ns);
  }

  lemma FinalizeShares(H: Hashes, fs: Files, env: Env, up: string, id: string, d: Digest, size: int, ns: string)
    requires Owned(fs)
    ensures WellFormed(fs) && WellFormed(FilesOf(fs, ns))
    ensures var (fs', r) := Blobs.FinalizeBlobUpload(H, fs, env, up, id, d, size);
      && Owned(fs')
      && (ns != up ==> FilesOf(fs', ns) == FilesOf(fs, ns))
      && (ns == up ==> Blobs.FinalizeBlobUpload(H, FilesOf(fs, ns), env, up, id, d, size) == (FilesOf(fs', ns), r))
  {
    SharesAgree(fs, ns);
    if Staged(up, id) in fs.names {
      LinkedShares(fs, env, up, id, d, ns);
      var fs' := Blobs.FinalizeBlobUpload(H, fs, env, up, id, d, size).0;
      assert fs' == fs || fs' == Linked(fs, env, up, id, Key(up, d));
    }
  }

  lemma InitiateShares(fs: Files, env: Env, up: string, ns: string)
    requires Owned(fs) && Own(fs, env, up)
    ensures var (fs', r) := Blobs.InitiateBlobUpload(fs, env, up);
      && Owned(fs')
      && (ns != up ==> FilesOf(fs', ns) == FilesOf(fs, ns))
      && (ns == up ==> Own(FilesOf(fs, ns), env, ns) && Blobs.InitiateBlobUpload(FilesOf(fs, ns), env, up) == (FilesOf(fs', ns), r))
  {
    var written := fs.(inodes := fs.inodes[env.ino := []]);
    WriteShares(fs, env.ino, [], ns);
    BindShares(written, Staged(up, env.id), env.ino, ns);
  }

  lemma UnlinkShares(fs: Files, n: Name, ns: string)
    requires Owned(fs)
    ensures Owned(Unlink(fs, n))
    ensures ns != n.ns ==> FilesOf(Unlink(fs, n), ns) == FilesOf(fs, ns)
    ensures ns == n.ns ==> FilesOf(Unlink(fs, n), ns) == Unlink(FilesOf(fs, ns), n)
  {
  }

  // ---- The metadata store ----

  function NamespaceOf(stmt: Stmt): string
  {
    match stmt
    case CreateNamespace(x) => x
    case DeleteNamespace(x) => x
    case InsertNamespaceBlob(k, _) => k.ns
    case InsertManifest(k, _, _) => k.ns
    case DeleteManifestByDigest(k) => k.ns
    case UpsertReferrer(k, _) => k.ns
    case DeleteReferrer(k) => k.ns
  }

  lemma NamespaceStmtShares(db: Db, stmt: Stmt, ns: string)
    requires stmt.CreateNamespace? || stmt.DeleteNamespace?
    ensures stmt.ns != ns && Exec(db, stmt).Ok? ==> RowsOf(Exec(db, stmt).value, ns) == RowsOf(db, ns)
    ensures stmt.ns == ns ==>
      Exec(RowsOf(db, ns), stmt) == match Exec(db, stmt) case Ok(db') => Ok(RowsOf(db', ns)) case Err(e) => Err(e)
  {
    if Exec(db, stmt).Ok? {
      var db' := Exec(db, stmt).value;
      assert db'.blobs == db.blobs && db'.manifests == db.manifests && db'.referrers == db.referrers;
      assert stmt.ns != ns ==> RowsOf(db', ns).namespaces == RowsOf(db, ns).namespaces;
      assert stmt.ns == ns && stmt.CreateNamespace? ==> RowsOf(db', ns).namespaces == RowsOf(db, ns).namespaces + {ns};
      assert stmt.ns == ns && stmt.DeleteNamespace? ==> RowsOf(db', ns).namespaces == RowsOf(db, ns).namespaces - {ns};
    }
  }

  lemma RowShares<V>(rows: map<Key, V>, k: Key, row: V, ns: string)
    ensures OwnRows(rows[k := row], ns) == if k.ns == ns then OwnRows(rows, ns)[k := row] else OwnRows(rows, ns)
    ensures OwnRows(rows - {k}, ns) == if k.ns == ns then OwnRows(rows, ns) - {k} else OwnRows(rows, ns)
  {
  }

  lemma RowStmtShares(db: Db, stmt: Stmt, ns: string)
    requires !stmt.CreateNamespace? && !stmt.DeleteNamespace?
    ensures NamespaceOf(stmt) != ns && Exec(db, stmt).Ok? ==> RowsOf(Exec(db, stmt).value, ns) == RowsOf(db, ns)
    ensures NamespaceOf(stmt) == ns ==>
      Exec(RowsOf(db, ns), stmt) == match Exec(db, stmt) case Ok(db') => Ok(RowsOf(db', ns)) case Err(e) => Err(e)
  {
    if Exec(db, stmt).Ok? {
      var db' := Exec(db, stmt).value;
      match stmt {
        case InsertNamespaceBlob(k, _) => RowShares(db.blobs, k, db'.blobs[k], ns);
        case InsertManifest(k, _, _) => RowShares(db.manifests, k, db'.manifests[k], ns);
        case DeleteManifestByDigest(k) => RowShares(db.manifests, k, db'.manifests[k], ns);
        case UpsertReferrer(k, _) => RowShares(db.referrers, k, db'.referrers[k], ns);
        case DeleteReferrer(k) => RowShares(db.referrers, k, ReferrerRow("", "", "", 0, map[], 0), ns);
      }
    }
  }

  lemma ExecShares(db: Db, stmt: Stmt, ns: string)
    ensures NamespaceOf(stmt) != ns && Exec(db, stmt).Ok? ==> RowsOf(Exec(db, stmt).value, ns) == RowsOf(db, ns)
    ensures NamespaceOf(stmt) == ns ==>
      Exec(RowsOf(db, ns), stmt) == match Exec(db, stmt) case Ok(db') => Ok(RowsOf(db', ns)) case Err(e) => Err(e)
  {
    if stmt.CreateNamespace? || stmt.DeleteNamespace? { NamespaceStmtShares(db, stmt, ns); } else { RowStmtShares(db, stmt, ns); }
  }

  ghost predicate Names(body: seq<Stmt>, ns: string) { forall s :: s in body ==> NamespaceOf(s) == ns }

  lemma {:induction false} RunShares(db: Db, body: seq<Stmt>, i: nat, faults: map<nat, TxFault>, x: string, ns: string)
    requires i <= |body| && Names(body, x)
    ensures x != ns ==> RowsOf(RunFrom(db, body, i, faults).0, ns) == RowsOf(db, ns)
    ensures x == ns ==> RunFrom(RowsOf(db, ns), body, i, faults) == (RowsOf(RunFrom(db, body, i, faults).0, ns), RunFrom(db, body, i, faults).1)
    decreases |body| - i
  {
    if i < |body| && i !in faults {
      assert body[i] in body;
      ExecShares(db, body[i], ns);
      if Exec(db, body[i]).Ok? { RunShares(Exec(db, body[i]).value, body, i + 1, faults, x, ns); }
    }
  }

  lemma TransactShares(db: Db, body: seq<Stmt>, env: TxEnv, x: string, ns: string)
    requires Names(body, x)
    ensures x != ns ==> RowsOf(Transact(db, body, env).0, ns) == RowsOf(db, ns)
    ensures x == ns ==> Transact(RowsOf(db, ns), body, env) == (RowsOf(Transact(db, body, env).0, ns), Transact(db, body, env).1)
  {
    RunShares(db, body, 0, env.faults, x, ns);
  }

  // ---- The calls ----

  // One service call.  `Copy` is what a mount does once it has read its source.
  datatype Call =
    | Upload(env: CallEnv, k: Key, size: int, data: Bytes)
    | Copy(env: CallEnv, k: Key, data: Bytes)
    | Mount(env: CallEnv, source: string, k: Key)
    | Initiate(env: CallEnv, up: string)
    | Append(env: CallEnv, up: string, id: string, offset: int, data: Bytes)
    | Commit(env: CallEnv, up: string, id: string, d: Digest, chunk: Option<Bytes>)
    | Cancel(env: CallEnv, up: string, id: string)
    | Put(env: CallEnv, up: string, reference: string, contentType: string, body: Bytes, now: int)
    | Delete(env: CallEnv, up: string, reference: string)
    | Change(env: CallEnv, up: string, create: bool)

  // The namespace the call is about.
  function Home(c: Call): string
  {
    match c
    case Upload(_, k, _, _) => k.ns
    case Copy(_, k, _) => k.ns
    case Mount(_, _, k) => k.ns
    case _ => c.up
  }

  predicate Allowed(w: World, c: Call) { Own(w.fs, c.env.blob, Home(c)) }

  function Apply(H: Hashes, parse: Parser, w: World, c: Call): World
    requires WellFormed(w.fs) && Allowed(w, c)
  {
    match c
    case Upload(env, k, size, data) => MonolithicUpload(H, w, env, k, size, data).0
    case Copy(env, k, data) => CopyUpload(H, w, env, k, data)
    case Mount(env, source, k) => MountBlob(H, w, env, source, k).0
    case Initiate(env, up) => InitiateUpload(w, env, up).0
    case Append(env, up, id, offset, data) => AppendChunk(w, env, up, id, offset, data).0
    case Commit(env, up, id, d, chunk) => CommitUpload(H, w, env, up, id, d, chunk).0
    case Cancel(env, up, id) => CancelUpload(w, env, up, id).0
    case Put(env, up, reference, ct, body, now) => PutManifest(H, parse, w, env, up, reference, ct, body, now).0
    case Delete(env, up, reference) => DeleteManifest(w, env, up, reference).0
    case Change(env, up, create) => ChangeNamespace(w, env, up, if create then CreateNamespace(up) else DeleteNamespace(up)).0
  }

  // An upload of given bytes on the terms of a mount.
  function CopyUpload(H: Hashes, w: World, env: CallEnv, k: Key, data: Bytes): World
    requires WellFormed(w.fs) && Fresh(w.fs, env.blob, k.ns)
  {
    if ValidateNamespaceDigest(w, env, k).Some? then w else MountBlobCopy(H, w, env, k, data).0
  }

  // What holds of one step `w` to `w'` of a call about `up`, seen from `ns`: another
  // namespace's share does not change, and the call's own share changes as it would alone.
  ghost predicate Isolated(w: World, w': World, alone: World, up: string, ns: string)
  {
    Owned(w'.fs) && (if ns != up then ShareOf(w', ns) == ShareOf(w, ns) else ShareOf(w', ns) == alone)
  }

  lemma LookupShares(w: World, env: CallEnv, x: string, ns: string)
    requires ns == x
    ensures ValidateNamespace(ShareOf(w, ns), env, x) == ValidateNamespace(w, env, x)
    ensures forall k: Key :: k.ns == x ==> ValidateNamespaceDigest(ShareOf(w, ns), env, k) == ValidateNamespaceDigest(w, env, k)
  {
  }

  lemma DeleteShares(fs: Files, env: Env, k: Key, ns: string)
    requires Owned(fs)
    ensures var fs' := Blobs.DeleteBlob(fs, env, k).0;
      && Owned(fs')
      && FilesOf(fs', ns) == if ns == k.ns then Blobs.DeleteBlob(FilesOf(fs, ns), env, k).0 else FilesOf(fs, ns)
  {
  }

  lemma RegisterShares(w: World, env: CallEnv, k: Key, size: int, compensate: bool, ns: string)
    requires Owned(w.fs)
    ensures Isolated(w, Register(w, env, k, size, compensate).0, Register(ShareOf(w, ns), env, k, size, compensate).0, k.ns, ns)
  {
    TransactShares(w.db, [InsertNamespaceBlob(k, size)], env.tx, k.ns, ns);
    AllOrNothing(w.db, [InsertNamespaceBlob(k, size)], env.tx);
    DeleteShares(w.fs, env.blob, k, ns);
  }

  lemma ReadShares(fs: Files, env: Env, k: Key, id: string, ns: string)
    requires Owned(fs) && ns == k.ns
    ensures WellFormed(fs) && WellFormed(FilesOf(fs, ns))
    ensures Blobs.StatBlob(FilesOf(fs, ns), env, k) == Blobs.StatBlob(fs, env, k)
    ensures Blobs.GetBlobUploadOffset(FilesOf(fs, ns), env, ns, id) == Blobs.GetBlobUploadOffset(fs, env, ns, id)
  {
  }

  lemma UploadShares(H: Hashes, w: World, env: CallEnv, k: Key, size: int, data: Bytes, ns: string)
    requires Owned(w.fs) && Own(w.fs, env.blob, k.ns)
    ensures WellFormed(w.fs) && WellFormed(FilesOf(w.fs, ns)) && Own(FilesOf(w.fs, ns), env.blob, k.ns)
    ensures Isolated(w, MonolithicUpload(H, w, env, k, size, data).0, MonolithicUpload(H, ShareOf(w, ns), env, k, size, data).0, k.ns, ns)
  {
    SharesAgree(w.fs, ns);
    PutShares(H, w.fs, env.blob, k, size, data, ns);
    var (fs, put) := Blobs.PutBlob(H, w.fs, env.blob, k, size, data);
    var stored := w.(fs := fs);
    if ns == k.ns {
      LookupShares(w, env, ns, ns);
      ReadShares(fs, env.read, k, "", ns);
    }
    if put.Ok? {
      RegisterShares(stored, env, k, put.value, true, ns);
    } else if put.error == BlobCommitted {
      var stat := Blobs.StatBlob(fs, env.read, k);
      if stat.Ok? { RegisterShares(stored, env, k, stat.value, true, ns); }
    }
  }

  lemma CopyShares(H: Hashes, w: World, env: CallEnv, k: Key, data: Bytes, ns: string)
    requires Owned(w.fs) && Own(w.fs, env.blob, k.ns)
    ensures WellFormed(w.fs) && WellFormed(FilesOf(w.fs, ns)) && Own(FilesOf(w.fs, ns), env.blob, k.ns)
    ensures Isolated(w, CopyUpload(H, w, env, k, data), CopyUpload(H, ShareOf(w, ns), env, k, data), k.ns, ns)
  {
    SharesAgree(w.fs, ns);
    PutShares(H, w.fs, env.blob, k, |data|, data, ns);
    var (fs, put) := Blobs.PutBlob(H, w.fs, env.blob, k, |data|, data);
    var stored := w.(fs := fs);
    if ns == k.ns {
      LookupShares(w, env, ns, ns);
      ReadShares(fs, env.again, k, "", ns);
    }
    if put.Ok? {
      RegisterShares(stored, env, k, put.value, true, ns);
    } else if put.error == BlobCommitted {
      var stat := Blobs.StatBlob(fs, env.again, k);
      if stat.Ok? { RegisterShares(stored, env, k, stat.value, false, ns); }
    }
  }

  // The bytes a mount reads from its source, when it gets that far.
  function MountedBytes(w: World, env: CallEnv, source: string, k: Key): Option<Bytes>
    requires WellFormed(w.fs)
  {
    if !ValidName(source) || !env.sourceLookup || source !in w.db.namespaces then None
    else match Blobs.GetBlob(w.fs, env.read, Key(source, k.digest)) case Ok(data) => Some(data) case Err(_) => None
  }

  // A mount only reads its source: it is an upload of the bytes found there.
  lemma MountIsCopy(H: Hashes, w: World, env: CallEnv, source: string, k: Key)
    requires WellFormed(w.fs) && Fresh(w.fs, env.blob, k.ns)
    ensures MountBlob(H, w, env, source, k).0
         == match MountedBytes(w, env, source, k) case None => w case Some(data) => CopyUpload(H, w, env, k, data)
  {
  }

  lemma SessionShares(w: World, env: CallEnv, up: string, id: string, offset: int, data: Bytes, ns: string)
    requires Owned(w.fs) && Own(w.fs, env.blob, up)
    ensures WellFormed(w.fs) && WellFormed(FilesOf(w.fs, ns)) && Own(FilesOf(w.fs, ns), env.blob, up)
    ensures Isolated(w, InitiateUpload(w, env, up).0, InitiateUpload(ShareOf(w, ns), env, up).0, up, ns)
    ensures Isolated(w, AppendChunk(w, env, up, id, offset, data).0, AppendChunk(ShareOf(w, ns), env, up, id, offset, data).0, up, ns)
    ensures Isolated(w, CancelUpload(w, env, up, id).0, CancelUpload(ShareOf(w, ns), env, up, id).0, up, ns)
  {
    SharesAgree(w.fs, ns);
    InitiateShares(w.fs, env.blob, up, ns);
    AppendShares(w.fs, env.again, up, id, offset, data, ns);
    UnlinkShares(w.fs, Staged(up, id), ns);
    if ns == up {
      LookupShares(w, env, ns, ns);
      ReadShares(w.fs, env.read, Key(ns, ""), id, ns);
    }
  }

  lemma FinalChunkShares(fs: Files, env: CallEnv, up: string, id: string, chunk: Option<Bytes>, ns: string)
    requires Owned(fs)
    ensures WellFormed(fs) && WellFormed(FilesOf(fs, ns))
    ensures var (fs', r) := AppendFinalChunk(fs, env, up, id, chunk);
      && Owned(fs')
      && (ns != up ==> FilesOf(fs', ns) == FilesOf(fs, ns))
      && (ns == up ==> AppendFinalChunk(FilesOf(fs, ns), env, up, id, chunk) == (FilesOf(fs', ns), r))
  {
    SharesAgree(fs, ns);
    if ns == up { ReadShares(fs, env.read, Key(ns, ""), id, ns); }
    var offset := Blobs.GetBlobUploadOffset(fs, env.read, up, id);
    if offset.Ok? && chunk.Some? { AppendShares(fs, env.again, up, id, offset.value, chunk.value, ns); }
  }

  lemma CommitSparesOthers(H: Hashes, w: World, env: CallEnv, up: string, id: string, d: Digest, chunk: Option<Bytes>, ns: string)
    requires Owned(w.fs) && ns != up
    ensures WellFormed(w.fs)
    ensures var w' := CommitUpload(H, w, env, up, id, d, chunk).0; Owned(w'.fs) && ShareOf(w', ns) == ShareOf(w, ns)
  {
    FinalChunkShares(w.fs, env, up, id, chunk, ns);
    CommitLeaves(H, w, env, up, id, d, chunk);
    var (fs, total) := AppendFinalChunk(w.fs, env, up, id, chunk);
    if total.Ok? {
      FinalizeShares(H, fs, env.blob, up, id, d, total.value, ns);
      var fs2 := Blobs.FinalizeBlobUpload(H, fs, env.blob, up, id, d, total.value).0;
      UnlinkShares(fs2, Staged(up, id), ns);
      RegisterShares(w.(fs := fs2), env, Key(up, d), total.value, true, ns);
    }
  }

  lemma CommitIsOwn(H: Hashes, w: World, env: CallEnv, ns: string, id: string, d: Digest, chunk: Option<Bytes>)
    requires Owned(w.fs)
    ensures WellFormed(w.fs) && WellFormed(FilesOf(w.fs, ns))
    ensures var w' := CommitUpload(H, w, env, ns, id, d, chunk).0;
      Owned(w'.fs) && ShareOf(w', ns) == CommitUpload(H, ShareOf(w, ns), env, ns, id, d, chunk).0
  {
    SharesAgree(w.fs, ns);
    FinalChunkShares(w.fs, env, ns, id, chunk, ns);
    CommitLeaves(H, w, env, ns, id, d, chunk);
    CommitLeaves(H, ShareOf(w, ns), env, ns, id, d, chunk);
    LookupShares(w, env, ns, ns);
    var (fs, total) := AppendFinalChunk(w.fs, env, ns, id, chunk);
    if total.Ok? {
      FinalizeShares(H, fs, env.blob, ns, id, d, total.value, ns);
      var (fs2, r) := Blobs.FinalizeBlobUpload(H, fs, env.blob, ns, id, d, total.value);
      if r.Ok? {
        RegisterShares(w.(fs := fs2), env, Key(ns, d), total.value, true, ns);
      } else {
        UnlinkShares(fs2, Staged(ns, id), ns);
      }
    }
  }

  lemma CommitShares(H: Hashes, w: World, env: CallEnv, up: string, id: string, d: Digest, chunk: Option<Bytes>, ns: string)
    requires Owned(w.fs)
    ensures WellFormed(w.fs) && WellFormed(FilesOf(w.fs, ns))
    ensures Isolated(w, CommitUpload(H, w, env, up, id, d, chunk).0, CommitUpload(H, ShareOf(w, ns), env, up, id, d, chunk).0, up, ns)
  {
    SharesAgree(w.fs, ns);
    if ns == up { CommitIsOwn(H, w, env, ns, id, d, chunk); } else { CommitSparesOthers(H, w, env, up, id, d, chunk, ns); }
  }

  lemma StoredManifestShares(H: Hashes, w: World, env: CallEnv, k: Key, m: Manifest, body: Bytes, now: int, ns: string)
    requires Owned(w.fs) && Own(w.fs, env.blob, k.ns)
    ensures Isolated(w, StoredManifest(H, w, env, k, m, body, now), StoredManifest(H, ShareOf(w, ns), env, k, m, body, now), k.ns, ns)
  {
    PutShares(H, w.fs, env.blob, k, |body|, body, ns);
    TransactShares(w.db, StoreManifest(k, m, |body|, now), env.tx, k.ns, ns);
  }

  lemma PutManifestShares(H: Hashes, parse: Parser, w: World, env: CallEnv, up: string, reference: string, ct: string, body: Bytes, now: int, ns: string)
    requires Owned(w.fs) && Own(w.fs, env.blob, up)
    ensures WellFormed(w.fs) && WellFormed(FilesOf(w.fs, ns)) && Own(FilesOf(w.fs, ns), env.blob, up)
    ensures Isolated(w, PutManifest(H, parse, w, env, up, reference, ct, body, now).0,
                     PutManifest(H, parse, ShareOf(w, ns), env, up, reference, ct, body, now).0, up, ns)
  {
    SharesAgree(w.fs, ns);
    if ns == up { LookupShares(w, env, ns, ns); }
    PutLeaves(H, parse, w, env, up, reference, ct, body, now);
    PutLeaves(H, parse, ShareOf(w, ns), env, up, reference, ct, body, now);
    if ParseManifestBody(parse, ct, body).Some? {
      StoredManifestShares(H, w, env, Key(up, reference), ParseManifestBody(parse, ct, body).value, body, now, ns);
    }
  }

  lemma DeleteManifestShares(w: World, env: CallEnv, up: string, reference: string, ns: string)
    requires Owned(w.fs)
    ensures Isolated(w, DeleteManifest(w, env, up, reference).0, DeleteManifest(ShareOf(w, ns), env, up, reference).0, up, ns)
  {
    var k := Key(up, reference);
    if ns == up { LookupShares(w, env, ns, ns); }
    TransactShares(w.db, RemoveManifest(k), env.tx, up, ns);
    AllOrNothing(w.db, RemoveManifest(k), env.tx);
    DeleteShares(w.fs, env.blob, k, ns);
  }

  lemma ChangeShares(w: World, env: CallEnv, up: string, stmt: Stmt, ns: string)
    requires Owned(w.fs) && NamespaceOf(stmt) == up
    ensures Isolated(w, ChangeNamespace(w, env, up, stmt).0, ChangeNamespace(ShareOf(w, ns), env, up, stmt).0, up, ns)
  {
    TransactShares(w.db, [stmt], env.tx, up, ns);
    AllOrNothing(w.db, [stmt], env.tx);
  }

  // Every call but a mount changes its own namespace's share as it would alone, and no
  // other namespace's.
  lemma CallIsolated(H: Hashes, parse: Parser, w: World, c: Call, ns: string)
    requires Owned(w.fs) && Allowed(w, c) && !c.Mount?
    ensures WellFormed(w.fs) && WellFormed(FilesOf(w.fs, ns)) && Allowed(ShareOf(w, ns), c)
    ensures Isolated(w, Apply(H, parse, w, c), Apply(H, parse, ShareOf(w, ns), c), Home(c), ns)
  {
    SharesAgree(w.fs, ns);
    match c {
      case Upload(env, k, size, data) => UploadShares(H, w, env, k, size, data, ns);
      case Copy(env, k, data) => CopyShares(H, w, env, k, data, ns);
      case Initiate(env, up) => SessionShares(w, env, up, "", 0, [], ns);
      case Append(env, up, id, offset, data) => SessionShares(w, env, up, id, offset, data, ns);
      case Commit(env, up, id, d, chunk) => CommitShares(H, w, env, up, id, d, chunk, ns);
      case Cancel(env, up, id) => SessionShares(w, env, up, id, 0, [], ns);
      case Put(env, up, reference, ct, body, now) => PutManifestShares(H, parse, w, env, up, reference, ct, body, now, ns);
      case Delete(env, up, reference) => DeleteManifestShares(w, env, up, reference, ns);
      case Change(env, up, create) => ChangeShares(w, env, up, if create then CreateNamespace(up) else DeleteNamespace(up), ns);
    }
  }

  // ---- Histories ----

  ghost predicate Happens(H: Hashes, parse: Parser, w: World, h: seq<Call>)
    decreases |h|
  {
    h == [] || (WellFormed(w.fs) && Allowed(w, h[0]) && Happens(H, parse, Apply(H, parse, w, h[0]), h[1..]))
  }

  function Run(H: Hashes, parse: Parser, w: World, h: seq<Call>): World
    requires Happens(H, parse, w, h)
    decreases |h|
  {
    if h == [] then w else Run(H, parse, Apply(H, parse, w, h[0]), h[1..])
  }

  // What is left of one call: nothing when it is about another namespace, and for a mount
  // the upload of the bytes it found.
  function Kept(w: World, c: Call, ns: string): seq<Call>
    requires WellFormed(w.fs)
  {
    if Home(c) != ns then []
    else if !c.Mount? then [c]
    else match MountedBytes(w, c.env, c.source, c.k) case None => [] case Some(data) => [Copy(c.env, c.k, data)]
  }

  // The history without the calls that name other namespaces.
  function Project(H: Hashes, parse: Parser, w: World, h: seq<Call>, ns: string): seq<Call>
    requires Happens(H, parse, w, h)
    decreases |h|
  {
    if h == [] then [] else Kept(w, h[0], ns) + Project(H, parse, Apply(H, parse, w, h[0]), h[1..], ns)
  }

  lemma KeptIsolated(H: Hashes, parse: Parser, w: World, c: Call, ns: string)
    requires Owned(w.fs) && Allowed(w, c)
    ensures WellFormed(w.fs) && Owned(Apply(H, parse, w, c).fs)
    ensures Happens(H, parse, ShareOf(w, ns), Kept(w, c, ns))
    ensures Run(H, parse, ShareOf(w, ns), Kept(w, c, ns)) == ShareOf(Apply(H, parse, w, c), ns)
  {
    SharesAgree(w.fs, ns);
    if c.Mount? {
      MountIsCopy(H, w, c.env, c.source, c.k);
      var data := MountedBytes(w, c.env, c.source, c.k);
      if data.Some? { CallIsolated(H, parse, w, Copy(c.env, c.k, data.value), ns); }
    } else {
      CallIsolated(H, parse, w, c, ns);
    }
  }

  lemma {:induction false} RunConcat(H: Hashes, parse: Parser, w: World, a: seq<Call>, b: seq<Call>)
    requires Happens(H, parse, w, a) && Happens(H, parse, Run(H, parse, w, a), b)
    ensures Happens(H, parse, w, a + b) && Run(H, parse, w, a + b) == Run(H, parse, Run(H, parse, w, a), b)
    decreases |a|
  {
    if a == [] {
      assert a + b == b;
    } else {
      assert (a + b)[1..] == a[1..] + b;
      RunConcat(H, parse, Apply(H, parse, w, a[0]), a[1..], b);
    }
  }

  // Isolation: in every history, failures included, the files, sessions and rows of a
  // namespace are those the calls naming it would have left on their own.
  lemma {:induction false} NamespacesAreIsolated(H: Hashes, parse: Parser, w: World, h: seq<Call>, ns: string)
    requires Owned(w.fs) && Happens(H, parse, w, h)
    ensures Happens(H, parse, ShareOf(w, ns), Project(H, parse, w, h, ns))
    ensures Run(H, parse, ShareOf(w, ns), Project(H, parse, w, h, ns)) == ShareOf(Run(H, parse, w, h), ns)
    decreases |h|
  {
    if h != [] {
      var w1 := Apply(H, parse, w, h[0]);
      KeptIsolated(H, parse, w, h[0], ns);
      NamespacesAreIsolated(H, parse, w1, h[1..], ns);
      RunConcat(H, parse, ShareOf(w, ns), Kept(w, h[0], ns), Project(H, parse, w1, h[1..], ns));
    }
  }
}
