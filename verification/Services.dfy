// internal/blob/upload.go, internal/blob/service.go and internal/manifest/service.go:
// each call as a function of both stores and of what its environment lets succeed.
module Services {
  import opened Basics
  import opened Digests
  import opened FileSystem
  import opened NameGrammar
  import opened Metastore
  import opened Manifests
  import Blobs = BlobStoreSpec
  import opened BlobStoreSpec

  datatype World = World(fs: Files, db: Db)

  datatype ServiceError =
    | NameInvalid | UnknownName | DigestInvalid | Unsupported | BadSize | UnknownUpload | BadRange
    | UnknownBlob | UnknownManifest | ManifestInvalid | MountFailed
    | Store(blob: BlobError) | Meta(db: DbError) | Panicking

  // One call's environment: the namespace lookups, the reading calls on the blob store,
  // an append, the call that may change a blob, and the transaction.
  datatype CallEnv = CallEnv(lookup: bool, sourceLookup: bool, read: Env, again: Env, blob: Env, tx: TxEnv)

  function ValidateNamespace(w: World, env: CallEnv, name: string): Option<ServiceError>
  {
    if !ValidName(name) then Some(NameInvalid)
    else if !env.lookup then Some(Meta(Broken))
    else if name !in w.db.namespaces then Some(UnknownName)
    else None
  }

  function ValidateNamespaceDigest(w: World, env: CallEnv, k: Key): Option<ServiceError>
  {
    if !ValidName(k.ns) then Some(NameInvalid)
    else if !ValidDigest(k.digest) then Some(DigestInvalid)
    else ValidateNamespace(w, env, k.ns)
  }

  // ---- Uploads ----

  // The transaction that records a stored blob, and the compensating delete.
  function Register(w: World, env: CallEnv, k: Key, size: int, compensate: bool): (World, Result<(), ServiceError>)
  {
    var (db, r) := Transact(w.db, [InsertNamespaceBlob(k, size)], env.tx);
    match r
    case Committed => (w.(db := db), Ok(()))
    case Panicked => (w, Err(Panicking))
    case RolledBack(e) =>
      (if compensate then w.(fs := Blobs.DeleteBlob(w.fs, env.blob, k).0) else w, Err(Meta(e)))
  }

  function PutFailure(e: BlobError): ServiceError
  {
    match e
    case SizeInvalid => BadSize
    case DigestMismatch => DigestInvalid
    case InvalidDigest => DigestInvalid
    case _ => Store(e)
  }

  function MonolithicUpload(H: Hashes, w: World, env: CallEnv, k: Key, size: int, data: Bytes): (World, Result<(), ServiceError>)
    requires WellFormed(w.fs) && Fresh(w.fs, env.blob, k.ns)
  {
    match ValidateNamespaceDigest(w, env, k)
    case Some(e) => (w, Err(e))
    case None =>
      var (fs, put) := Blobs.PutBlob(H, w.fs, env.blob, k, size, data);
      if put.Ok? then Register(w.(fs := fs), env, k, put.value, true)
      else if put.error != BlobCommitted then (w.(fs := fs), Err(PutFailure(put.error)))
      else
        PutKeepsWellFormed(H, w.fs, env.blob, k, size, data);
        match Blobs.StatBlob(fs, env.read, k)
        case Err(e) => (w.(fs := fs), Err(Store(e)))
        case Ok(actual) => Register(w.(fs := fs), env, k, actual, true)
  }

  function InitiateUpload(w: World, env: CallEnv, ns: string): (World, Result<string, ServiceError>)
    requires Fresh(w.fs, env.blob, ns)
  {
    match ValidateNamespace(w, env, ns)
    case Some(e) => (w, Err(e))
    case None =>
      var (fs, r) := Blobs.InitiateBlobUpload(w.fs, env.blob, ns);
      (w.(fs := fs), if r.Ok? then Ok(r.value) else Err(Store(r.error)))
  }

  function AppendChunk(w: World, env: CallEnv, ns: string, id: string, offset: int, data: Bytes): (World, Result<int, ServiceError>)
    requires WellFormed(w.fs)
  {
    match ValidateNamespace(w, env, ns)
    case Some(e) => (w, Err(e))
    case None =>
      var (fs, r) := Blobs.AppendBlobChunk(w.fs, env.again, ns, id, offset, data);
      (w.(fs := fs),
       match r
       case Ok(n) => Ok(n)
       case Err(e) => Err(if e == UploadUnknown then UnknownUpload else if e == RangeNotSatisfiable then BadRange else Store(e)))
  }

  // The bytes of the session once the optional final chunk has been appended.
  function AppendFinalChunk(fs: Files, env: CallEnv, ns: string, id: string, chunk: Option<Bytes>): (Files, Result<int, BlobError>)
    requires WellFormed(fs)
  {
    var offset := Blobs.GetBlobUploadOffset(fs, env.read, ns, id);
    if offset.Err? || chunk.None? then (fs, offset)
    else Blobs.AppendBlobChunk(fs, env.again, ns, id, offset.value, chunk.value)
  }

  function CommitUpload(H: Hashes, w: World, env: CallEnv, ns: string, id: string, d: Digest, chunk: Option<Bytes>): (World, Result<(), ServiceError>)
    requires WellFormed(w.fs)
  {
    match ValidateNamespaceDigest(w, env, Key(ns, d))
    case Some(e) => (w, Err(e))
    case None =>
      var (fs, total) := AppendFinalChunk(w.fs, env, ns, id, chunk);
      if total.Err? then
        (w.(fs := fs), Err(if total.error == UploadUnknown then UnknownUpload else Store(total.error)))
      else
        AppendKeepsWellFormed(w.fs, env, ns, id, chunk);
        var (fs2, r) := Blobs.FinalizeBlobUpload(H, fs, env.blob, ns, id, d, total.value);
        match r
        case Ok(_) => Register(w.(fs := fs2), env, Key(ns, d), total.value, true)
        case Err(DigestMismatch) => (w.(fs := Blobs.CancelBlobUpload(fs2, env.blob, ns, id).0), Err(DigestInvalid))
        case Err(InvalidDigest) => (w.(fs := Blobs.CancelBlobUpload(fs2, env.blob, ns, id).0), Err(DigestInvalid))
        case Err(UploadUnknown) => (w.(fs := fs2), Err(UnknownUpload))
        case Err(SizeInvalid) => (w.(fs := fs2), Err(BadSize))
        case Err(e) => (w.(fs := fs2), Err(Store(e)))
  }

  function GetUploadStatus(w: World, env: CallEnv, ns: string, id: string): Result<int, ServiceError>
    requires WellFormed(w.fs)
  {
    match ValidateNamespace(w, env, ns)
    case Some(e) => Err(e)
    case None =>
      match Blobs.GetBlobUploadOffset(w.fs, env.read, ns, id)
      case Ok(n) => Ok(n)
      case Err(e) => Err(if e == UploadUnknown then UnknownUpload else Store(e))
  }

  function CancelUpload(w: World, env: CallEnv, ns: string, id: string): (World, Result<(), ServiceError>)
    requires WellFormed(w.fs)
  {
    match GetUploadStatus(w, env, ns, id)
    case Err(e) => (w, Err(e))
    case Ok(_) =>
      var (fs, r) := Blobs.CancelBlobUpload(w.fs, env.blob, ns, id);
      (w.(fs := fs), if r.Ok? then Ok(()) else Err(Store(r.error)))
  }

  function MountBlob(H: Hashes, w: World, env: CallEnv, source: string, k: Key): (World, Result<(), ServiceError>)
    requires WellFormed(w.fs) && Fresh(w.fs, env.blob, k.ns)
  {
    match ValidateNamespaceDigest(w, env, k)
    case Some(e) => (w, Err(e))
    case None =>
      if !ValidName(source) then (w, Err(MountFailed))
      else if !env.sourceLookup then (w, Err(Meta(Broken)))
      else if source !in w.db.namespaces then (w, Err(MountFailed))
      else
        match Blobs.GetBlob(w.fs, env.read, Key(source, k.digest))
        case Err(e) => (w, Err(if e == BlobUnknown then MountFailed else Store(e)))
        case Ok(data) =>
          var (w', r) := MountBlobCopy(H, w, env, k, data);
          (w', if r.Ok? && !env.read.closes then Err(Store(IoError)) else r)
  }

  function MountBlobCopy(H: Hashes, w: World, env: CallEnv, k: Key, data: Bytes): (World, Result<(), ServiceError>)
    requires WellFormed(w.fs) && Fresh(w.fs, env.blob, k.ns)
  {
    var (fs, put) := Blobs.PutBlob(H, w.fs, env.blob, k, |data|, data);
    if put.Ok? then Register(w.(fs := fs), env, k, put.value, true)
    else if put.error != BlobCommitted then (w.(fs := fs), Err(Store(put.error)))
    else
      PutKeepsWellFormed(H, w.fs, env.blob, k, |data|, data);
      match Blobs.StatBlob(fs, env.again, k)
      case Err(e) => (w.(fs := fs), Err(Store(e)))
      case Ok(actual) => Register(w.(fs := fs), env, k, actual, false)
  }

  // The row's size, when an active row exists.
  function StatNamespaceBlob(db: Db, k: Key): Option<int>
  {
    if k in db.blobs && db.blobs[k].lifecycle.Active? then Some(db.blobs[k].size) else None
  }

  function StatBlob(w: World, env: CallEnv, k: Key): Result<int, ServiceError>
  {
    match ValidateNamespaceDigest(w, env, k)
    case Some(e) => Err(e)
    case None =>
      if !env.tx.begins then Err(Meta(Broken))
      else match StatNamespaceBlob(w.db, k) case None => Err(UnknownBlob) case Some(n) => Ok(n)
  }

  // The bytes served and the size advertised for them.
  function GetBlob(w: World, env: CallEnv, k: Key): Result<(Bytes, int), ServiceError>
    requires WellFormed(w.fs)
  {
    match StatBlob(w, env, k)
    case Err(e) => Err(e)
    case Ok(size) =>
      match Blobs.GetBlob(w.fs, env.read, k)
      case Ok(data) => Ok((data, size))
      case Err(e) => Err(if e == BlobUnknown then UnknownBlob else Store(e))
  }

  // ---- Manifests ----

  predicate HasColon(s: string) { ':' in s }

  function ValidateReference(reference: string): Result<Digest, ServiceError>
  {
    if !HasColon(reference) then Err(Unsupported)
    else if !ValidDigest(reference) then Err(DigestInvalid)
    else Ok(reference)
  }

  function PutManifest(H: Hashes, parse: Parser, w: World, env: CallEnv, ns: string, reference: string, contentType: string, body: Bytes, now: int): (World, Result<Digest, ServiceError>)
    requires WellFormed(w.fs) && Fresh(w.fs, env.blob, ns)
  {
    if !ValidName(ns) then (w, Err(NameInvalid))
    else
      match ValidateReference(reference)
      case Err(e) => (w, Err(e))
      case Ok(d) =>
        if ManifestDigest(H, body) != d then (w, Err(DigestInvalid))
        else if ValidateNamespace(w, env, ns).Some? then (w, Err(ValidateNamespace(w, env, ns).value))
        else
          match ParseManifestBody(parse, contentType, body)
          case None => (w, Err(ManifestInvalid))
          case Some(m) =>
            var k := Key(ns, d);
            var (fs, put) := Blobs.PutBlob(H, w.fs, env.blob, k, |body|, body);
            if put.Err? && put.error != BlobCommitted then (w.(fs := fs), Err(Store(put.error)))
            else
              var (db, r) := Transact(w.db, StoreManifest(k, m, |body|, now), env.tx);
              match r
              case Committed => (World(fs, db), Ok(d))
              case RolledBack(e) => (w.(fs := fs), Err(Meta(e)))
              case Panicked => (w.(fs := fs), Err(Panicking))
  }

  function ValidateManifestKey(w: World, env: CallEnv, ns: string, reference: string): Result<Key, ServiceError>
  {
    if !ValidName(ns) then Err(NameInvalid)
    else
      match ValidateReference(reference)
      case Err(e) => Err(e)
      case Ok(d) =>
        match ValidateNamespace(w, env, ns) case Some(e) => Err(e) case None => Ok(Key(ns, d))
  }

  // The row and the bytes served with it.
  function GetManifest(w: World, env: CallEnv, ns: string, reference: string): Result<(ManifestRow, Bytes), ServiceError>
    requires WellFormed(w.fs)
  {
    match ValidateManifestKey(w, env, ns, reference)
    case Err(e) => Err(e)
    case Ok(k) =>
      if !env.tx.begins then Err(Meta(Broken))
      else if k !in w.db.manifests || w.db.manifests[k].lifecycle.PendingDeletion? then Err(UnknownManifest)
      else
        match Blobs.GetBlob(w.fs, env.read, k)
        case Ok(data) => Ok((w.db.manifests[k], data))
        case Err(e) => Err(if e == BlobUnknown then UnknownManifest else Store(e))
  }

  // A file that cannot be deleted is only logged.
  function DeleteManifest(w: World, env: CallEnv, ns: string, reference: string): (World, Result<(), ServiceError>)
  {
    match ValidateManifestKey(w, env, ns, reference)
    case Err(e) => (w, Err(e))
    case Ok(k) =>
      var (db, r) := Transact(w.db, RemoveManifest(k), env.tx);
      match r
      case Committed => (World(Blobs.DeleteBlob(w.fs, env.blob, k).0, db), Ok(()))
      case RolledBack(e) => (w, Err(Meta(e)))
      case Panicked => (w, Err(Panicking))
  }

  // ---- Namespaces ----

  function ChangeNamespace(w: World, env: CallEnv, ns: string, stmt: Stmt): (World, Result<(), ServiceError>)
  {
    if !ValidName(ns) then (w, Err(NameInvalid))
    else
      var (db, r) := Transact(w.db, [stmt], env.tx);
      match r
      case Committed => (w.(db := db), Ok(()))
      case RolledBack(e) => (w, Err(Meta(e)))
      case Panicked => (w, Err(Panicking))
  }

  // ---- Well-formedness ----

  lemma PutKeepsWellFormed(H: Hashes, fs: Files, env: Env, k: Key, size: int, data: Bytes)
    requires WellFormed(fs)
    ensures WellFormed(Blobs.PutBlob(H, fs, env, k, size, data).0)
  {
  }

  lemma AppendKeepsWellFormed(fs: Files, env: CallEnv, ns: string, id: string, chunk: Option<Bytes>)
    requires WellFormed(fs)
    ensures WellFormed(AppendFinalChunk(fs, env, ns, id, chunk).0)
  {
  }

  // What CommitUpload leaves behind, by how finalizing went: only a digest that is wrong
  // or malformed discards the session.
  lemma CommitLeaves(H: Hashes, w: World, env: CallEnv, ns: string, id: string, d: Digest, chunk: Option<Bytes>)
    requires WellFormed(w.fs)
    ensures var (fs, total) := AppendFinalChunk(w.fs, env, ns, id, chunk);
      var w' := CommitUpload(H, w, env, ns, id, d, chunk).0;
      && WellFormed(fs)
      && (ValidateNamespaceDigest(w, env, Key(ns, d)).Some? ==> w' == w)
      && (ValidateNamespaceDigest(w, env, Key(ns, d)).None? ==>
          if total.Err? then w' == w.(fs := fs)
          else
            var (fs2, r) := Blobs.FinalizeBlobUpload(H, fs, env.blob, ns, id, d, total.value);
            if r.Ok? then w' == Register(w.(fs := fs2), env, Key(ns, d), total.value, true).0
            else if r.error == DigestMismatch || r.error == BlobError.InvalidDigest
            then w' == w.(fs := Blobs.CancelBlobUpload(fs2, env.blob, ns, id).0)
            else w' == w.(fs := fs2))
  {
  }

  // The request passes every check PutManifest makes before it stores anything.
  predicate PutAccepted(H: Hashes, parse: Parser, w: World, env: CallEnv, ns: string, reference: string, contentType: string, body: Bytes)
  {
    && ValidName(ns) && ValidateReference(reference).Ok? && ManifestDigest(H, body) == reference
    && ValidateNamespace(w, env, ns).None? && ParseManifestBody(parse, contentType, body).Some?
  }

  // What is left once the bytes are put and the rows are recorded, or not.
  function StoredManifest(H: Hashes, w: World, env: CallEnv, k: Key, m: Manifest, body: Bytes, now: int): World
  {
    var (fs, put) := Blobs.PutBlob(H, w.fs, env.blob, k, |body|, body);
    World(fs, if put.Err? && put.error != BlobCommitted then w.db else Transact(w.db, StoreManifest(k, m, |body|, now), env.tx).0)
  }

  lemma PutLeaves(H: Hashes, parse: Parser, w: World, env: CallEnv, ns: string, reference: string, contentType: string, body: Bytes, now: int)
    requires WellFormed(w.fs) && Fresh(w.fs, env.blob, ns)
    ensures PutManifest(H, parse, w, env, ns, reference, contentType, body, now).0
         == if PutAccepted(H, parse, w, env, ns, reference, contentType, body)
            then StoredManifest(H, w, env, Key(ns, reference), ParseManifestBody(parse, contentType, body).value, body, now)
            else w
  {
    if PutAccepted(H, parse, w, env, ns, reference, contentType, body) {
      AllOrNothing(w.db, StoreManifest(Key(ns, reference), ParseManifestBody(parse, contentType, body).value, |body|, now), env.tx);
    }
  }
}
