// The two services as objects over the two stores: the calls in the order the code makes
// them, with their early returns and compensation, proved against module Services.
module ServiceObjects {
  import opened Basics
  import opened Digests
  import opened FileSystem
  import opened NameGrammar
  import opened Metastore
  import opened Manifests
  import opened BlobStoreSpec
  import opened BlobStore
  import S = Services
  import opened Services

  class BlobService {
    const meta: SQLiteMetadataStore
    const blobs: FilesystemBlobStore

    constructor (meta: SQLiteMetadataStore, blobs: FilesystemBlobStore)
      ensures this.meta == meta && this.blobs == blobs
    {
      this.meta := meta;
      this.blobs := blobs;
    }

    // The state of both stores.
    function Now(): World
      reads meta, blobs
    {
      World(blobs.fs, meta.db)
    }

    // Records the blob; a blob whose row cannot be recorded is deleted again.
    method Register(k: Key, size: int, compensate: bool, env: CallEnv) returns (r: Result<(), ServiceError>)
      modifies meta, blobs
      ensures (Now(), r) == S.Register(old(Now()), env, k, size, compensate)
    {
      var tx := meta.Atomic([Stmt.InsertNamespaceBlob(k, size)], env.tx);
      match tx {
        case Committed => return Ok(());
        case Panicked => return Err(Panicking);
        case RolledBack(e) =>
          if compensate {
            var _ := blobs.DeleteBlob(k, env.blob);
          }
          return Err(Meta(e));
      }
    }

    method MonolithicUpload(H: Hashes, k: Key, size: int, data: Bytes, env: CallEnv) returns (r: Result<(), ServiceError>)
      requires WellFormed(blobs.fs) && Fresh(blobs.fs, env.blob, k.ns)
      modifies meta, blobs
      ensures (Now(), r) == S.MonolithicUpload(H, old(Now()), env, k, size, data)
    {
      var invalid := ValidateNamespaceDigest(Now(), env, k);
      if invalid.Some? {
        return Err(invalid.value);
      }
      var put := blobs.PutBlob(H, k, size, data, env.blob);
      if put.Err? && put.error != BlobCommitted {
        return Err(PutFailure(put.error));
      }
      var actual := size;
      if put.Err? {
        PutKeepsWellFormed(H, old(blobs.fs), env.blob, k, size, data);
        var stat := blobs.StatBlob(k, env.read);
        if stat.Err? {
          return Err(Store(stat.error));
        }
        actual := stat.value;
      }
      r := Register(k, actual, true, env);
    }

    method InitiateUpload(ns: string, env: CallEnv) returns (r: Result<string, ServiceError>)
      requires Fresh(blobs.fs, env.blob, ns)
      modifies blobs
      ensures (Now(), r) == S.InitiateUpload(old(Now()), env, ns)
    {
      var invalid := ValidateNamespace(Now(), env, ns);
      if invalid.Some? {
        return Err(invalid.value);
      }
      var id := blobs.InitiateBlobUpload(ns, env.blob);
      if id.Err? {
        return Err(Store(id.error));
      }
      return Ok(id.value);
    }

    method AppendChunk(ns: string, id: string, offset: int, data: Bytes, env: CallEnv) returns (r: Result<int, ServiceError>)
      requires WellFormed(blobs.fs)
      modifies blobs
      ensures (Now(), r) == S.AppendChunk(old(Now()), env, ns, id, offset, data)
    {
      var invalid := ValidateNamespace(Now(), env, ns);
      if invalid.Some? {
        return Err(invalid.value);
      }
      var n := blobs.AppendBlobChunk(ns, id, offset, data, env.again);
      if n.Ok? {
        return Ok(n.value);
      }
      if n.error == UploadUnknown {
        return Err(UnknownUpload);
      }
      if n.error == RangeNotSatisfiable {
        return Err(BadRange);
      }
      return Err(Store(n.error));
    }

    method AppendFinalChunk(ns: string, id: string, chunk: Option<Bytes>, env: CallEnv) returns (r: Result<int, BlobError>)
      requires WellFormed(blobs.fs)
      modifies blobs
      ensures (blobs.fs, r) == S.AppendFinalChunk(old(blobs.fs), env, ns, id, chunk)
    {
      r := GetBlobUploadOffset(blobs.fs, env.read, ns, id);
      if r.Err? {
        return;
      }
      if chunk.None? {
        return;
      }
      r := blobs.AppendBlobChunk(ns, id, r.value, chunk.value, env.again);
    }

    method HandleFinalizeError(ns: string, id: string, e: BlobError, env: CallEnv) returns (r: ServiceError)
      modifies blobs
      ensures blobs.fs == if e == DigestMismatch || e == InvalidDigest then S.Blobs.CancelBlobUpload(old(blobs.fs), env.blob, ns, id).0 else old(blobs.fs)
      ensures r == match e case UploadUnknown => UnknownUpload case SizeInvalid => BadSize
                           case DigestMismatch => DigestInvalid case InvalidDigest => DigestInvalid case _ => Store(e)
    {
      if e == UploadUnknown {
        return UnknownUpload;
      }
      if e == SizeInvalid {
        return BadSize;
      }
      if e == DigestMismatch || e == InvalidDigest {
        var _ := blobs.CancelBlobUpload(ns, id, env.blob);
        return DigestInvalid;
      }
      return Store(e);
    }

    method CommitUpload(H: Hashes, ns: string, id: string, d: Digest, chunk: Option<Bytes>, env: CallEnv) returns (r: Result<(), ServiceError>)
      requires WellFormed(blobs.fs)
      modifies meta, blobs
      ensures (Now(), r) == S.CommitUpload(H, old(Now()), env, ns, id, d, chunk)
    {
      var invalid := ValidateNamespaceDigest(Now(), env, Key(ns, d));
      if invalid.Some? {
        return Err(invalid.value);
      }
      AppendKeepsWellFormed(blobs.fs, env, ns, id, chunk);
      var total := AppendFinalChunk(ns, id, chunk, env);
      if total.Err? {
        return Err(if total.error == UploadUnknown then UnknownUpload else Store(total.error));
      }
      var finalized := blobs.FinalizeBlobUpload(H, ns, id, d, total.value, env.blob);
      if finalized.Err? {
        var e := HandleFinalizeError(ns, id, finalized.error, env);
        return Err(e);
      }
      r := Register(Key(ns, d), total.value, true, env);
    }

    method CancelUpload(ns: string, id: string, env: CallEnv) returns (r: Result<(), ServiceError>)
      requires WellFormed(blobs.fs)
      modifies blobs
      ensures (Now(), r) == S.CancelUpload(old(Now()), env, ns, id)
    {
      var invalid := ValidateNamespace(Now(), env, ns);
      if invalid.Some? {
        return Err(invalid.value);
      }
      var offset := GetBlobUploadOffset(blobs.fs, env.read, ns, id);
      if offset.Err? {
        return Err(if offset.error == UploadUnknown then UnknownUpload else Store(offset.error));
      }
      var cancelled := blobs.CancelBlobUpload(ns, id, env.blob);
      if cancelled.Err? {
        return Err(Store(cancelled.error));
      }
      return Ok(());
    }

    method MountBlobCopy(H: Hashes, k: Key, data: Bytes, env: CallEnv) returns (r: Result<(), ServiceError>)
      requires WellFormed(blobs.fs) && Fresh(blobs.fs, env.blob, k.ns)
      modifies meta, blobs
      ensures (Now(), r) == S.MountBlobCopy(H, old(Now()), env, k, data)
    {
      var put := blobs.PutBlob(H, k, |data|, data, env.blob);
      if put.Err? && put.error != BlobCommitted {
        return Err(Store(put.error));
      }
      var registered := |data|;
      if put.Err? {
        PutKeepsWellFormed(H, old(blobs.fs), env.blob, k, |data|, data);
        var stat := blobs.StatBlob(k, env.again);
        if stat.Err? {
          return Err(Store(stat.error));
        }
        registered := stat.value;
      }
      r := Register(k, registered, put.Ok?, env);
    }

    method MountBlob(H: Hashes, source: string, k: Key, env: CallEnv) returns (r: Result<(), ServiceError>)
      requires WellFormed(blobs.fs) && Fresh(blobs.fs, env.blob, k.ns)
      modifies meta, blobs
      ensures (Now(), r) == S.MountBlob(H, old(Now()), env, source, k)
    {
      var invalid := ValidateNamespaceDigest(Now(), env, k);
      if invalid.Some? {
        return Err(invalid.value);
      }
      if !ValidName(source) {
        return Err(MountFailed);
      }
      if !env.sourceLookup {
        return Err(Meta(Broken));
      }
      if source !in meta.db.namespaces {
        return Err(MountFailed);
      }
      var rc := S.Blobs.GetBlob(blobs.fs, env.read, Key(source, k.digest));
      if rc.Err? {
        return Err(if rc.error == BlobUnknown then MountFailed else Store(rc.error));
      }
      r := MountBlobCopy(H, k, rc.value, env);
      if r.Ok? && !env.read.closes {
        return Err(Store(IoError));
      }
    }
  }

  class ManifestService {
    const meta: SQLiteMetadataStore
    const blobs: FilesystemBlobStore

    constructor (meta: SQLiteMetadataStore, blobs: FilesystemBlobStore)
      ensures this.meta == meta && this.blobs == blobs
    {
      this.meta := meta;
      this.blobs := blobs;
    }

    function Now(): World
      reads meta, blobs
    {
      World(blobs.fs, meta.db)
    }

    method PutManifest(H: Hashes, parse: Parser, ns: string, reference: string, contentType: string, body: Bytes, now: int, env: CallEnv) returns (r: Result<Digest, ServiceError>)
      requires WellFormed(blobs.fs) && Fresh(blobs.fs, env.blob, ns)
      modifies meta, blobs
      ensures (Now(), r) == S.PutManifest(H, parse, old(Now()), env, ns, reference, contentType, body, now)
    {
      if !ValidName(ns) {
        return Err(NameInvalid);
      }
      var ref := ValidateReference(reference);
      if ref.Err? {
        return Err(ref.error);
      }
      var computed := ManifestDigest(H, body);
      if computed != ref.value {
        return Err(DigestInvalid);
      }
      var invalid := ValidateNamespace(Now(), env, ns);
      if invalid.Some? {
        return Err(invalid.value);
      }
      var partial := ParseManifestBody(parse, contentType, body);
      if partial.None? {
        return Err(ManifestInvalid);
      }
      var k := Key(ns, computed);
      var put := blobs.PutBlob(H, k, |body|, body, env.blob);
      if put.Err? && put.error != BlobCommitted {
        return Err(Store(put.error));
      }
      var tx := meta.Atomic(StoreManifest(k, partial.value, |body|, now), env.tx);
      match tx {
        case Committed => return Ok(computed);
        case RolledBack(e) => return Err(Meta(e));
        case Panicked => return Err(Panicking);
      }
    }

    method DeleteManifest(ns: string, reference: string, env: CallEnv) returns (r: Result<(), ServiceError>)
      modifies meta, blobs
      ensures (Now(), r) == S.DeleteManifest(old(Now()), env, ns, reference)
    {
      var k := ValidateManifestKey(Now(), env, ns, reference);
      if k.Err? {
        return Err(k.error);
      }
      var tx := meta.Atomic(RemoveManifest(k.value), env.tx);
      match tx {
        case RolledBack(e) => return Err(Meta(e));
        case Panicked => return Err(Panicking);
        case Committed =>
          // A failure to delete the bytes is only logged.
          var _ := blobs.DeleteBlob(k.value, env.blob);
          return Ok(());
      }
    }
  }
}
