// internal/metastore/sqlite: the tables under their primary keys, the statements of
// sql.go, and transactions.  Timestamps other than created_at are left out.
module Metastore {
  import opened Basics
  import opened Digests
  import opened FileSystem

  datatype Lifecycle = Active | PendingDeletion

  datatype BlobRow = BlobRow(size: int, lifecycle: Lifecycle)

  datatype ManifestRow = ManifestRow(mediaType: string, size: int, lifecycle: Lifecycle)

  datatype ReferrerRow = ReferrerRow(
    subject: Digest, mediaType: string, artifactType: string, size: int,
    annotations: map<string, string>, createdAt: int)

  datatype Db = Db(
    namespaces: set<string>,
    blobs: map<Key, BlobRow>,
    manifests: map<Key, ManifestRow>,
    referrers: map<Key, ReferrerRow>)

  const EMPTY_DB: Db := Db({}, map[], map[], map[])

  datatype DbError = NameExists | NameUnknown | ManifestUnknown | ForeignKey | Cancelled | Broken

  // Every row's namespace exists: the foreign keys of migration/sqlite.go.
  ghost predicate Referential(db: Db)
  {
    && (forall k :: k in db.blobs ==> k.ns in db.namespaces)
    && (forall k :: k in db.manifests ==> k.ns in db.namespaces)
    && (forall k :: k in db.referrers ==> k.ns in db.namespaces)
  }

  // The operations available inside a transaction.
  datatype Stmt =
    | CreateNamespace(ns: string)
    | DeleteNamespace(ns: string)
    | InsertNamespaceBlob(k: Key, size: int)
    | InsertManifest(k: Key, mediaType: string, size: int)
    | DeleteManifestByDigest(k: Key)
    | UpsertReferrer(k: Key, row: ReferrerRow)
    | DeleteReferrer(k: Key)

  predicate Referenced(db: Db, ns: string)
  {
    || (exists k :: k in db.blobs && k.ns == ns)
    || (exists k :: k in db.manifests && k.ns == ns)
    || (exists k :: k in db.referrers && k.ns == ns)
  }

  // What one operation does to the tables.
  function Exec(db: Db, stmt: Stmt): Result<Db, DbError>
  {
    match stmt
    case CreateNamespace(ns) =>
      if ns in db.namespaces then Err(NameExists) else Ok(db.(namespaces := db.namespaces + {ns}))
    case DeleteNamespace(ns) =>
      if ns !in db.namespaces then Err(NameUnknown)
      else if Referenced(db, ns) then Err(ForeignKey)
      else Ok(db.(namespaces := db.namespaces - {ns}))
    case InsertNamespaceBlob(k, size) =>
      if k in db.blobs then Ok(db.(blobs := db.blobs[k := BlobRow(db.blobs[k].size, Active)]))
      else if k.ns !in db.namespaces then Err(ForeignKey)
      else Ok(db.(blobs := db.blobs[k := BlobRow(size, Active)]))
    case InsertManifest(k, mediaType, size) =>
      if k in db.manifests then Ok(db)
      else if k.ns !in db.namespaces then Err(ForeignKey)
      else Ok(db.(manifests := db.manifests[k := ManifestRow(mediaType, size, Active)]))
    case DeleteManifestByDigest(k) =>
      if k !in db.manifests || db.manifests[k].lifecycle.PendingDeletion? then Err(ManifestUnknown)
      else Ok(db.(manifests := db.manifests[k := db.manifests[k].(lifecycle := PendingDeletion)]))
    case UpsertReferrer(k, row) =>
      if k in db.referrers then
        Ok(db.(referrers := db.referrers[k := row.(createdAt := db.referrers[k].createdAt)]))
      else if k.ns !in db.namespaces then Err(ForeignKey)
      else Ok(db.(referrers := db.referrers[k := row]))
    case DeleteReferrer(k) => Ok(db.(referrers := db.referrers - {k}))
  }

  // A transaction body: its operations in order, up to the first error.
  function ExecAll(db: Db, body: seq<Stmt>): Result<Db, DbError>
    decreases |body|
  {
    if body == [] then Ok(db)
    else
      match Exec(db, body[0])
      case Ok(db') => ExecAll(db', body[1..])
      case Err(e) => Err(e)
  }

  lemma {:induction false} ExecAllSnoc(db: Db, body: seq<Stmt>, stmt: Stmt)
    ensures ExecAll(db, body + [stmt]) ==
      match ExecAll(db, body) case Ok(db') => Exec(db', stmt) case Err(e) => Err(e)
    decreases |body|
  {
    if body == [] {
      assert body + [stmt] == [stmt] && [stmt][1..] == [];
    } else {
      assert (body + [stmt])[1..] == body[1..] + [stmt];
      if Exec(db, body[0]).Ok? { ExecAllSnoc(Exec(db, body[0]).value, body[1..], stmt); }
    }
  }

  lemma ExecTwo(db: Db, a: Stmt, b: Stmt)
    ensures ExecAll(db, [a, b]) == match Exec(db, a) case Ok(d) => Exec(d, b) case Err(e) => Err(e)
  {
    assert [a] + [b] == [a, b];
    ExecAllSnoc(db, [a], b);
  }

  // ---- What the statements promise a caller ----

  // The key whose row the statement is about.
  function KeyOf(stmt: Stmt): Option<Key>
  {
    if stmt.CreateNamespace? || stmt.DeleteNamespace? then None else Some(stmt.k)
  }

  // The three tables hold the same under the key.
  predicate SameRows(db: Db, db': Db, x: Key)
  {
    && (x in db.blobs <==> x in db'.blobs) && (x in db.blobs ==> db'.blobs[x] == db.blobs[x])
    && (x in db.manifests <==> x in db'.manifests) && (x in db.manifests ==> db'.manifests[x] == db.manifests[x])
    && (x in db.referrers <==> x in db'.referrers) && (x in db.referrers ==> db'.referrers[x] == db.referrers[x])
  }

  // No statement changes a row under any other key, nor any namespace but the one it
  // creates or deletes, and none leaves a row without its namespace.
  lemma OnlyOwnRowChanges(db: Db, stmt: Stmt)
    requires Exec(db, stmt).Ok?
    ensures var db' := Exec(db, stmt).value;
      && (forall x :: KeyOf(stmt) != Some(x) ==> SameRows(db, db', x))
      && (forall x :: !(x in db.namespaces <==> x in db'.namespaces) ==> KeyOf(stmt).None? && stmt.ns == x)
      && (Referential(db) ==> Referential(db'))
  {
  }

  // Creating fails exactly on a name that is taken, and deleting undoes it.
  lemma CreateThenDelete(db: Db, ns: string)
    requires Referential(db)
    ensures Exec(db, CreateNamespace(ns)).Err? <==> ns in db.namespaces
    ensures ns in db.namespaces ==> Exec(db, CreateNamespace(ns)) == Err(NameExists)
    ensures ns !in db.namespaces ==> Exec(Exec(db, CreateNamespace(ns)).value, DeleteNamespace(ns)) == Ok(db)
  {
  }

  // Deleting succeeds exactly on a namespace that no row of any table names, and creating
  // undoes it.
  lemma DeleteThenCreate(db: Db, ns: string)
    ensures Exec(db, DeleteNamespace(ns)).Ok? <==>
      && ns in db.namespaces
      && forall k: Key :: k.ns == ns ==> k !in db.blobs && k !in db.manifests && k !in db.referrers
    ensures Exec(db, DeleteNamespace(ns)) == Err(NameUnknown) <==> ns !in db.namespaces
    ensures Exec(db, DeleteNamespace(ns)).Ok? ==> Exec(Exec(db, DeleteNamespace(ns)).value, CreateNamespace(ns)) == Ok(db)
  {
    if Exec(db, DeleteNamespace(ns)).Ok? { assert db.namespaces - {ns} + {ns} == db.namespaces; }
  }

  // A blob's row is active after every insert, of whatever size: the first insert's size is
  // kept, and a row pending deletion comes back with its own.  An insert fails exactly when
  // there is neither a row nor its namespace.
  lemma FirstBlobCounts(db: Db, k: Key, size: int, later: int)
    ensures Exec(db, InsertNamespaceBlob(k, size)).Err? <==> k !in db.blobs && k.ns !in db.namespaces
    ensures Exec(db, InsertNamespaceBlob(k, size)).Ok? ==>
      var db' := Exec(db, InsertNamespaceBlob(k, size)).value;
      && k in db'.blobs && db'.blobs[k].lifecycle.Active?
      && db'.blobs[k].size == (if k in db.blobs then db.blobs[k].size else size)
      && Exec(db', InsertNamespaceBlob(k, later)) == Ok(db')
  {
    if Exec(db, InsertNamespaceBlob(k, size)).Ok? {
      var db' := Exec(db, InsertNamespaceBlob(k, size)).value;
      assert db'.blobs[k := db'.blobs[k]] == db'.blobs;
    }
  }

  // A manifest is recorded unless its namespace is missing, and only the first insert counts:
  // a later one, of whatever media type and size, changes nothing, pending deletion or not.
  lemma FirstInsertCounts(db: Db, k: Key, mediaType: string, size: int, later: string, laterSize: int)
    ensures Exec(db, InsertManifest(k, mediaType, size)).Err? <==> k !in db.manifests && k.ns !in db.namespaces
    ensures Exec(db, InsertManifest(k, mediaType, size)).Ok? ==>
      var db' := Exec(db, InsertManifest(k, mediaType, size)).value;
      k in db'.manifests && Exec(db', InsertManifest(k, later, laterSize)) == Ok(db')
    ensures k in db.manifests && db.manifests[k].lifecycle.PendingDeletion? ==>
      Exec(Exec(db, InsertManifest(k, mediaType, size)).value, DeleteManifestByDigest(k)) == Err(ManifestUnknown)
  {
  }

  // A manifest can be deleted exactly once, and what was inserted stays on record.
  lemma DeletedOnce(db: Db, k: Key)
    ensures Exec(db, DeleteManifestByDigest(k)).Ok? <==> k in db.manifests && db.manifests[k].lifecycle.Active?
    ensures Exec(db, DeleteManifestByDigest(k)).Ok? ==>
      var db' := Exec(db, DeleteManifestByDigest(k)).value;
      && k in db'.manifests && db'.manifests[k].mediaType == db.manifests[k].mediaType && db'.manifests[k].size == db.manifests[k].size
      && Exec(db', DeleteManifestByDigest(k)) == Err(ManifestUnknown)
      && forall stmt: Stmt :: Exec(db', stmt).Ok? ==>
           k in Exec(db', stmt).value.manifests && Exec(db', stmt).value.manifests[k] == db'.manifests[k]
  {
  }

  // Of two upserts of a referrer the later counts, but for the creation time; deleting takes
  // back an upsert of a new referrer, and never fails.
  lemma LatestUpsertCounts(db: Db, k: Key, row: ReferrerRow, later: ReferrerRow)
    ensures Exec(db, UpsertReferrer(k, row)).Err? <==> k !in db.referrers && k.ns !in db.namespaces
    ensures Exec(db, UpsertReferrer(k, row)).Ok? ==>
      var db' := Exec(db, UpsertReferrer(k, row)).value;
      && k in db'.referrers
      && Exec(db', UpsertReferrer(k, later)) == Exec(db, UpsertReferrer(k, later.(createdAt := db'.referrers[k].createdAt)))
      && db'.referrers[k] == row.(createdAt := if k in db.referrers then db.referrers[k].createdAt else row.createdAt)
  {
    if Exec(db, UpsertReferrer(k, row)).Ok? {
      var db' := Exec(db, UpsertReferrer(k, row)).value;
      var last := later.(createdAt := db'.referrers[k].createdAt);
      assert db'.referrers[k := last] == db.referrers[k := last];
    }
  }

  lemma DeleteReferrerUndoes(db: Db, k: Key, row: ReferrerRow)
    ensures Exec(db, DeleteReferrer(k)).Ok? && k !in Exec(db, DeleteReferrer(k)).value.referrers
    ensures k !in db.referrers ==> Exec(db, DeleteReferrer(k)) == Ok(db)
    ensures k !in db.referrers && k.ns in db.namespaces ==>
      Exec(Exec(db, UpsertReferrer(k, row)).value, DeleteReferrer(k)) == Ok(db)
  {
    if k !in db.referrers {
      assert db.referrers - {k} == db.referrers;
      assert db.referrers[k := row] - {k} == db.referrers;
    }
  }

  // An open transaction: statements act on its own copy of the tables.
  class SqliteTx {
    var db: Db

    constructor (db: Db)
      ensures this.db == db
    {
      this.db := db;
    }

    // UPDATE ... SET lifecycle='active' WHERE ... lifecycle='pending_deletion'
    method Resurrect(k: Key)
      modifies this
      ensures db == old(db).(blobs := if k in old(db).blobs then old(db).blobs[k := old(db).blobs[k].(lifecycle := Active)] else old(db).blobs)
    {
      if k in db.blobs && db.blobs[k].lifecycle.PendingDeletion? {
        db := db.(blobs := db.blobs[k := db.blobs[k].(lifecycle := Active)]);
      }
      assert k in db.blobs ==> db.blobs == db.blobs[k := db.blobs[k]];
    }

    method CreateNamespace(ns: string) returns (r: Result<(), DbError>)
      modifies this
      ensures match Exec(old(db), Stmt.CreateNamespace(ns))
              case Ok(d) => r.Ok? && db == d
              case Err(e) => r == Err(e) && db == old(db)
    {
      var rows := 0;
      if ns !in db.namespaces {
        db := db.(namespaces := db.namespaces + {ns});
        rows := 1;
      }
      if rows == 0 {
        return Err(NameExists);
      }
      return Ok(());
    }

    method DeleteNamespace(ns: string) returns (r: Result<(), DbError>)
      modifies this
      ensures match Exec(old(db), Stmt.DeleteNamespace(ns))
              case Ok(d) => r.Ok? && db == d
              case Err(e) => r == Err(e) && db == old(db)
    {
      if ns !in db.namespaces {
        return Err(NameUnknown);
      }
      if Referenced(db, ns) {
        return Err(ForeignKey);
      }
      db := db.(namespaces := db.namespaces - {ns});
      return Ok(());
    }

    method InsertNamespaceBlob(k: Key, size: int) returns (r: Result<(), DbError>)
      modifies this
      ensures match Exec(old(db), Stmt.InsertNamespaceBlob(k, size))
              case Ok(d) => r.Ok? && db == d
              case Err(e) => r == Err(e) && db == old(db)
    {
      Resurrect(k);
      if k !in db.blobs {
        if k.ns !in db.namespaces {
          return Err(ForeignKey);
        }
        db := db.(blobs := db.blobs[k := BlobRow(size, Active)]);
      }
      return Ok(());
    }

    method InsertManifest(k: Key, mediaType: string, size: int) returns (r: Result<(), DbError>)
      modifies this
      ensures match Exec(old(db), Stmt.InsertManifest(k, mediaType, size))
              case Ok(d) => r.Ok? && db == d
              case Err(e) => r == Err(e) && db == old(db)
    {
      if k !in db.manifests {
        if k.ns !in db.namespaces {
          return Err(ForeignKey);
        }
        db := db.(manifests := db.manifests[k := ManifestRow(mediaType, size, Active)]);
      }
      return Ok(());
    }

    method DeleteManifestByDigest(k: Key) returns (r: Result<(), DbError>)
      modifies this
      ensures match Exec(old(db), Stmt.DeleteManifestByDigest(k))
              case Ok(d) => r.Ok? && db == d
              case Err(e) => r == Err(e) && db == old(db)
    {
      var rows := 0;
      if k in db.manifests && db.manifests[k].lifecycle.Active? {
        db := db.(manifests := db.manifests[k := db.manifests[k].(lifecycle := PendingDeletion)]);
        rows := 1;
      }
      if rows == 0 {
        return Err(ManifestUnknown);
      }
      return Ok(());
    }

    method UpsertReferrer(k: Key, row: ReferrerRow) returns (r: Result<(), DbError>)
      modifies this
      ensures match Exec(old(db), Stmt.UpsertReferrer(k, row))
              case Ok(d) => r.Ok? && db == d
              case Err(e) => r == Err(e) && db == old(db)
    {
      var stored := row;
      if k in db.referrers {
        stored := stored.(createdAt := db.referrers[k].createdAt);
      } else if k.ns !in db.namespaces {
        return Err(ForeignKey);
      }
      db := db.(referrers := db.referrers[k := stored]);
      return Ok(());
    }

    method DeleteReferrer(k: Key) returns (r: Result<(), DbError>)
      modifies this
      ensures match Exec(old(db), Stmt.DeleteReferrer(k))
              case Ok(d) => r.Ok? && db == d
              case Err(e) => r == Err(e) && db == old(db)
    {
      db := db.(referrers := db.referrers - {k});
      return Ok(());
    }

    method Run(stmt: Stmt) returns (r: Result<(), DbError>)
      modifies this
      ensures match Exec(old(db), stmt)
              case Ok(d) => r.Ok? && db == d
              case Err(e) => r == Err(e) && db == old(db)
    {
      match stmt {
        case CreateNamespace(ns) => r := CreateNamespace(ns);
        case DeleteNamespace(ns) => r := DeleteNamespace(ns);
        case InsertNamespaceBlob(k, size) => r := InsertNamespaceBlob(k, size);
        case InsertManifest(k, mediaType, size) => r := InsertManifest(k, mediaType, size);
        case DeleteManifestByDigest(k) => r := DeleteManifestByDigest(k);
        case UpsertReferrer(k, row) => r := UpsertReferrer(k, row);
        case DeleteReferrer(k) => r := DeleteReferrer(k);
      }
    }
  }

  // What goes wrong during one transaction, if anything: the statement index at which
  // the context is found cancelled, the database fails or the body panics.
  datatype TxFault = Cancel | Break | Panic

  datatype TxEnv = TxEnv(begins: bool, faults: map<nat, TxFault>, commits: bool)

  datatype TxResult = Committed | RolledBack(error: DbError) | Panicked

  // The statements from index `i` on, up to the first error or fault.
  function RunFrom(db: Db, body: seq<Stmt>, i: nat, faults: map<nat, TxFault>): (Db, TxResult)
    requires i <= |body|
    decreases |body| - i
  {
    if i == |body| then (db, TxResult.Committed)
    else if i in faults then
      (db, match faults[i] case Panic => Panicked case Cancel => RolledBack(Cancelled) case Break => RolledBack(Broken))
    else
      match Exec(db, body[i])
      case Ok(db') => RunFrom(db', body, i + 1, faults)
      case Err(e) => (db, RolledBack(e))
  }

  // One transaction.
  function Transact(db: Db, body: seq<Stmt>, env: TxEnv): (Db, TxResult)
  {
    if !env.begins then (db, RolledBack(Broken))
    else
      var (db', r) := RunFrom(db, body, 0, env.faults);
      if !r.Committed? then (db, r)
      else if !env.commits then (db, RolledBack(Broken))
      else (db', TxResult.Committed)
  }

  lemma {:induction false} RunFromIsExecAll(db: Db, body: seq<Stmt>, i: nat, faults: map<nat, TxFault>)
    requires i <= |body|
    ensures RunFrom(db, body, i, faults).1.Committed? <==>
      ExecAll(db, body[i..]).Ok? && forall j :: i <= j < |body| ==> j !in faults
    ensures RunFrom(db, body, i, faults).1.Committed? ==> ExecAll(db, body[i..]) == Ok(RunFrom(db, body, i, faults).0)
    decreases |body| - i
  {
    if i < |body| {
      assert body[i..][1..] == body[i + 1..];
      if i !in faults && Exec(db, body[i]).Ok? { RunFromIsExecAll(Exec(db, body[i]).value, body, i + 1, faults); }
    }
  }

  // All or nothing: a transaction commits exactly when nothing went wrong and every
  // statement succeeded; then all of them took effect, and otherwise none did.
  lemma AllOrNothing(db: Db, body: seq<Stmt>, env: TxEnv)
    ensures Transact(db, body, env).1.Committed? <==>
      env.begins && env.commits && ExecAll(db, body).Ok? && forall j :: 0 <= j < |body| ==> j !in env.faults
    ensures Transact(db, body, env).1.Committed? ==> ExecAll(db, body) == Ok(Transact(db, body, env).0)
    ensures !Transact(db, body, env).1.Committed? ==> Transact(db, body, env).0 == db
  {
    assert body[0..] == body;
    RunFromIsExecAll(db, body, 0, env.faults);
  }

  class SQLiteMetadataStore {
    var db: Db

    constructor ()
      ensures db == EMPTY_DB
    {
      db := EMPTY_DB;
    }

    // Statements act on the transaction's copy; `db` changes only on commit.
    method Atomic(body: seq<Stmt>, env: TxEnv) returns (r: TxResult)
      modifies this
      ensures (db, r) == Transact(old(db), body, env)
    {
      if !env.begins {
        return RolledBack(Broken);
      }
      var tx := new SqliteTx(db);
      var i := 0;
      while i < |body|
        invariant 0 <= i <= |body| && db == old(db)
        invariant RunFrom(old(db), body, 0, env.faults) == RunFrom(tx.db, body, i, env.faults)
      {
        if i in env.faults {
          match env.faults[i]
          case Panic => return Panicked;
          case Cancel => return RolledBack(Cancelled);
          case Break => return RolledBack(Broken);
        }
        var err := tx.Run(body[i]);
        if err.Err? {
          return RolledBack(err.error);
        }
        i := i + 1;
      }
      var committed := env.commits;
      if !committed {
        return RolledBack(Broken);
      }
      db := tx.db;
      return TxResult.Committed;
    }
  }
}
