// internal/manifest/utils.go: what a manifest body says, and the transaction bodies of
// internal/manifest/service.go.
module Manifests {
  import opened Basics
  import opened Digests
  import opened FileSystem
  import opened Metastore

  // The fields of a decoded manifest that the registry looks at.
  datatype Manifest = Manifest(
    subject: Option<Digest>, mediaType: string, artifactType: string,
    configMediaType: string, annotations: Option<map<string, string>>)

  // JSON decoding: any deterministic function.
  type Parser = Bytes -> Option<Manifest>

  const IMAGE_MANIFEST := "application/vnd.oci.image.manifest.v1+json"

  // The content type of the request, when given, overrides the body's media type.
  function ParseManifestBody(parse: Parser, contentType: string, body: Bytes): Option<Manifest>
  {
    match parse(body)
    case None => None
    case Some(m) =>
      var m := if contentType != "" then m.(mediaType := contentType) else m;
      if m.mediaType == "" then None else Some(m)
  }

  function DeriveReferrerArtifactType(m: Manifest): string
  {
    if m.artifactType != "" then m.artifactType
    else if m.mediaType == IMAGE_MANIFEST && m.configMediaType != "" then m.configMediaType
    else ""
  }

  // The subject a manifest names, if any; an empty digest names none.
  function SubjectOf(m: Manifest): Option<Digest>
  {
    if m.subject == Some("") then None else m.subject
  }

  function DeriveReferrer(m: Manifest, size: int, now: int): Option<ReferrerRow>
  {
    match SubjectOf(m)
    case None => None
    case Some(s) =>
      Some(ReferrerRow(s, m.mediaType, DeriveReferrerArtifactType(m), size,
                       if m.annotations.None? then map[] else m.annotations.value, now))
  }

  // storeManifest
  function StoreManifest(k: Key, m: Manifest, size: int, now: int): seq<Stmt>
  {
    [InsertManifest(k, m.mediaType, size)]
    + match DeriveReferrer(m, size, now) case None => [] case Some(row) => [UpsertReferrer(k, row)]
  }

  // The transaction of DeleteManifest.
  function RemoveManifest(k: Key): seq<Stmt> { [DeleteManifestByDigest(k), DeleteReferrer(k)] }

  // digest.FromBytes uses the canonical algorithm.
  function ManifestDigest(H: Hashes, body: Bytes): Digest { Sum(H, "sha256", body) }

  // A body is accepted exactly when it parses and a media type is known; the request's content
  // type is the manifest's media type, and only without one the body's own.
  lemma AcceptedBody(parse: Parser, contentType: string, body: Bytes)
    ensures ParseManifestBody(parse, contentType, body).None? <==>
      parse(body).None? || (contentType == "" && parse(body).value.mediaType == "")
    ensures ParseManifestBody(parse, contentType, body).Some? ==>
      var m := ParseManifestBody(parse, contentType, body).value;
      && m.mediaType == (if contentType != "" then contentType else parse(body).value.mediaType) && m.mediaType != ""
      && m.subject == parse(body).value.subject && m.artifactType == parse(body).value.artifactType
      && m.configMediaType == parse(body).value.configMediaType && m.annotations == parse(body).value.annotations
  {
  }

  // A manifest's own artifact type comes first; an image manifest without one goes by the
  // media type of its config, and any other has none.
  lemma ArtifactTypeComesFirst(m: Manifest)
    ensures m.artifactType != "" ==> DeriveReferrerArtifactType(m) == m.artifactType
    ensures m.artifactType == "" && m.mediaType == "application/vnd.oci.image.manifest.v1+json" ==>
      DeriveReferrerArtifactType(m) == m.configMediaType
    ensures m.artifactType == "" && m.mediaType != "application/vnd.oci.image.manifest.v1+json" ==>
      DeriveReferrerArtifactType(m) == ""
  {
  }

  // Exactly the manifests with a non-empty subject have a referrer row.
  lemma SubjectHasRow(m: Manifest, size: int, now: int)
    ensures forall s :: SubjectOf(m) == Some(s) <==> m.subject == Some(s) && s != ""
    ensures DeriveReferrer(m, size, now).Some? <==> m.subject.Some? && m.subject.value != ""
    ensures DeriveReferrer(m, size, now).Some? ==>
      var row := DeriveReferrer(m, size, now).value;
      && row.subject == m.subject.value && row.mediaType == m.mediaType && row.size == size && row.createdAt == now
      && row.annotations == (if m.annotations.None? then map[] else m.annotations.value)
  {
  }

  // A committed storeManifest: the manifest row is inserted unless one exists, the
  // referrer row of a manifest that names a subject is what DeriveReferrer says.
  lemma StoreEffect(db: Db, k: Key, m: Manifest, size: int, now: int)
    requires ExecAll(db, StoreManifest(k, m, size, now)).Ok?
    ensures var db' := ExecAll(db, StoreManifest(k, m, size, now)).value;
      && db'.namespaces == db.namespaces && db'.blobs == db.blobs && (k in db.manifests || k.ns in db.namespaces)
      && db'.manifests == (if k in db.manifests then db.manifests else db.manifests[k := ManifestRow(m.mediaType, size, Active)])
      && db'.referrers.Keys == db.referrers.Keys + (if SubjectOf(m).Some? then {k} else {})
      && (forall x :: x in db.referrers && x != k ==> x in db'.referrers && db'.referrers[x] == db.referrers[x])
      && (SubjectOf(m).Some? ==> DeriveReferrer(m, size, db'.referrers[k].createdAt) == Some(db'.referrers[k]))
      && (SubjectOf(m).None? ==> db'.referrers == db.referrers)
  {
    var insert := InsertManifest(k, m.mediaType, size);
    match DeriveReferrer(m, size, now)
    case None =>
      assert StoreManifest(k, m, size, now) == [insert];
    case Some(row) =>
      assert StoreManifest(k, m, size, now) == [insert, UpsertReferrer(k, row)];
      ExecTwo(db, insert, UpsertReferrer(k, row));
  }

  // A delete commits exactly when the manifest is active; its row stays, pending
  // deletion, and its referrer row goes.
  lemma RemoveEffect(db: Db, k: Key)
    ensures ExecAll(db, RemoveManifest(k)).Ok? <==> k in db.manifests && db.manifests[k].lifecycle.Active?
    ensures ExecAll(db, RemoveManifest(k)).Ok? ==>
      ExecAll(db, RemoveManifest(k)).value
        == db.(manifests := db.manifests[k := db.manifests[k].(lifecycle := PendingDeletion)], referrers := db.referrers - {k})
  {
    ExecTwo(db, DeleteManifestByDigest(k), DeleteReferrer(k));
  }

  // In an existing namespace no statement of a put is rejected.
  lemma StoreSucceeds(db: Db, k: Key, m: Manifest, size: int, now: int)
    requires k.ns in db.namespaces
    ensures ExecAll(db, StoreManifest(k, m, size, now)).Ok?
  {
    var insert := InsertManifest(k, m.mediaType, size);
    match DeriveReferrer(m, size, now)
    case None =>
      assert StoreManifest(k, m, size, now) == [] + [insert];
      ExecAllSnoc(db, [], insert);
    case Some(row) =>
      assert StoreManifest(k, m, size, now) == [insert, UpsertReferrer(k, row)];
      ExecTwo(db, insert, UpsertReferrer(k, row));
  }

  // A body matches its own digest, which is always a SHA-256 digest.
  lemma ManifestMatches(H: Hashes, body: Bytes)
    ensures Matches(H, ManifestDigest(H, body), body)
    ensures "sha256:" <= ManifestDigest(H, body) && Algorithm(ManifestDigest(H, body)) == "sha256"
  {
    var d := ManifestDigest(H, body);
    assert d[0] == 's' && d[1..][0] == 'h' && d[1..][1..][0] == 'a' && d[1..][1..][1..][0] == '2';
    assert d[1..][1..][1..][1..][0] == '5' && d[1..][1..][1..][1..][1..][0] == '6' && d[1..][1..][1..][1..][1..][1..][0] == ':';
    assert Colon(d) == 6;
    assert Algorithm(d) == "sha256";
  }
}
