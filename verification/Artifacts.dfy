/** Serving artifacts by name and version, over all namespaces. */
module Artifacts {
  import opened Wrappers
  import opened Orders
  import opened Sorting
  import opened Sequences
  import opened Text
  import opened Model
  import opened Tables
  import opened Index
  import Digest
  import Gates

  // ----- the name of an artifact

  const ARCHIVE := ".tar.zst"
  const SIGNATURE := ".tar.zst.sig"

  function StripSuffix(s: string, suffix: string): Option<string> {
    if EndsWith(s, suffix) then Some(s[..|s| - |suffix|]) else None
  }

  /** `artifact_version`: the version, and whether its signature is asked for. */
  function ArtifactVersion(artifact: string): Option<(string, bool)> {
    var signature := StripSuffix(artifact, SIGNATURE);
    if signature.Some? then Some((signature.value, true))
    else
      var version :- StripSuffix(artifact, ARCHIVE);
      Some((version, false))
  }

  lemma StripAppended(v: string, suffix: string)
    ensures StripSuffix(v + suffix, suffix) == Some(v)
  {
  }

  lemma StripInverts(s: string, suffix: string)
    ensures StripSuffix(s, suffix).Some? ==> s == StripSuffix(s, suffix).value + suffix
  {
  }

  lemma LastChar(s: string, suffix: string)
    requires suffix != ""
    ensures EndsWith(s, suffix) ==> s != "" && s[|s| - 1] == suffix[|suffix| - 1]
  {
  }

  /** An archive's name never reads as a signature's: the last characters differ. */
  lemma ArchiveIsNoSignature(v: string)
    ensures !EndsWith(v + ARCHIVE, SIGNATURE)
  {
    LastChar(v + ARCHIVE, SIGNATURE);
    assert ARCHIVE[|ARCHIVE| - 1] == 't' && SIGNATURE[|SIGNATURE| - 1] == 'g';
  }

  /** Reading an artifact name inverts appending the suffix, for every version text, and nothing else is read. */
  lemma ArtifactVersionExactly(artifact: string, version: string, signature: bool)
    ensures ArtifactVersion(artifact) == Some((version, signature)) <==>
      artifact == version + if signature then SIGNATURE else ARCHIVE
  {
    StripInverts(artifact, SIGNATURE);
    StripInverts(artifact, ARCHIVE);
    StripAppended(version, SIGNATURE);
    StripAppended(version, ARCHIVE);
    ArchiveIsNoSignature(version);
  }

  // ----- the version of that name

  function CompareNamespaces(a: JoinedRow, b: JoinedRow): Ordering {
    Compare(a.skill.namespace, b.skill.namespace)
  }

  function Named(name: string, version: string): JoinedRow -> bool {
    (row: JoinedRow) => row.skill.name == name && row.version.version == version
  }

  /** `public_version_by_name`, on the public rows in the order the database reads them: order by namespace, take one. */
  function PublicVersionByName(rows: seq<JoinedRow>, name: string, version: string): Result<SkillVersionRecord, HubError> {
    var found := SortBy(CompareNamespaces, Filter(Named(name, version), rows));
    if found == [] then Err(SkillVersionNotFound("*", name, version))
    else Ok(RecordOf(found[0].skill, found[0].version))
  }

  lemma NamespacesLawful(rows: seq<JoinedRow>)
    ensures Lawful(CompareNamespaces, rows)
  {
    CompareTotal();
    forall a, b | a in rows && b in rows ensures CompareNamespaces(b, a) == CompareNamespaces(a, b).Flip() {
      assert Compare(b.skill.namespace, a.skill.namespace) == Compare(a.skill.namespace, b.skill.namespace).Flip();
    }
    forall a, b, c | a in rows && b in rows && c in rows
        && CompareNamespaces(a, b) != Greater && CompareNamespaces(b, c) != Greater
      ensures CompareNamespaces(a, c) != Greater
    {
      NamesOrdered(a.skill.namespace, b.skill.namespace, c.skill.namespace);
    }
  }

  /** This public row has the name and version, in the least namespace that has them. */
  ghost predicate IsLeast(db: Tables, name: string, version: string, row: JoinedRow) {
    && IsPublicNamed(db, name, version, row)
    && forall other | IsPublicNamed(db, name, version, other) ::
         Compare(row.skill.namespace, other.skill.namespace) != Greater
  }

  lemma FilterHas<T>(p: T -> bool, s: seq<T>, x: T)
    ensures x in Filter(p, s) <==> x in s && p(x)
  {
  }

  /** The rows that the query selects, in the order it asks for. */
  lemma Selected(db: Tables, rows: seq<JoinedRow>, name: string, version: string)
    requires Lists(rows, PublicRows(db))
    ensures var found := SortBy(CompareNamespaces, Filter(Named(name, version), rows));
      && (forall row :: row in found <==> IsPublicNamed(db, name, version, row))
      && (found != [] ==> IsLeast(db, name, version, found[0]))
  {
    var picked := Filter(Named(name, version), rows);
    var found := SortBy(CompareNamespaces, picked);
    NamespacesLawful(picked);
    SortSorts(CompareNamespaces, picked);
    SortPermutes(CompareNamespaces, picked);
    forall row ensures row in found <==> IsPublicNamed(db, name, version, row) {
      SamePermutation(found, picked, row);
      FilterHas(Named(name, version), rows, row);
      assert row in rows <==> PublicRows(db)(row);
    }
    forall other | IsPublicNamed(db, name, version, other)
      ensures Compare(found[0].skill.namespace, other.skill.namespace) != Greater
    {
      assert other in found;
      var i :| 0 <= i < |found| && found[i] == other;
      CompareTotal();
      if i > 0 {
        assert CompareNamespaces(found[0], found[i]) != Greater;
      }
    }
  }

  /** There is one such row at most: equal namespaces make equal rows. */
  lemma LeastIsUnique(db: Tables, name: string, version: string, a: JoinedRow, b: JoinedRow)
    requires DbOk(db) && IsLeast(db, name, version, a) && IsLeast(db, name, version, b)
    ensures a == b
  {
    CompareTotal();
    var x, y := a.skill.namespace, b.skill.namespace;
    assert Compare(y, x) == Compare(x, y).Flip();
    assert Compare(x, y) == Equal <==> x == y;
    RowDetermined(db, a, b);
  }

  /**
   * Whatever order the database reads its rows in, the lookup yields the record of the least namespace that
   * has the name and version, and fails exactly when none has.
   */
  lemma LookupFindsTheLeast(db: Tables, rows: seq<JoinedRow>, name: string, version: string, row: JoinedRow)
    requires DbOk(db) && Lists(rows, PublicRows(db))
    ensures PublicVersionByName(rows, name, version).Err? <==> forall any :: !IsPublicNamed(db, name, version, any)
    ensures IsLeast(db, name, version, row) ==>
      PublicVersionByName(rows, name, version) == Ok(RecordOf(row.skill, row.version))
  {
    var found := SortBy(CompareNamespaces, Filter(Named(name, version), rows));
    Selected(db, rows, name, version);
    if found != [] {
      assert found[0] in found;
      if IsLeast(db, name, version, row) {
        LeastIsUnique(db, name, version, found[0], row);
      }
    }
  }

  lemma HitsAreNamedRows(db: Tables, registry: string, listing: seq<JoinedRow>, name: string, version: string)
    requires Lists(listing, PublicRows(db))
    ensures forall h :: h in IndexOf(registry, listing) && HitFor(h, name, version) <==>
      exists row :: IsPublicNamed(db, name, version, row) && HitOf(registry, row) == h
  {
    forall h ensures h in IndexOf(registry, listing) && HitFor(h, name, version) <==>
      exists row :: IsPublicNamed(db, name, version, row) && HitOf(registry, row) == h
    {
      IndexMembers(registry, listing, h);
      assert forall row :: row in listing <==> PublicRows(db)(row);
    }
  }

  /** A record is found exactly when the global index lists the name and version. */
  lemma LookupMatchesIndex(
      db: Tables, registry: string, rows: seq<JoinedRow>, listing: seq<JoinedRow>, name: string, version: string)
    requires Lists(rows, PublicRows(db)) && Lists(listing, PublicRows(db))
    ensures PublicVersionByName(rows, name, version).Ok? <==>
      exists h :: h in IndexOf(registry, listing) && HitFor(h, name, version)
  {
    var found := SortBy(CompareNamespaces, Filter(Named(name, version), rows));
    Selected(db, rows, name, version);
    HitsAreNamedRows(db, registry, listing, name, version);
    if found != [] {
      assert found[0] in found && IsPublicNamed(db, name, version, found[0]);
      var h := HitOf(registry, found[0]);
      assert h in IndexOf(registry, listing) && HitFor(h, name, version);
    }
  }

  lemma LookupFindsSome(db: Tables, rows: seq<JoinedRow>, name: string, version: string, row: JoinedRow)
    requires Lists(rows, PublicRows(db)) && IsPublicNamed(db, name, version, row)
    ensures PublicVersionByName(rows, name, version).Ok?
  {
    Selected(db, rows, name, version);
    assert row in SortBy(CompareNamespaces, Filter(Named(name, version), rows));
  }

  /** The hit shows what the record holds. */
  predicate Agrees(h: CompatibilitySkillHit, record: SkillVersionRecord) {
    h.digest == Some(record.digest) && h.signature == record.signature && h.publicKey == record.publicKey
  }

  /** All public rows of this name and version, in whatever namespaces, carry one digest, signature and key. */
  ghost predicate NamespacesAgree(db: Tables, name: string, version: string) {
    forall a, b | IsPublicNamed(db, name, version, a) && IsPublicNamed(db, name, version, b) ::
      a.version.digest == b.version.digest && a.version.signature == b.version.signature
        && a.version.publicKey == b.version.publicKey
  }

  /** The hits of a name and version agree with a record exactly when the rows do. */
  lemma HitsAgree(
      db: Tables, registry: string, listing: seq<JoinedRow>, name: string, version: string, record: SkillVersionRecord)
    requires Lists(listing, PublicRows(db))
    ensures (forall h | h in IndexOf(registry, listing) && HitFor(h, name, version) :: Agrees(h, record)) <==>
      forall row | IsPublicNamed(db, name, version, row) :: Agrees(HitOf(registry, row), record)
  {
    HitsAreNamedRows(db, registry, listing, name, version);
    if forall h | h in IndexOf(registry, listing) && HitFor(h, name, version) :: Agrees(h, record) {
      forall row | IsPublicNamed(db, name, version, row) ensures Agrees(HitOf(registry, row), record) {
        assert HitOf(registry, row) in IndexOf(registry, listing);
      }
    }
  }

  lemma FoundRow(db: Tables, rows: seq<JoinedRow>, name: string, version: string) returns (row: JoinedRow)
    requires Lists(rows, PublicRows(db)) && PublicVersionByName(rows, name, version).Ok?
    ensures IsPublicNamed(db, name, version, row)
    ensures PublicVersionByName(rows, name, version).value == RecordOf(row.skill, row.version)
  {
    var found := SortBy(CompareNamespaces, Filter(Named(name, version), rows));
    Selected(db, rows, name, version);
    row := found[0];
    assert row in found;
  }

  /** The record agrees with every hit of its name and version exactly when the namespaces do. */
  lemma RecordAgreesExactly(
      db: Tables, registry: string, rows: seq<JoinedRow>, listing: seq<JoinedRow>, name: string, version: string)
    requires Lists(rows, PublicRows(db)) && Lists(listing, PublicRows(db))
    requires PublicVersionByName(rows, name, version).Ok?
    ensures var record := PublicVersionByName(rows, name, version).value;
      (forall h | h in IndexOf(registry, listing) && HitFor(h, name, version) :: Agrees(h, record)) <==>
        NamespacesAgree(db, name, version)
  {
    var record := PublicVersionByName(rows, name, version).value;
    var row := FoundRow(db, rows, name, version);
    HitsAgree(db, registry, listing, name, version, record);
    assert Agrees(HitOf(registry, row), record);
  }

  /** In particular when one namespace has them, where there is one such row. */
  lemma OneNamespaceAgrees(db: Tables, name: string, version: string, namespace: string)
    requires DbOk(db)
    requires forall row | IsPublicNamed(db, name, version, row) :: row.skill.namespace == namespace
    ensures NamespacesAgree(db, name, version)
  {
  }

  // ----- the response

  datatype Response = NotFound | SignatureText(text: string) | Archive(mediaType: string, bytes: seq<Digest.byte>)

  function ServeSignature(rows: seq<JoinedRow>, name: string, version: string): Result<Response, HubError> {
    var record :- PublicVersionByName(rows, name, version);
    Ok(if record.signature.Some? then SignatureText(record.signature.value + "\n") else NotFound)
  }

  function ServeArchive(
      cfg: Gates.Config, rows: seq<JoinedRow>, store: string -> Option<seq<Digest.byte>>, name: string, version: string)
      : Result<Response, HubError> {
    var record :- PublicVersionByName(rows, name, version);
    var bytes :- Gates.FetchVerified(cfg, store(record.artifactUrl), record.digest);
    Ok(Archive(record.artifactMediaType, bytes))
  }

  /** `db_artifact_response`; `store` is what lies at each URL. */
  function Serve(
      cfg: Gates.Config, rows: seq<JoinedRow>, store: string -> Option<seq<Digest.byte>>, name: string, artifact: string)
      : Result<Response, HubError> {
    match ArtifactVersion(artifact)
    case None => Ok(NotFound)
    case Some((version, signature)) =>
      if signature then ServeSignature(rows, name, version) else ServeArchive(cfg, rows, store, name, version)
  }

  /** Every version is served, as archive and as signature, under its name with the suffix appended. */
  lemma ServedByName(
      cfg: Gates.Config, rows: seq<JoinedRow>, store: string -> Option<seq<Digest.byte>>, name: string, version: string)
    ensures Serve(cfg, rows, store, name, version + ARCHIVE) == ServeArchive(cfg, rows, store, name, version)
    ensures Serve(cfg, rows, store, name, version + SIGNATURE) == ServeSignature(rows, name, version)
  {
    ArtifactVersionExactly(version + ARCHIVE, version, false);
    ArtifactVersionExactly(version + SIGNATURE, version, true);
  }

  predicate HashesTo(cfg: Gates.Config, bytes: seq<Digest.byte>, digest: string) {
    Digest.IsDigest(digest) && Digest.HexDecode(digest[|Digest.PREFIX|..]) == cfg.hash(bytes)
  }

  /** What is served for a version hashes to the digest of its record, and it is served whenever such bytes are there. */
  lemma ServedBytesMatchRecord(
      cfg: Gates.Config, rows: seq<JoinedRow>, store: string -> Option<seq<Digest.byte>>, name: string, version: string)
    ensures var served := ServeArchive(cfg, rows, store, name, version);
      var record := PublicVersionByName(rows, name, version);
      && (served.Ok? <==>
            record.Ok? && store(record.value.artifactUrl).Some?
            && HashesTo(cfg, store(record.value.artifactUrl).value, record.value.digest))
      && (served.Ok? ==> served.value.Archive? && HashesTo(cfg, served.value.bytes, record.value.digest))
  {
    var record := PublicVersionByName(rows, name, version);
    if record.Ok? {
      Gates.FetchedBytesMatch(cfg, store(record.value.artifactUrl), record.value.digest);
    }
  }

  lemma HitShowsRecord(
      db: Tables, registry: string, rows: seq<JoinedRow>, listing: seq<JoinedRow>, name: string, version: string,
      h: CompatibilitySkillHit)
    requires Lists(rows, PublicRows(db)) && Lists(listing, PublicRows(db)) && NamespacesAgree(db, name, version)
    requires h in IndexOf(registry, listing) && HitFor(h, name, version)
    ensures PublicVersionByName(rows, name, version).Ok? && Agrees(h, PublicVersionByName(rows, name, version).value)
  {
    LookupMatchesIndex(db, registry, rows, listing, name, version);
    RecordAgreesExactly(db, registry, rows, listing, name, version);
  }

  /** So where the namespaces agree, a client that checks the digest listed in the index accepts what it is served. */
  lemma ServedBytesMatchIndex(
      cfg: Gates.Config, db: Tables, registry: string, rows: seq<JoinedRow>, listing: seq<JoinedRow>,
      store: string -> Option<seq<Digest.byte>>, name: string, version: string, h: CompatibilitySkillHit)
    requires Lists(rows, PublicRows(db)) && Lists(listing, PublicRows(db)) && NamespacesAgree(db, name, version)
    requires h in IndexOf(registry, listing) && HitFor(h, name, version)
    ensures h.digest.Some?
    ensures var served := ServeArchive(cfg, rows, store, name, version);
      served.Ok? ==> served.value.Archive? && HashesTo(cfg, served.value.bytes, h.digest.value)
  {
    ServedBytesMatchRecord(cfg, rows, store, name, version);
    HitShowsRecord(db, registry, rows, listing, name, version, h);
  }

  /**
   * What each artifact name gets: `version.tar.zst.sig` the stored signature and a newline, `version.tar.zst` the
   * stored bytes under the stored media type, both from the row of the least namespace; anything else, nothing.
   */
  lemma ServedExactly(
      cfg: Gates.Config, db: Tables, rows: seq<JoinedRow>, store: string -> Option<seq<Digest.byte>>, name: string,
      version: string, row: JoinedRow)
    requires DbOk(db) && Lists(rows, PublicRows(db)) && IsLeast(db, name, version, row)
    ensures Serve(cfg, rows, store, name, version + ".tar.zst.sig") ==
      match row.version.signature
      case Some(s) => Ok(SignatureText(s + "\n"))
      case None => Ok(NotFound)
    ensures Serve(cfg, rows, store, name, version + ".tar.zst") ==
      match store(row.version.artifactUrl)
      case Some(bytes) =>
        if HashesTo(cfg, bytes, row.version.digest) then Ok(Archive(row.version.artifactMediaType, bytes))
        else Err(ArtifactVerification)
      case None => Err(ArtifactVerification)
  {
    ServedByName(cfg, rows, store, name, version);
    LookupFindsTheLeast(db, rows, name, version, row);
    Gates.FetchedBytesMatch(cfg, store(row.version.artifactUrl), row.version.digest);
  }

  lemma HasMember<T>(s: seq<T>)
    ensures s != [] ==> exists x :: x in s
  {
    if s != [] {
      assert s[0] in s;
    }
  }

  /** A version that no public row has is reported missing under both names. */
  lemma MissingIsReported(
      cfg: Gates.Config, db: Tables, rows: seq<JoinedRow>, store: string -> Option<seq<Digest.byte>>, name: string,
      version: string)
    requires DbOk(db) && Lists(rows, PublicRows(db)) && forall row :: !IsPublicNamed(db, name, version, row)
    ensures Serve(cfg, rows, store, name, version + ".tar.zst.sig") == Err(SkillVersionNotFound("*", name, version))
    ensures Serve(cfg, rows, store, name, version + ".tar.zst") == Err(SkillVersionNotFound("*", name, version))
  {
    ServedByName(cfg, rows, store, name, version);
    var found := SortBy(CompareNamespaces, Filter(Named(name, version), rows));
    Selected(db, rows, name, version);
    HasMember(found);
  }

  lemma OtherNamesNotFound(
      cfg: Gates.Config, rows: seq<JoinedRow>, store: string -> Option<seq<Digest.byte>>, name: string, artifact: string)
    requires forall version: string :: artifact != version + ".tar.zst" && artifact != version + ".tar.zst.sig"
    ensures Serve(cfg, rows, store, name, artifact) == Ok(NotFound)
  {
    StripInverts(artifact, SIGNATURE);
    StripInverts(artifact, ARCHIVE);
  }
}
