/** What the builder of a fixed snapshot writes and what its opener checks. */
module SnapshotManifest {
  import opened Seqs
  import opened SnapshotProjection

  // ----- files -----

  /** `_file_identity` */
  datatype Identity = Identity(sha: string, size: nat)

  datatype Descriptor = Descriptor(file: Identity, dimension: nat, metric: string, ntotal: nat)

  /** An index file: the ids and vectors it holds in order. */
  datatype IndexFile = IndexFile(ids: seq<int>, vectors: seq<Vector>, dimension: nat, metric: string)

  datatype SnapshotRow = SnapshotRow(build: string, path: string, descriptor: Descriptor, state: string)

  /** A row of `snapshot_membership`. */
  datatype MemberRow = MemberRow(snapshot: string, chunk: string, id: int)

  /** A projected catalog. Reports have an id each, parents the id of their report, chunks their parent. */
  datatype CatalogFile = CatalogFile(
    activeSnapshot: string, activeBuild: string, snapshots: map<string, SnapshotRow>, members: seq<MemberRow>,
    reports: map<string, int>, parents: map<string, int>, chunks: map<string, string>)

  datatype Content = OfIndex(index: IndexFile) | OfCatalog(catalog: CatalogFile) | OfBytes(bytes: string)

  /** One source artifact of a projection. */
  datatype Source = Source(id: string, kind: string, sequence: nat, descriptor: Descriptor)

  datatype Pair = Pair(id: int, chunk: string)

  /** The part of a manifest its revision is derived from. */
  datatype Material = Material(
    schema: nat, contract: string, catalog: Identity, index: Identity,
    sourceSnapshot: string, sourceSha: string, generation: int, sources: seq<Source>,
    reports: seq<string>, mappingDigest: string, build: string, snapshot: string, vector: Descriptor)

  datatype Counts = Counts(reports: nat, parents: nat, chunks: nat)

  datatype Manifest = Manifest(material: Material, revision: string, lifecycle: string, mapping: seq<Pair>,
    counts: Counts)

  datatype Directory = Directory(index: Option<Content>, catalog: Option<Content>, manifest: Option<Manifest>)

  const EMPTY := Directory(None, None, None)

  // ----- hashing -----

  /**
    File hashing, hashing of the canonical JSON of revision material, chunk mappings and plans, and
    the form revisions have to have (`_REVISION_RE`).
   */
  datatype Hashes = Hashes(
    identity: Content -> Identity, revision: Material -> string, mapping: seq<Pair> -> string, plan: Plan -> string,
    isRevision: string -> bool)

  /** No two files, materials or mappings collide, and revisions have their form. */
  ghost predicate Sound(h: Hashes) {
    && (forall a, b :: h.identity(a) == h.identity(b) ==> a == b)
    && (forall a, b :: h.revision(a) == h.revision(b) ==> a == b)
    && (forall a, b :: h.mapping(a) == h.mapping(b) ==> a == b)
    && (forall a :: h.isRevision(h.revision(a)))
  }

  // ----- the builder -----

  /** Where a projection comes from and who is to read it. */
  datatype Origin = Origin(
    contract: string, sourceSnapshot: string, sourceSha: string, generation: int, sources: seq<Source>, metric: string)

  /** A selection as read from the source: the report of every parent, the parent of every chunk, and the vectors. */
  datatype Projection = Projection(
    origin: Origin, reports: set<string>, parents: map<string, string>, chunkParents: map<string, string>,
    chunks: seq<string>, vectors: seq<Vector>)

  /** Vectors of one positive dimension, at least one. */
  predicate IsMatrix(vectors: seq<Vector>) {
    vectors != [] && vectors[0] != [] && forall v :: v in vectors ==> |v| == |vectors[0]|
  }

  /** Every chunk is there once with its parent and a vector, and every parent with its report. */
  predicate PlanOk(p: Projection) {
    && p.chunks != [] && Distinct(p.chunks) && |p.vectors| == |p.chunks|
    && IsMatrix(p.vectors)
    && (forall u :: u in p.parents ==> p.parents[u] in p.reports)
    && (forall c :: c in p.chunkParents ==> c in p.chunks)
    && (forall c :: c in p.chunks ==> c in p.chunkParents)
    && (forall c :: c in p.chunkParents ==> p.chunkParents[c] in p.parents)
  }

  /** Rows the builder can work with. */
  type Plan = p: Projection | PlanOk(p)
    witness Projection(Origin("", "", "", 0, [], ""), {"report"}, map["parent" := "report"], map["chunk" := "parent"],
      ["chunk"], [[0]])

  const CATALOG_READY := "ready"
  const INDEX_FILENAME := "subset.faiss"
  const MANIFEST_SCHEMA_VERSION := 2

  function UpTo(n: nat): (ids: seq<int>)
    ensures |ids| == n && forall i :: 0 <= i < n ==> ids[i] == i + 1
  {
    seq(n, i => i + 1)
  }

  function IndexOf(p: Plan): IndexFile { IndexFile(UpTo(|p.chunks|), p.vectors, |p.vectors[0]|, p.origin.metric) }

  function DescriptorOf(p: Plan, h: Hashes): Descriptor {
    Descriptor(h.identity(OfIndex(IndexOf(p))), |p.vectors[0]|, p.origin.metric, |p.chunks|)
  }

  function BuildId(p: Plan, h: Hashes): string { "fixed-build-" + h.plan(p) }

  function SnapshotId(p: Plan, h: Hashes): string { "fixed-snapshot-" + h.plan(p) }

  function MemberRows(snapshot: string, chunks: seq<string>): (rows: seq<MemberRow>)
    ensures |rows| == |chunks| && forall i :: 0 <= i < |rows| ==> rows[i] == MemberRow(snapshot, chunks[i], i + 1)
  {
    seq(|chunks|, i requires 0 <= i < |chunks| => MemberRow(snapshot, chunks[i], i + 1))
  }

  function MappingOf(chunks: seq<string>): (pairs: seq<Pair>)
    ensures |pairs| == |chunks| && forall i :: 0 <= i < |pairs| ==> pairs[i] == Pair(i + 1, chunks[i])
  {
    seq(|chunks|, i requires 0 <= i < |chunks| => Pair(i + 1, chunks[i]))
  }

  /** `report_id_by_uid`: the reports are numbered from 1 in the order of their uids. */
  function ReportIds(reports: set<string>): (ids: map<string, int>)
    ensures ids.Keys == reports
  {
    AscendingIsDistinct(SortUids(reports));
    NumberUids(SortUids(reports))
  }

  function ParentRows(parents: map<string, string>, ids: map<string, int>): (rows: map<string, int>)
    requires forall u :: u in parents ==> parents[u] in ids
    ensures rows.Keys == parents.Keys
    ensures forall u :: u in parents ==> rows[u] == ids[parents[u]]
  {
    map u | u in parents :: ids[parents[u]]
  }

  /** `_write_projected_catalog` */
  function CatalogOf(p: Plan, h: Hashes): CatalogFile {
    CatalogFile(
      SnapshotId(p, h), BuildId(p, h),
      map[SnapshotId(p, h) := SnapshotRow(BuildId(p, h), INDEX_FILENAME, DescriptorOf(p, h), CATALOG_READY)],
      MemberRows(SnapshotId(p, h), p.chunks), ReportIds(p.reports), ParentRows(p.parents, ReportIds(p.reports)),
        p.chunkParents)
  }

  function MaterialOf(p: Plan, h: Hashes): Material {
    Material(
      MANIFEST_SCHEMA_VERSION, p.origin.contract, h.identity(OfCatalog(CatalogOf(p, h))),
        h.identity(OfIndex(IndexOf(p))),
      p.origin.sourceSnapshot, p.origin.sourceSha, p.origin.generation, p.origin.sources, SortUids(p.reports),
      h.mapping(MappingOf(p.chunks)), BuildId(p, h), SnapshotId(p, h), DescriptorOf(p, h))
  }

  /** `_build_manifest` */
  function ManifestOf(p: Plan, h: Hashes): Manifest {
    Manifest(
      MaterialOf(p, h), h.revision(MaterialOf(p, h)), "READY", MappingOf(p.chunks),
      Counts(|p.reports|, |p.parents|, |p.chunks|))
  }

  /** The manifest names where the projection comes from, what was selected and the files it was written to. */
  lemma ManifestNames(p: Plan, h: Hashes)
    ensures var m := Built(p, h).manifest.value;
      && m.lifecycle == "READY" && m.revision == h.revision(m.material)
      && m.material.schema == 2 && m.material.contract == p.origin.contract
      && m.material.sourceSnapshot == p.origin.sourceSnapshot && m.material.sourceSha == p.origin.sourceSha
      && m.material.generation == p.origin.generation && m.material.sources == p.origin.sources
      && Ascending(m.material.reports) && (forall u :: u in m.material.reports <==> u in p.reports)
      && m.material.catalog == h.identity(Built(p, h).catalog.value)
      && m.material.index == h.identity(Built(p, h).index.value) == m.material.vector.file
      && m.material.build == "fixed-build-" + h.plan(p) && m.material.snapshot == "fixed-snapshot-" + h.plan(p)
      && |m.mapping| == |p.chunks| && (forall i :: 0 <= i < |p.chunks| ==> m.mapping[i] == Pair(i + 1, p.chunks[i]))
      && m.material.mappingDigest == h.mapping(m.mapping)
      && m.counts == Counts(|p.reports|, |p.parents|, |p.chunks|)
  {
  }

  /** The files hold the vectors in order of the chunks, the chunks under ids 1 to N, and their parents and reports. */
  lemma FilesHold(p: Plan, h: Hashes)
    ensures var x, c := Built(p, h).index.value.index, Built(p, h).catalog.value.catalog;
      && x.vectors == p.vectors && |x.ids| == |p.chunks| && (forall i :: 0 <= i < |x.ids| ==> x.ids[i] == i + 1)
      && |c.members| == |p.chunks|
      && (forall i :: 0 <= i < |c.members| ==> c.members[i] == MemberRow(c.activeSnapshot, p.chunks[i], i + 1))
      && c.reports.Keys == p.reports && c.parents.Keys == p.parents.Keys && c.chunks == p.chunkParents
      && (forall u :: u in c.parents ==> p.parents[u] in c.reports && c.parents[u] == c.reports[p.parents[u]])
  {
  }

  function Built(p: Plan, h: Hashes): Directory {
    Directory(Some(OfIndex(IndexOf(p))), Some(OfCatalog(CatalogOf(p, h))), Some(ManifestOf(p, h)))
  }

  // ----- the opener -----

  datatype Outcome = Opened(revision: string, chunks: seq<string>, index: IndexFile) | Missing | Incompatible | Corrupt

  /** `load_index`: hash, size, ids 1 to N, metric, dimension and count. */
  predicate IndexLoads(content: Content, d: Descriptor, h: Hashes) {
    && content.OfIndex?
    && h.identity(content) == d.file
    && content.index.ids == UpTo(|content.index.ids|)
    && content.index.metric == d.metric
    && content.index.dimension == d.dimension
    && |content.index.ids| == d.ntotal
  }

  function RowsOf(rows: seq<MemberRow>, snapshot: string): seq<Pair> {
    if rows == [] then []
    else (if rows[0].snapshot == snapshot then [Pair(rows[0].id, rows[0].chunk)] else []) + RowsOf(rows[1..], snapshot)
  }

  function InsertPair(ps: seq<Pair>, p: Pair): seq<Pair> {
    if ps == [] || p.id <= ps[0].id then [p] + ps else [ps[0]] + InsertPair(ps[1..], p)
  }

  /** `ORDER BY faiss_id` */
  function SortPairs(ps: seq<Pair>): seq<Pair> { if ps == [] then [] else InsertPair(SortPairs(ps[1..]), ps[0]) }

  function Ids(ps: seq<Pair>): (ids: seq<int>)
    ensures |ids| == |ps| && forall i :: 0 <= i < |ids| ==> ids[i] == ps[i].id
  {
    seq(|ps|, i requires 0 <= i < |ps| => ps[i].id)
  }

  function Chunks(ps: seq<Pair>): (chunks: seq<string>)
    ensures |chunks| == |ps| && forall i :: 0 <= i < |chunks| ==> chunks[i] == ps[i].chunk
  {
    seq(|ps|, i requires 0 <= i < |ps| => ps[i].chunk)
  }

  /** The snapshot row and the runtime agree with the manifest. */
  predicate RuntimeAgrees(c: CatalogFile, m: Material) {
    && c.activeSnapshot == m.snapshot && c.activeBuild == m.build
    && m.snapshot in c.snapshots
    && c.snapshots[m.snapshot].state == CATALOG_READY
    && c.snapshots[m.snapshot].path == INDEX_FILENAME
    && c.snapshots[m.snapshot].descriptor == m.vector
  }

  predicate MembershipAgrees(c: CatalogFile, m: Manifest, index: IndexFile, h: Hashes) {
    var pairs := SortPairs(RowsOf(c.members, m.material.snapshot));
    pairs == m.mapping && h.mapping(pairs) == m.material.mappingDigest && Ids(pairs) == index.ids
  }

  /** `PRAGMA foreign_key_check`: every row refers to rows that exist. */
  predicate ForeignKeysHold(c: CatalogFile) {
    && c.activeSnapshot in c.snapshots
    && (forall u :: u in c.parents ==> c.parents[u] in c.reports.Values)
    && (forall u :: u in c.chunks ==> c.chunks[u] in c.parents)
    && (forall row :: row in c.members ==> row.snapshot in c.snapshots && row.chunk in c.chunks)
  }

  predicate CountsAgree(c: CatalogFile, m: Manifest, index: IndexFile) {
    && SortUids(c.reports.Keys) == m.material.reports
    && Counts(|c.reports|, |c.parents|, |c.chunks|) == m.counts
    && |c.chunks| == |index.ids|
  }

  /** `_open_artifact_path`, check by check */
  function Open(dir: Directory, contract: string, h: Hashes): Outcome {
    if dir.manifest.None? then Missing
    else
      var m := dir.manifest.value;
      if m.material.contract != contract || m.material.schema != MANIFEST_SCHEMA_VERSION then Incompatible
      else if m.lifecycle != "READY" || !h.isRevision(m.revision) then Corrupt
      else if dir.catalog.None? then Missing
      else if h.identity(dir.catalog.value) != m.material.catalog then Corrupt
      else if dir.index.None? then Missing
      else if h.identity(dir.index.value) != m.material.index then Corrupt
      else if h.revision(m.material) != m.revision then Corrupt
      else if !IndexLoads(dir.index.value, m.material.vector, h) then Corrupt
      else if !dir.catalog.value.OfCatalog? || !ForeignKeysHold(dir.catalog.value.catalog) then Corrupt
      else
        var c, index := dir.catalog.value.catalog, dir.index.value.index;
        if !RuntimeAgrees(c, m.material) || !MembershipAgrees(c, m, index, h) || !CountsAgree(c, m, index) then Corrupt
        else Opened(m.revision, Chunks(m.mapping), index)
  }

  // ----- builder and opener agree -----

  lemma {:induction false} OwnRows(snapshot: string, chunks: seq<string>, n: nat)
    requires n <= |chunks|
    ensures RowsOf(MemberRows(snapshot, chunks)[n..], snapshot) == MappingOf(chunks)[n..]
    decreases |chunks| - n
  {
    if n < |chunks| {
      OwnRows(snapshot, chunks, n + 1);
      var rows := MemberRows(snapshot, chunks)[n..];
      assert rows[0] == MemberRow(snapshot, chunks[n], n + 1) && rows[1..] == MemberRows(snapshot, chunks)[n + 1..];
      assert MappingOf(chunks)[n..] == [Pair(n + 1, chunks[n])] + MappingOf(chunks)[n + 1..];
    }
  }

  predicate Increasing(ps: seq<Pair>) { forall i, j :: 0 <= i < j < |ps| ==> ps[i].id < ps[j].id }

  lemma {:induction false} SortIncreasing(ps: seq<Pair>)
    requires Increasing(ps)
    ensures SortPairs(ps) == ps
  {
    if ps != [] {
      SortIncreasing(ps[1..]);
      assert ps == [ps[0]] + ps[1..];
    }
  }

  lemma MappingReads(snapshot: string, chunks: seq<string>)
    ensures SortPairs(RowsOf(MemberRows(snapshot, chunks), snapshot)) == MappingOf(chunks)
    ensures Ids(MappingOf(chunks)) == UpTo(|chunks|) && Chunks(MappingOf(chunks)) == chunks
  {
    OwnRows(snapshot, chunks, 0);
    assert MemberRows(snapshot, chunks)[0..] == MemberRows(snapshot, chunks) &&
      MappingOf(chunks)[0..] == MappingOf(chunks);
    SortIncreasing(MappingOf(chunks));
  }

  lemma {:induction false} ElementsCount(s: seq<string>, elements: set<string>)
    requires Distinct(s) && forall x :: x in s <==> x in elements
    ensures |elements| == |s|
    decreases |s|
  {
    if s == [] {
      assert elements == {};
    } else {
      var rest, last := s[..|s| - 1], s[|s| - 1];
      assert s == rest + [last];
      ElementsCount(rest, elements - {last});
    }
  }

  lemma IndexAccepted(p: Plan, h: Hashes)
    ensures IndexLoads(OfIndex(IndexOf(p)), MaterialOf(p, h).vector, h)
  {
  }

  lemma RuntimeAccepted(p: Plan, h: Hashes)
    ensures RuntimeAgrees(CatalogOf(p, h), MaterialOf(p, h))
  {
  }

  lemma MembershipAccepted(p: Plan, h: Hashes)
    ensures MembershipAgrees(CatalogOf(p, h), ManifestOf(p, h), IndexOf(p), h)
  {
    MappingReads(SnapshotId(p, h), p.chunks);
  }

  lemma CountsAccepted(p: Plan, h: Hashes)
    ensures CountsAgree(CatalogOf(p, h), ManifestOf(p, h), IndexOf(p))
  {
    ElementsCount(p.chunks, p.chunkParents.Keys);
    assert |p.chunkParents.Keys| == |p.chunkParents|;
    var ids := ReportIds(p.reports);
    assert |ids.Keys| == |ids|;
    var rows := ParentRows(p.parents, ids);
    assert |rows.Keys| == |rows| && |p.parents.Keys| == |p.parents|;
  }

  lemma KeysAccepted(p: Plan, h: Hashes)
    ensures ForeignKeysHold(CatalogOf(p, h))
  {
    var c := CatalogOf(p, h);
    forall u | u in c.parents ensures c.parents[u] in c.reports.Values {
      assert p.parents[u] in c.reports;
    }
  }

  /** The manifest is in order and matches the files. */
  predicate FilesMatch(m: Manifest, c: CatalogFile, index: IndexFile, contract: string, h: Hashes) {
    && m.material.contract == contract && m.material.schema == MANIFEST_SCHEMA_VERSION
    && m.lifecycle == "READY" && h.isRevision(m.revision)
    && h.identity(OfCatalog(c)) == m.material.catalog && h.identity(OfIndex(index)) == m.material.index
    && h.revision(m.material) == m.revision
  }

  lemma AllChecksPass(d: Directory, m: Manifest, c: CatalogFile, index: IndexFile, contract: string, h: Hashes)
    requires d == Directory(Some(OfIndex(index)), Some(OfCatalog(c)), Some(m)) && FilesMatch(m, c, index, contract, h)
    requires IndexLoads(OfIndex(index), m.material.vector, h) && ForeignKeysHold(c)
    requires RuntimeAgrees(c, m.material) && MembershipAgrees(c, m, index, h) && CountsAgree(c, m, index)
    ensures Open(d, contract, h) == Opened(m.revision, Chunks(m.mapping), index)
  {
  }

  lemma FilesAccepted(p: Plan, h: Hashes)
    requires Sound(h)
    ensures FilesMatch(ManifestOf(p, h), CatalogOf(p, h), IndexOf(p), p.origin.contract, h)
  {
  }

  /** Every check of the opener accepts what the builder wrote. */
  lemma BuilderIsAccepted(p: Plan, h: Hashes)
    requires Sound(h)
    ensures Open(Built(p, h), p.origin.contract, h) == Opened(h.revision(MaterialOf(p, h)), p.chunks, IndexOf(p))
  {
    MappingReads(SnapshotId(p, h), p.chunks);
    FilesAccepted(p, h);
    IndexAccepted(p, h);
    RuntimeAccepted(p, h);
    KeysAccepted(p, h);
    MembershipAccepted(p, h);
    CountsAccepted(p, h);
    AllChecksPass(Built(p, h), ManifestOf(p, h), CatalogOf(p, h), IndexOf(p), p.origin.contract, h);
  }

  // ----- what the opener checks, all in one -----

  /** The manifest is of this version and contract, ready, and named and hashed as its files are. */
  predicate ManifestChecks(m: Manifest, catalog: Content, index: Content, contract: string, h: Hashes) {
    && m.material.schema == 2 && m.material.contract == contract
    && m.lifecycle == "READY" && h.isRevision(m.revision) && m.revision == h.revision(m.material)
    && m.material.catalog == h.identity(catalog) && m.material.index == h.identity(index)
  }

  /** The index has the ids 1 to N, and the file, metric, dimension and count the manifest says. */
  predicate IndexChecks(v: Descriptor, x: IndexFile, h: Hashes) {
    && v == Descriptor(h.identity(OfIndex(x)), x.dimension, x.metric, |x.ids|)
    && forall i :: 0 <= i < |x.ids| ==> x.ids[i] == i + 1
  }

  /** The active build and snapshot of the catalog are the manifest's, ready, with the same index. */
  predicate RuntimeChecks(c: CatalogFile, m: Material) {
    && c.activeSnapshot == m.snapshot && c.activeBuild == m.build && m.snapshot in c.snapshots
    && var row := c.snapshots[m.snapshot];
      row.state == "ready" && row.path == "subset.faiss" && row.descriptor == m.vector
  }

  /** Every row of the catalog refers to rows that exist. */
  predicate KeyChecks(c: CatalogFile) {
    && c.activeSnapshot in c.snapshots
    && (forall u :: u in c.parents ==> exists r :: r in c.reports && c.reports[r] == c.parents[u])
    && (forall u :: u in c.chunks ==> c.chunks[u] in c.parents)
    && (forall i :: 0 <= i < |c.members| ==> c.members[i].snapshot in c.snapshots && c.members[i].chunk in c.chunks)
  }

  /** The mapping is the membership in order of its ids, which are the index's, and the numbers of rows are as said. */
  predicate RowChecks(c: CatalogFile, m: Manifest, x: IndexFile, h: Hashes) {
    && m.mapping == SortPairs(RowsOf(c.members, m.material.snapshot))
    && m.material.mappingDigest == h.mapping(m.mapping)
    && |m.mapping| == |x.ids| && (forall i :: 0 <= i < |x.ids| ==> m.mapping[i].id == x.ids[i])
    && m.material.reports == SortUids(c.reports.Keys)
    && m.counts.reports == |c.reports| && m.counts.parents == |c.parents| && m.counts.chunks == |c.chunks| == |x.ids|
  }

  lemma IndexChecked(content: Content, d: Descriptor, h: Hashes)
    requires content.OfIndex?
    ensures IndexLoads(content, d, h) <==> IndexChecks(d, content.index, h)
  {
    var ids := content.index.ids;
    assert ids == UpTo(|ids|) <==> forall i :: 0 <= i < |ids| ==> ids[i] == i + 1;
  }

  lemma KeysChecked(c: CatalogFile)
    ensures ForeignKeysHold(c) <==> KeyChecks(c)
  {
    assert forall u :: u in c.parents ==>
      (c.parents[u] in c.reports.Values <==> exists r :: r in c.reports && c.reports[r] == c.parents[u]);
  }

  lemma RowsChecked(c: CatalogFile, m: Manifest, x: IndexFile, h: Hashes)
    ensures MembershipAgrees(c, m, x, h) && CountsAgree(c, m, x) <==> RowChecks(c, m, x, h)
  {
    var ids := Ids(m.mapping);
    assert ids == x.ids <==> |ids| == |x.ids| && forall i :: 0 <= i < |x.ids| ==> ids[i] == x.ids[i];
  }

  /** A directory opens exactly if all of its files are there and every check passes. */
  lemma OpensIff(d: Directory, contract: string, h: Hashes)
    ensures Open(d, contract, h).Opened? <==>
      && d.manifest.Some? && d.catalog.Some? && d.index.Some?
      && d.catalog.value.OfCatalog? && d.index.value.OfIndex?
      && var m, c, x := d.manifest.value, d.catalog.value.catalog, d.index.value.index;
        && ManifestChecks(m, d.catalog.value, d.index.value, contract, h) && IndexChecks(m.material.vector, x, h)
        && KeyChecks(c) && RuntimeChecks(c, m.material) && RowChecks(c, m, x, h)
  {
    if d.manifest.Some? && d.catalog.Some? && d.index.Some? && d.catalog.value.OfCatalog? && d.index.value.OfIndex? {
      var m, c, x := d.manifest.value, d.catalog.value.catalog, d.index.value.index;
      IndexChecked(d.index.value, m.material.vector, h);
      KeysChecked(c);
      RowsChecked(c, m, x, h);
    }
  }

  /** What an opened directory is known to hold. */
  lemma OpenedMeans(d: Directory, contract: string, h: Hashes)
    requires Open(d, contract, h).Opened?
    ensures d.manifest.Some? && d.catalog.Some? && d.index.Some?
    ensures var m := d.manifest.value;
      && m.material.contract == contract && m.lifecycle == "READY"
      && m.revision == Open(d, contract, h).revision == h.revision(m.material)
      && m.material.catalog == h.identity(d.catalog.value) && m.material.index == h.identity(d.index.value)
      && d.catalog.value.OfCatalog? && d.index.value.OfIndex?
      && MembershipAgrees(d.catalog.value.catalog, m, d.index.value.index, h)
      && CountsAgree(d.catalog.value.catalog, m, d.index.value.index)
  {
  }

  /** Two directories that open with the same revision are the same, down to the last file. */
  lemma SameRevisionSameDirectory(a: Directory, b: Directory, contract: string, other: string, h: Hashes)
    requires Sound(h) && Open(a, contract, h).Opened? && Open(b, other, h).Opened?
    requires Open(a, contract, h).revision == Open(b, other, h).revision
    ensures a == b && contract == other
  {
    OpenedMeans(a, contract, h);
    OpenedMeans(b, other, h);
    var m, n := a.manifest.value, b.manifest.value;
    assert h.revision(m.material) == h.revision(n.material);
    assert m.material == n.material;
    assert h.identity(a.catalog.value) == h.identity(b.catalog.value) &&
      h.identity(a.index.value) == h.identity(b.index.value);
    assert a.catalog == b.catalog && a.index == b.index;
    assert m.mapping == n.mapping && m.counts == n.counts;
  }
}
