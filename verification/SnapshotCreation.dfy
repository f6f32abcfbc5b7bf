/** Creating a fixed snapshot from the source catalog and indexes: what the published index holds. */
module SnapshotCreation {
  import opened Seqs
  import opened SnapshotProjection
  import opened SnapshotManifest
  import opened SnapshotPublication

  predicate AllJoined(cat: Catalog, uids: seq<string>) { forall u :: u in uids ==> Joined(cat, u) }

  function ChunkParents(cat: Catalog, uids: seq<string>): map<string, string>
    requires AllJoined(cat, uids)
  {
    map u | u in uids :: cat.parentOf[u]
  }

  /** The parents of the chunks, each with the uid of its report. */
  function ParentReports(cat: Catalog, uids: seq<string>): (parents: map<string, string>)
    requires AllJoined(cat, uids)
    ensures forall u :: u in uids ==> cat.parentOf[u] in parents && parents[cat.parentOf[u]] == ReportOf(cat, u)
    ensures forall p :: p in parents ==> exists u :: u in uids && cat.parentOf[u] == p && parents[p] == ReportOf(cat, u)
  {
    var ps := set u | u in uids :: cat.parentOf[u];
    map p | p in ps :: cat.uidOf[cat.reportIdOf[p]]
  }

  /** The vectors are those the sources hold for the chunks. */
  predicate SourceVectors(vectors: seq<Vector>, chunks: seq<Chunk>, sources: map<string, Index>) {
    |vectors| == |chunks|
    && forall i :: 0 <= i < |chunks| ==> HasSource(chunks[i], sources) && vectors[i] == SourceVector(chunks[i], sources)
  }

  /** The rows of a selection with their source vectors. */
  predicate IsPlanOf(p: Projection, origin: Origin, cat: Catalog, sources: map<string, Index>, s: Selection) {
    && AllJoined(cat, UidsOf(s.chunks))
    && p.origin == origin
    && p.reports == s.reports
    && p.chunks == UidsOf(s.chunks)
    && p.chunkParents == ChunkParents(cat, p.chunks)
    && p.parents == ParentReports(cat, p.chunks)
    && SourceVectors(p.vectors, s.chunks, sources)
  }

  lemma SelectionIsJoined(cat: Catalog, request: Request)
    requires ReadSelection(cat, request).Ok?
    ensures var s := ReadSelection(cat, request).value;
      && AllJoined(cat, UidsOf(s.chunks)) && Distinct(UidsOf(s.chunks))
      && forall u :: u in UidsOf(s.chunks) ==> ReportOf(cat, u) in s.reports
  {
    SelectionIsWhole(cat, request);
    SelectionIsDistinct(cat, request);
  }

  /** What a selection yields is something the builder can work with. */
  lemma PlanIsOk(p: Projection, origin: Origin, cat: Catalog, sources: map<string, Index>, request: Request)
    requires ReadSelection(cat, request).Ok? && IsPlanOf(p, origin, cat, sources, ReadSelection(cat, request).value)
    requires IsMatrix(p.vectors)
    ensures PlanOk(p)
  {
    SelectionIsJoined(cat, request);
  }

  lemma VectorsAreDetermined(v: seq<Vector>, w: seq<Vector>, chunks: seq<Chunk>, sources: map<string, Index>)
    requires SourceVectors(v, chunks, sources) && SourceVectors(w, chunks, sources)
    ensures v == w
  {
  }

  /** The plan is determined by the source and the selection. */
  lemma PlanIsDetermined(
    p: Projection, q: Projection, origin: Origin, cat: Catalog, sources: map<string, Index>, s: Selection)
    requires IsPlanOf(p, origin, cat, sources, s) && IsPlanOf(q, origin, cat, sources, s)
    ensures p == q
  {
    VectorsAreDetermined(p.vectors, q.vectors, s.chunks, sources);
  }

  /** Whether chunks are requested or the active reports they belong to, the same revision is published. */
  lemma ChunksAndReportsGiveOneRevision(
    p: Plan, q: Plan, origin: Origin, cat: Catalog, sources: map<string, Index>, chunks: set<string>, h: Hashes)
    requires chunks <= cat.members.Keys && ReportsOf(cat, chunks) <= cat.active
    requires ReadSelection(cat, ByChunks(chunks)).Ok? && ReadSelection(cat, ByReports(ReportsOf(cat, chunks))).Ok?
    requires IsPlanOf(p, origin, cat, sources, ReadSelection(cat, ByChunks(chunks)).value)
    requires IsPlanOf(q, origin, cat, sources, ReadSelection(cat, ByReports(ReportsOf(cat, chunks))).value)
    ensures RevisionOf(p, h) == RevisionOf(q, h)
  {
    ChunksWidenToReports(cat, chunks);
    PlanIsDetermined(p, q, origin, cat, sources, ReadSelection(cat, ByChunks(chunks)).value);
  }

  /** The checks of `build_index`: a matrix of finite components; `finite` tells of a bit pattern whether it is. */
  predicate Buildable(vectors: seq<Vector>, finite: int -> bool) {
    IsMatrix(vectors) && forall v, x :: v in vectors && x in v ==> finite(x)
  }

  /** The vectors of the chunks in the sources, in the order of the chunks. */
  function VectorsFrom(chunks: seq<Chunk>, sources: map<string, Index>): (vectors: seq<Vector>)
    ensures |vectors| == |chunks|
    ensures forall i :: 0 <= i < |chunks| && HasSource(chunks[i], sources) ==>
      vectors[i] == SourceVector(chunks[i], sources)
  {
    seq(|chunks|, i requires 0 <= i < |chunks| =>
      if HasSource(chunks[i], sources) then SourceVector(chunks[i], sources) else [])
  }

  lemma VectorsAreFrom(vectors: seq<Vector>, chunks: seq<Chunk>, sources: map<string, Index>)
    requires SourceVectors(vectors, chunks, sources)
    ensures vectors == VectorsFrom(chunks, sources)
  {
  }

  /** Every chunk has a vector in the sources, and together they can be built into an index. */
  predicate CanBuild(chunks: seq<Chunk>, sources: map<string, Index>, finite: int -> bool) {
    Projectable(chunks, sources) && Buildable(VectorsFrom(chunks, sources), finite)
  }

  method FetchMatrix(
    chunks: seq<Chunk>, sources: map<string, Index>, finite: int -> bool) returns (r: Result<seq<Vector>>)
    ensures r.Ok? <==> CanBuild(chunks, sources, finite)
    ensures r.Ok? ==> SourceVectors(r.value, chunks, sources) && IsMatrix(r.value)
  {
    r := ReconstructSelection(chunks, sources);
    if r.Ok? {
      VectorsAreFrom(r.value, chunks, sources);
      if !Buildable(r.value, finite) {
        r := Err;
      }
    }
  }

  function RowsOf(origin: Origin, cat: Catalog, s: Selection, vectors: seq<Vector>): Projection
    requires AllJoined(cat, UidsOf(s.chunks))
  {
    var uids := UidsOf(s.chunks);
    Projection(origin, s.reports, ParentReports(cat, uids), ChunkParents(cat, uids), uids, vectors)
  }

  /** The first part of `create_fixed_snapshot`: selection, vectors, their checks and the rows to be written. */
  method MakePlan(cat: Catalog, sources: map<string, Index>, request: Request, origin: Origin, finite: int -> bool)
    returns (r: Result<Plan>)
    ensures r.Ok? <==>
      ReadSelection(cat, request).Ok? && CanBuild(ReadSelection(cat, request).value.chunks, sources, finite)
    ensures r.Ok? ==> IsPlanOf(r.value, origin, cat, sources, ReadSelection(cat, request).value)
  {
    var selection := ReadSelection(cat, request);
    if selection.Err? {
      return Err;
    }
    var vectors := FetchMatrix(selection.value.chunks, sources, finite);
    if vectors.Err? {
      return Err;
    }
    SelectionIsJoined(cat, request);
    var projection := RowsOf(origin, cat, selection.value, vectors.value);
    PlanIsOk(projection, origin, cat, sources, request);
    var plan: Plan := projection;
    r := Ok(plan);
  }

  /** The id of every chunk leads, in the index, to the vector its source id leads to in the source. */
  ghost predicate LeadsToSource(chunks: seq<string>, index: IndexFile, cat: Catalog, sources: map<string, Index>) {
    && |chunks| == |index.ids| == |index.vectors|
    && forall i :: 0 <= i < |chunks| ==>
      && index.ids[i] == i + 1
      && chunks[i] in cat.members
      && HasSource(Chunk(chunks[i], cat.members[chunks[i]].artifact, cat.members[chunks[i]].sourceId), sources)
      && index.vectors[i] == sources[cat.members[chunks[i]].artifact][cat.members[chunks[i]].sourceId]
  }

  lemma PlanLeadsToSource(p: Plan, origin: Origin, cat: Catalog, sources: map<string, Index>, request: Request)
    requires ReadSelection(cat, request).Ok? && IsPlanOf(p, origin, cat, sources, ReadSelection(cat, request).value)
    ensures LeadsToSource(p.chunks, IndexOf(p), cat, sources)
  {
    var s := ReadSelection(cat, request).value;
    forall i | 0 <= i < |p.chunks|
      ensures p.chunks[i] in cat.members
      ensures s.chunks[i] == Chunk(p.chunks[i], cat.members[p.chunks[i]].artifact, cat.members[p.chunks[i]].sourceId)
    {
      RowIsTheMember(cat, request, i);
    }
  }

  /**
    From end to end: in every run, whatever a creator returns is an opened snapshot that holds exactly the
    chunks of the selected reports, and whose index gives for each the vector the source gives.
   */
  lemma SnapshotHoldsTheSource(steps: seq<Step>, w: World, c: nat, h: Hashes,
    origin: Origin, cat: Catalog, sources: map<string, Index>, request: Request)
    requires Sound(h) && IsRun(steps, w, h) && c in w.creators && w.creators[c].phase.Returned?
    requires ReadSelection(cat, request).Ok?
    requires IsPlanOf(w.creators[c].plan, origin, cat, sources, ReadSelection(cat, request).value)
    ensures var result := w.creators[c].phase.snapshot;
      && result.Opened?
      && LeadsToSource(result.chunks, result.index, cat, sources)
      && forall u :: u in result.chunks <==> OfReports(cat, u, ReadSelection(cat, request).value.reports)
  {
    EveryReturnIsOwn(steps, w, c, h);
    PlanLeadsToSource(w.creators[c].plan, origin, cat, sources, request);
    SelectionIsWhole(cat, request);
  }

  /** The same holds of a published directory of that revision, whoever published it. */
  lemma PublishedHoldsTheSource(steps: seq<Step>, w: World, p: Plan, h: Hashes,
    origin: Origin, cat: Catalog, sources: map<string, Index>, request: Request)
    requires Sound(h) && IsRun(steps, w, h) && RevisionOf(p, h) in w.published
    requires ReadSelection(cat, request).Ok? && IsPlanOf(p, origin, cat, sources, ReadSelection(cat, request).value)
    ensures var result := Open(w.published[RevisionOf(p, h)], origin.contract, h);
      result.Opened? && result.revision == RevisionOf(p, h) && LeadsToSource(result.chunks, result.index, cat, sources)
  {
    RunInv(steps, w, h);
    PublishedIsOwn(w, p, h);
    PlanLeadsToSource(p, origin, cat, sources, request);
  }

  lemma PlanKeepsTheRows(
    p: Plan, origin: Origin, cat: Catalog, sources: map<string, Index>, request: Request, chunk: string)
    requires ReadSelection(cat, request).Ok? && IsPlanOf(p, origin, cat, sources, ReadSelection(cat, request).value)
    requires chunk in UidsOf(ReadSelection(cat, request).value.chunks)
    ensures Joined(cat, chunk) && chunk in p.chunkParents && p.chunkParents[chunk] == cat.parentOf[chunk]
    ensures cat.parentOf[chunk] in p.parents && p.parents[cat.parentOf[chunk]] == ReportOf(cat, chunk)
  {
    SelectionIsJoined(cat, request);
  }

  /** In the published catalog every selected chunk leads to its own parent, and that to the chunk's report. */
  lemma PublishedKeepsTheRows(steps: seq<Step>, w: World, p: Plan, h: Hashes,
    origin: Origin, cat: Catalog, sources: map<string, Index>, request: Request, chunk: string)
    requires Sound(h) && IsRun(steps, w, h) && RevisionOf(p, h) in w.published
    requires ReadSelection(cat, request).Ok? && IsPlanOf(p, origin, cat, sources, ReadSelection(cat, request).value)
    requires chunk in UidsOf(ReadSelection(cat, request).value.chunks)
    ensures var d := w.published[RevisionOf(p, h)];
      && d.catalog.Some? && d.catalog.value.OfCatalog? && chunk in cat.parentOf && cat.parentOf[chunk] in cat.reportIdOf
      && var c, parent := d.catalog.value.catalog, cat.parentOf[chunk];
        && chunk in c.chunks && c.chunks[chunk] == parent && parent in c.parents
        && cat.reportIdOf[parent] in cat.uidOf && cat.uidOf[cat.reportIdOf[parent]] in c.reports
        && c.parents[parent] == c.reports[cat.uidOf[cat.reportIdOf[parent]]]
  {
    RunInv(steps, w, h);
    PublishedIsOwn(w, p, h);
    FilesHold(p, h);
    PlanKeepsTheRows(p, origin, cat, sources, request, chunk);
  }
}
