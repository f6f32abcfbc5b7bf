/** Projecting the chunks of selected reports out of several vector indexes into one. */
module SnapshotProjection {
  import opened Seqs
  import opened Text

  /** A vector by the bit patterns of its components. */
  type Vector = seq<int>

  datatype Result<T> = Ok(value: T) | Err

  // ----- vector indexes -----

  /** An index from ids to vectors. */
  type Index = map<int, Vector>

  /** The ids are 1 to N, as every index is checked to have on loading. */
  ghost predicate Dense(index: Index) { forall id :: id in index <==> 1 <= id <= |index| }

  /** `RawVectorIndex.reconstruct` refuses repeated ids and ids outside the index. */
  predicate Retrievable(index: Index, ids: seq<int>) {
    Distinct(ids) && forall i :: 0 <= i < |ids| ==> ids[i] in index
  }

  function VectorsOf(index: Index, ids: seq<int>): (r: seq<Vector>)
    requires forall i :: 0 <= i < |ids| ==> ids[i] in index
    ensures |r| == |ids| && forall i :: 0 <= i < |ids| ==> r[i] == index[ids[i]]
  {
    seq(|ids|, i requires 0 <= i < |ids| => index[ids[i]])
  }

  function Reconstruct(index: Index, ids: seq<int>): Result<seq<Vector>> {
    if Retrievable(index, ids) then Ok(VectorsOf(index, ids)) else Err
  }

  /** `build_index` with the ids 1 to N */
  function Numbered(vectors: seq<Vector>): (index: Index)
    ensures Dense(index) && |index| == |vectors|
    ensures forall i :: 0 <= i < |vectors| ==> i + 1 in index && index[i + 1] == vectors[i]
  {
    if vectors == [] then map[]
    else
      var n := |vectors|;
      var rest := Numbered(vectors[..n - 1]);
      CountNext(rest, n, vectors[n - 1]);
      rest[n := vectors[n - 1]]
  }

  lemma CountNext(index: Index, id: int, v: Vector)
    requires id !in index
    ensures |index[id := v]| == |index| + 1
  {
    assert index[id := v].Keys == index.Keys + {id};
    assert |index[id := v].Keys| == |index[id := v]| && |index.Keys| == |index|;
  }

  // ----- reconstructing a selection -----

  datatype Chunk = Chunk(uid: string, artifact: string, sourceId: int)

  function ArtifactsOf(chunks: seq<Chunk>): set<string> { set c | c in chunks :: c.artifact }

  /** The source ids of one artifact's chunks, in the order of the selection. */
  function IdsIn(chunks: seq<Chunk>, artifact: string): seq<int> {
    if chunks == [] then []
    else (if chunks[0].artifact == artifact then [chunks[0].sourceId] else []) + IdsIn(chunks[1..], artifact)
  }

  /** What the code needs to get a vector for every chunk. */
  predicate Projectable(chunks: seq<Chunk>, sources: map<string, Index>) {
    && chunks != []
    && ArtifactsOf(chunks) == sources.Keys
    && forall a :: a in sources ==> Retrievable(sources[a], IdsIn(chunks, a))
  }

  /** The vector the source has for a chunk. */
  function SourceVector(c: Chunk, sources: map<string, Index>): Vector
    requires c.artifact in sources && c.sourceId in sources[c.artifact]
  {
    sources[c.artifact][c.sourceId]
  }

  lemma {:induction false} IdsInMeans(chunks: seq<Chunk>, artifact: string)
    ensures forall id :: id in IdsIn(chunks, artifact) <==>
      exists c :: c in chunks && c.artifact == artifact && c.sourceId == id
  {
    if chunks != [] {
      IdsInMeans(chunks[1..], artifact);
      assert forall c :: c in chunks <==> c == chunks[0] || c in chunks[1..];
    }
  }

  predicate HasSource(c: Chunk, sources: map<string, Index>) {
    c.artifact in sources && c.sourceId in sources[c.artifact]
  }

  lemma ProjectableHasSources(chunks: seq<Chunk>, sources: map<string, Index>)
    requires Projectable(chunks, sources)
    ensures forall c :: c in chunks ==> HasSource(c, sources)
  {
    forall c | c in chunks ensures HasSource(c, sources) {
      assert c.artifact in ArtifactsOf(chunks);
      IdsInMeans(chunks, c.artifact);
      assert c.sourceId in IdsIn(chunks, c.artifact);
    }
  }

  /** `vectors_by_source`: what has been fetched, by artifact and source id. */
  ghost predicate Fetched(
    table: map<(string, int), Vector>, done: set<string>, chunks: seq<Chunk>, sources: map<string, Index>)
  {
    && (forall k :: k in table ==> k.0 in sources && k.1 in sources[k.0] && table[k] == sources[k.0][k.1])
    && (forall c :: c in chunks && c.artifact in done ==> (c.artifact, c.sourceId) in table)
  }

  /** The table gains the vectors of some ids of one artifact. */
  ghost predicate Filled(
    table: map<(string, int), Vector>, after: map<(string, int), Vector>, artifact: string, ids: seq<int>, index: Index)
  {
    && (forall k :: k in table || (k.0 == artifact && k.1 in ids) ==> k in after)
    && forall k :: k in after ==>
      if k.0 == artifact && k.1 in ids then k.1 in index && after[k] == index[k.1]
      else k in table && after[k] == table[k]
  }

  method FetchArtifact(table: map<(string, int), Vector>, artifact: string, ids: seq<int>, index: Index)
    returns (r: Result<map<(string, int), Vector>>)
    ensures r.Ok? <==> Retrievable(index, ids)
    ensures r.Ok? ==> Filled(table, r.value, artifact, ids, index)
  {
    var reconstructed := Reconstruct(index, ids);
    if reconstructed.Err? {
      return Err;
    }
    var filled := table;
    for position := 0 to |ids|
      invariant Filled(table, filled, artifact, ids[..position], index)
    {
      assert ids[..position + 1] == ids[..position] + [ids[position]];
      filled := filled[(artifact, ids[position]) := reconstructed.value[position]];
    }
    assert ids[..|ids|] == ids;
    r := Ok(filled);
  }

  /** `_reconstruct_selection_vectors`: fetched artifact by artifact, returned in the order of the chunks. */
  method ReconstructSelection(chunks: seq<Chunk>, sources: map<string, Index>) returns (r: Result<seq<Vector>>)
    ensures r.Ok? <==> Projectable(chunks, sources)
    ensures r.Ok? ==> |r.value| == |chunks|
    ensures r.Ok? ==> forall i :: 0 <= i < |chunks| ==>
      HasSource(chunks[i], sources) && r.value[i] == SourceVector(chunks[i], sources)
  {
    if ArtifactsOf(chunks) != sources.Keys {
      return Err;
    }
    var table: map<(string, int), Vector> := map[];
    var todo := sources.Keys;
    while todo != {}
      invariant todo <= sources.Keys
      invariant Fetched(table, sources.Keys - todo, chunks, sources)
      invariant forall a :: a in sources.Keys - todo ==> Retrievable(sources[a], IdsIn(chunks, a))
      decreases todo
    {
      var artifact :| artifact in todo;
      var ids := IdsIn(chunks, artifact);
      var fetched := FetchArtifact(table, artifact, ids, sources[artifact]);
      if fetched.Err? {
        return Err;
      }
      FetchedMore(table, fetched.value, sources.Keys - todo, artifact, chunks, sources);
      table := fetched.value;
      todo := todo - {artifact};
      assert sources.Keys - (todo + {artifact}) + {artifact} == sources.Keys - todo;
    }
    if chunks == [] {
      return Err;
    }
    assert sources.Keys - {} == sources.Keys;
    ProjectableHasSources(chunks, sources);
    forall c | c in chunks ensures (c.artifact, c.sourceId) in table {
      assert c.artifact in ArtifactsOf(chunks);
    }
    var ordered := seq(|chunks|, i requires 0 <= i < |chunks| => table[(chunks[i].artifact, chunks[i].sourceId)]);
    r := Ok(ordered);
  }

  lemma FetchedMore(
    table: map<(string, int), Vector>, after: map<(string, int), Vector>, done: set<string>, artifact: string,
    chunks: seq<Chunk>, sources: map<string, Index>)
    requires Fetched(table, done, chunks, sources) && artifact in sources
    requires Retrievable(sources[artifact], IdsIn(chunks, artifact))
    requires Filled(table, after, artifact, IdsIn(chunks, artifact), sources[artifact])
    ensures Fetched(after, done + {artifact}, chunks, sources)
  {
    IdsInMeans(chunks, artifact);
    forall c | c in chunks && c.artifact in done + {artifact} ensures (c.artifact, c.sourceId) in after {
      assert c.artifact == artifact ==> c.sourceId in IdsIn(chunks, artifact);
    }
  }

  // ----- reading a selection from the catalog -----

  /** Where the active membership has a chunk's vector: an artifact and the id in its index. */
  datatype Member = Member(artifact: string, sourceId: int)

  /** The effective membership, the rows that lead from chunks over their parents to reports, and the active reports. */
  datatype Catalog = Catalog(
    members: map<string, Member>, parentOf: map<string, string>, reportIdOf: map<string, int>, uidOf: map<int, string>,
    active: set<string>)

  datatype Request = ByReports(reports: set<string>) | ByChunks(chunks: set<string>)

  datatype Selection = Selection(reports: set<string>, chunks: seq<Chunk>)

  predicate Ascending(uids: seq<string>) { forall i, j :: 0 <= i < j < |uids| ==> StringLess(uids[i], uids[j]) }

  predicate IsLeast(s: set<string>, least: string) {
    least in s && forall u :: u in s && u != least ==> StringLess(least, u)
  }

  lemma LessIsTransitive(a: string, b: string, c: string)
    requires StringLess(a, b) && StringLess(b, c)
    ensures StringLess(a, c)
  {
    StringOrder(a, b, c);
    StringOrder(a, c, "");
    StringOrder(b, c, "");
  }

  lemma {:induction false} LeastOf(s: set<string>) returns (least: string)
    requires s != {}
    ensures IsLeast(s, least)
    decreases |s|
  {
    var x :| x in s;
    var rest := s - {x};
    assert forall u :: u in s ==> u == x || u in rest;
    if rest == {} {
      return x;
    }
    var y := LeastOf(rest);
    StringOrder(x, y, "");
    if StringLess(y, x) {
      return y;
    }
    least := x;
    forall u | u in s && u != x ensures StringLess(x, u) {
      if u != y {
        LessIsTransitive(x, y, u);
      }
    }
  }

  /** `ORDER BY chunk_uid` */
  function SortUids(s: set<string>): (uids: seq<string>)
    ensures Ascending(uids) && forall u :: u in uids <==> u in s
    decreases |s|
  {
    if s == {} then []
    else
      assert exists least :: IsLeast(s, least) by {
        var least := LeastOf(s);
        assert IsLeast(s, least);
      }
      OnlyLeast(s);
      var least :| IsLeast(s, least);
      var rest := SortUids(s - {least});
      AscendingCons(least, rest);
      [least] + rest
  }

  lemma AscendingCons(u: string, uids: seq<string>)
    requires Ascending(uids) && forall v :: v in uids ==> StringLess(u, v)
    ensures Ascending([u] + uids)
  {
  }

  lemma OnlyLeast(s: set<string>)
    ensures forall a, b :: IsLeast(s, a) && IsLeast(s, b) ==> a == b
  {
    forall a, b | IsLeast(s, a) && IsLeast(s, b) ensures a == b {
      StringOrder(a, b, "");
    }
  }

  /** The joins from a chunk to its report find a row. */
  predicate Joined(cat: Catalog, uid: string) {
    uid in cat.parentOf && cat.parentOf[uid] in cat.reportIdOf && cat.reportIdOf[cat.parentOf[uid]] in cat.uidOf
  }

  function ReportOf(cat: Catalog, uid: string): string
    requires Joined(cat, uid)
  {
    cat.uidOf[cat.reportIdOf[cat.parentOf[uid]]]
  }

  predicate OfReports(cat: Catalog, uid: string, reports: set<string>) {
    uid in cat.members && Joined(cat, uid) && ReportOf(cat, uid) in reports
  }

  function ReportsOf(cat: Catalog, chunks: set<string>): set<string> {
    set uid | uid in chunks && uid in cat.members && Joined(cat, uid) :: ReportOf(cat, uid)
  }

  /** The reports a request selects; a chunk stands for its whole report. */
  function SelectedReports(cat: Catalog, request: Request): Result<set<string>> {
    match request
    case ByReports(reports) => if reports <= cat.active then Ok(reports) else Err
    case ByChunks(chunks) => if chunks <= cat.members.Keys then Ok(ReportsOf(cat, chunks)) else Err
  }

  function ChunkUids(cat: Catalog, reports: set<string>): (uids: set<string>)
    ensures forall u :: u in uids <==> OfReports(cat, u, reports)
  {
    set u | u in cat.members && OfReports(cat, u, reports)
  }

  function Rows(cat: Catalog, uids: seq<string>): (chunks: seq<Chunk>)
    requires forall u :: u in uids ==> u in cat.members
    ensures |chunks| == |uids|
    ensures forall i :: 0 <= i < |uids| ==>
      chunks[i] == Chunk(uids[i], cat.members[uids[i]].artifact, cat.members[uids[i]].sourceId)
  {
    if uids == [] then []
    else [Chunk(uids[0], cat.members[uids[0]].artifact, cat.members[uids[0]].sourceId)] + Rows(cat, uids[1..])
  }

  /** `_read_projection_selection` */
  function ReadSelection(cat: Catalog, request: Request): Result<Selection> {
    match SelectedReports(cat, request)
    case Err => Err
    case Ok(reports) =>
      var uids := ChunkUids(cat, reports);
      if uids == {} || ReportsOf(cat, uids) != reports then Err
      else Ok(Selection(reports, Rows(cat, SortUids(uids))))
  }

  function UidsOf(chunks: seq<Chunk>): (uids: seq<string>)
    ensures |uids| == |chunks| && forall i :: 0 <= i < |chunks| ==> uids[i] == chunks[i].uid
  {
    if chunks == [] then [] else [chunks[0].uid] + UidsOf(chunks[1..])
  }

  lemma {:induction false} UidsOfRows(cat: Catalog, uids: seq<string>)
    requires forall u :: u in uids ==> u in cat.members
    ensures UidsOf(Rows(cat, uids)) == uids
  {
  }

  lemma ReportsHaveChunks(cat: Catalog, chunks: set<string>, report: string)
    requires report in ReportsOf(cat, chunks)
    ensures exists u :: u in chunks && Joined(cat, u) && ReportOf(cat, u) == report
  {
  }

  lemma ChunksOfReports(cat: Catalog, chunks: set<string>, u: string)
    requires u in chunks && chunks <= cat.members.Keys && Joined(cat, u)
    ensures OfReports(cat, u, ReportsOf(cat, chunks))
  {
  }

  /** A selection holds all chunks of its reports, in order of their uids, and nothing else. */
  lemma SelectionIsWhole(cat: Catalog, request: Request)
    requires ReadSelection(cat, request).Ok?
    ensures var s := ReadSelection(cat, request).value;
      && Ascending(UidsOf(s.chunks))
      && (forall u :: u in UidsOf(s.chunks) <==> OfReports(cat, u, s.reports))
      && (forall r :: r in s.reports ==> exists u :: u in UidsOf(s.chunks) && Joined(cat, u) && ReportOf(cat, u) == r)
      && (request.ByReports? ==> s.reports == request.reports)
      && (request.ByChunks? ==> forall u :: u in request.chunks && Joined(cat, u) ==> u in UidsOf(s.chunks))
  {
    var s := ReadSelection(cat, request).value;
    var uids := ChunkUids(cat, s.reports);
    UidsOfRows(cat, SortUids(uids));
    assert UidsOf(s.chunks) == SortUids(uids);
    forall r | r in s.reports ensures exists u :: u in UidsOf(s.chunks) && Joined(cat, u) && ReportOf(cat, u) == r {
      ReportsHaveChunks(cat, uids, r);
    }
    if request.ByChunks? {
      forall u | u in request.chunks && Joined(cat, u) ensures u in UidsOf(s.chunks) {
        ChunksOfReports(cat, request.chunks, u);
      }
    }
  }

  /** The report of a chunk, over its parent and the report id. */
  predicate LeadsTo(cat: Catalog, chunk: string, report: string) {
    && chunk in cat.members && chunk in cat.parentOf && cat.parentOf[chunk] in cat.reportIdOf
    && cat.reportIdOf[cat.parentOf[chunk]] in cat.uidOf
    && cat.uidOf[cat.reportIdOf[cat.parentOf[chunk]]] == report
  }

  /** Every report has a chunk in the membership. */
  ghost predicate AllHaveChunks(cat: Catalog, reports: set<string>) {
    forall r :: r in reports ==> exists c :: LeadsTo(cat, c, r)
  }

  lemma ReadsIff(cat: Catalog, request: Request, reports: set<string>)
    requires SelectedReports(cat, request) == Ok(reports)
    ensures ReadSelection(cat, request).Ok? <==> reports != {} && AllHaveChunks(cat, reports)
  {
    var uids := ChunkUids(cat, reports);
    forall c, r | LeadsTo(cat, c, r) && r in reports ensures c in uids && r in ReportsOf(cat, uids) {
      assert OfReports(cat, c, reports);
    }
    forall r | r in ReportsOf(cat, uids) ensures r in reports && exists c :: LeadsTo(cat, c, r) {
      ReportsHaveChunks(cat, uids, r);
      var c :| c in uids && Joined(cat, c) && ReportOf(cat, c) == r;
      assert LeadsTo(cat, c, r);
    }
    if uids != {} {
      var c :| c in uids;
      assert ReportOf(cat, c) in reports;
    }
    if reports != {} && AllHaveChunks(cat, reports) {
      var r :| r in reports;
      var c :| LeadsTo(cat, c, r);
      assert c in uids;
      assert ReportsOf(cat, uids) == reports;
    }
  }

  /** Reports can be selected exactly if there are some, all of them are active and each has a chunk. */
  lemma SelectsReports(cat: Catalog, reports: set<string>)
    ensures ReadSelection(cat, ByReports(reports)).Ok? <==>
      reports != {} && (forall r :: r in reports ==> r in cat.active) && AllHaveChunks(cat, reports)
  {
    if forall r :: r in reports ==> r in cat.active {
      ReadsIff(cat, ByReports(reports), reports);
    }
  }

  /** Chunks can be selected exactly if all of them are members and one of them leads to a report. */
  lemma SelectsChunks(cat: Catalog, chunks: set<string>)
    ensures ReadSelection(cat, ByChunks(chunks)).Ok? <==>
      (forall c :: c in chunks ==> c in cat.members) && exists c, r :: c in chunks && LeadsTo(cat, c, r)
  {
    if forall c :: c in chunks ==> c in cat.members {
      var reports := ReportsOf(cat, chunks);
      ReadsIff(cat, ByChunks(chunks), reports);
      forall r | r in reports ensures exists c :: c in chunks && LeadsTo(cat, c, r) {
        var c :| c in chunks && c in cat.members && Joined(cat, c) && ReportOf(cat, c) == r;
        assert LeadsTo(cat, c, r);
      }
      forall c, r | c in chunks && LeadsTo(cat, c, r) ensures r in reports {
        assert Joined(cat, c) && ReportOf(cat, c) == r;
      }
    }
  }

  /** Starting from chunks selects what starting from their reports selects, where those are active. */
  lemma ChunksWidenToReports(cat: Catalog, chunks: set<string>)
    requires chunks <= cat.members.Keys && ReportsOf(cat, chunks) <= cat.active
    ensures ReadSelection(cat, ByChunks(chunks)) == ReadSelection(cat, ByReports(ReportsOf(cat, chunks)))
  {
  }

  // ----- the projected snapshot -----

  /** `snapshot_membership` and `subset.faiss` of the projected snapshot */
  datatype Projected = Projected(membership: map<string, int>, index: Index)

  function NumberUids(uids: seq<string>): (m: map<string, int>)
    requires Distinct(uids)
    ensures forall i :: 0 <= i < |uids| ==> uids[i] in m && m[uids[i]] == i + 1
    ensures forall u :: u in m ==> u in uids
  {
    if uids == [] then map[]
    else
      var rest, last := uids[..|uids| - 1], uids[|uids| - 1];
      assert uids == rest + [last];
      NumberUids(rest)[last := |uids|]
  }

  function Membership(chunks: seq<Chunk>): (m: map<string, int>)
    requires Distinct(UidsOf(chunks))
    ensures Renumbered(chunks, m)
  {
    NumberUids(UidsOf(chunks))
  }

  /** Every selected chunk has its own id, and the ids are 1 to N. */
  predicate Renumbered(chunks: seq<Chunk>, m: map<string, int>) {
    && (forall i :: 0 <= i < |chunks| ==> chunks[i].uid in m && m[chunks[i].uid] == i + 1)
    && (forall u :: u in m ==> u in UidsOf(chunks))
  }

  lemma AscendingIsDistinct(uids: seq<string>)
    requires Ascending(uids)
    ensures Distinct(uids)
  {
    forall i, j | 0 <= i < j < |uids| ensures uids[i] != uids[j] {
      StringOrder(uids[i], uids[j], "");
    }
  }

  /** The index holds, under the ids 1 to N, the source vectors of the chunks. */
  ghost predicate HoldsVectors(chunks: seq<Chunk>, sources: map<string, Index>, index: Index) {
    && Dense(index) && |index| == |chunks|
    && forall i :: 0 <= i < |chunks| ==>
      i + 1 in index && HasSource(chunks[i], sources) && index[i + 1] == SourceVector(chunks[i], sources)
  }

  method ProjectChunks(chunks: seq<Chunk>, sources: map<string, Index>) returns (r: Result<Projected>)
    requires Distinct(UidsOf(chunks))
    ensures r.Ok? <==> Projectable(chunks, sources)
    ensures r.Ok? ==> Renumbered(chunks, r.value.membership) && HoldsVectors(chunks, sources, r.value.index)
  {
    var vectors := ReconstructSelection(chunks, sources);
    if vectors.Err? {
      return Err;
    }
    VectorsAreHeld(chunks, sources, vectors.value);
    var p := Projected(Membership(chunks), Numbered(vectors.value));
    r := Ok(p);
  }

  lemma VectorsAreHeld(chunks: seq<Chunk>, sources: map<string, Index>, vectors: seq<Vector>)
    requires |vectors| == |chunks|
    requires forall i :: 0 <= i < |chunks| ==>
      HasSource(chunks[i], sources) && vectors[i] == SourceVector(chunks[i], sources)
    ensures HoldsVectors(chunks, sources, Numbered(vectors))
  {
  }

  /** The part of `create_fixed_snapshot` that makes the projected membership and index. */
  method Project(cat: Catalog, sources: map<string, Index>, request: Request) returns (r: Result<Projected>)
    ensures r.Ok? <==> ReadSelection(cat, request).Ok? && Projectable(ReadSelection(cat, request).value.chunks, sources)
    ensures r.Ok? ==> Renumbered(ReadSelection(cat, request).value.chunks, r.value.membership)
    ensures r.Ok? ==> Dense(r.value.index) && |r.value.index| == |ReadSelection(cat, request).value.chunks|
    ensures r.Ok? ==> SameMeaning(cat, sources, r.value)
  {
    var selection := ReadSelection(cat, request);
    if selection.Err? {
      return Err;
    }
    var chunks := selection.value.chunks;
    SelectionIsDistinct(cat, request);
    r := ProjectChunks(chunks, sources);
    if r.Ok? {
      ProjectionPreservesMeaning(cat, sources, request, r.value);
    }
  }

  lemma SelectionIsDistinct(cat: Catalog, request: Request)
    requires ReadSelection(cat, request).Ok?
    ensures Distinct(UidsOf(ReadSelection(cat, request).value.chunks))
  {
    SelectionIsWhole(cat, request);
    AscendingIsDistinct(UidsOf(ReadSelection(cat, request).value.chunks));
  }

  /** For every projected chunk: its projected id leads to the vector its source id leads to. */
  predicate SameMeaning(cat: Catalog, sources: map<string, Index>, p: Projected) {
    forall u :: u in p.membership ==>
      && u in cat.members
      && p.membership[u] in p.index
      && HasSource(Chunk(u, cat.members[u].artifact, cat.members[u].sourceId), sources)
      && p.index[p.membership[u]] == sources[cat.members[u].artifact][cat.members[u].sourceId]
  }

  lemma ProjectionPreservesMeaning(cat: Catalog, sources: map<string, Index>, request: Request, p: Projected)
    requires ReadSelection(cat, request).Ok?
    requires var chunks := ReadSelection(cat, request).value.chunks;
      Renumbered(chunks, p.membership) && HoldsVectors(chunks, sources, p.index)
    ensures SameMeaning(cat, sources, p)
  {
    var chunks := ReadSelection(cat, request).value.chunks;
    SelectionIsWhole(cat, request);
    forall u | u in p.membership
      ensures u in cat.members && p.membership[u] in p.index
      ensures HasSource(Chunk(u, cat.members[u].artifact, cat.members[u].sourceId), sources)
      ensures p.index[p.membership[u]] == sources[cat.members[u].artifact][cat.members[u].sourceId]
    {
      var i :| 0 <= i < |chunks| && UidsOf(chunks)[i] == u;
      RowIsTheMember(cat, request, i);
      assert chunks[i].uid == u;
    }
  }

  lemma RowIsTheMember(cat: Catalog, request: Request, i: nat)
    requires ReadSelection(cat, request).Ok? && i < |ReadSelection(cat, request).value.chunks|
    ensures var c := ReadSelection(cat, request).value.chunks[i];
      c.uid in cat.members && c == Chunk(c.uid, cat.members[c.uid].artifact, cat.members[c.uid].sourceId)
  {
    var s := ReadSelection(cat, request).value;
    var uids := SortUids(ChunkUids(cat, s.reports));
    assert s.chunks == Rows(cat, uids) && uids[i] in uids;
  }
}
