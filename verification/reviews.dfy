/**
 * What fetching one GeneReviews document and aggregating a gene's documents
 * compute, as functions of the cache store, the mapping and the network.
 *
 * The network is an oracle from NBK id to response: a parsed page, a
 * request failure (connection error or non-success status, which the
 * fetcher catches), or any other exception, which the fetcher does not catch
 * and which reaches the gene-level handler with its message.
 */
module Reviews {
  import opened Wrappers
  import opened Text
  import opened Seqs
  import opened Cache
  import opened Sections

  datatype Response = Page(doc: Document) | RequestFailed | Raised(message: string)

  /** The outcome of `fetch_genereview_content`: a record, `None`, or an exception passing through. */
  datatype Fetched = Found(record: Record) | NotFound | Crashed(message: string)

  datatype DiseaseEntry = DiseaseEntry(
    nbkId: string,
    diseaseName: string,
    clinicalCharacteristics: Option<string>,
    evaluationOfRelatives: Option<string>,
    geneticCounseling: Option<string>)

  datatype GeneResult = GeneResult(gene: string, diseases: seq<DiseaseEntry>, error: Option<string>)

  const ClinicalCharacteristics := "Clinical Characteristics"
  const EvaluationOfRelatives := "Evaluation of Relatives at Risk"
  const GeneticCounseling := "Genetic Counseling"

  /** The record built from a fetched page: disease name and the three section texts. */
  function DocumentRecord(doc: Document): (rec: Record)
    ensures rec.Keys == {"disease_name", "clinical_characteristics", "evaluation_of_relatives", "genetic_counseling"}
    ensures rec["disease_name"] == DiseaseName(doc)
    ensures rec["clinical_characteristics"] == SectionText(doc, ClinicalCharacteristics)
    ensures rec["evaluation_of_relatives"] == SectionText(doc, EvaluationOfRelatives)
    ensures rec["genetic_counseling"] == SectionText(doc, GeneticCounseling)
  {
    map[
      "disease_name" := DiseaseName(doc),
      "clinical_characteristics" := SectionText(doc, ClinicalCharacteristics),
      "evaluation_of_relatives" := SectionText(doc, EvaluationOfRelatives),
      "genetic_counseling" := SectionText(doc, GeneticCounseling)]
  }

  /** `dict.get(key)` on a record. */
  function Lookup(rec: Record, key: string): Option<string> {
    if key in rec then Some(rec[key]) else None
  }

  /** The disease entry for a fetched record; a missing name reads as "Unknown Disease". */
  function EntryOf(nbkId: string, rec: Record): DiseaseEntry {
    DiseaseEntry(
      nbkId,
      Lookup(rec, "disease_name").GetOr(UnknownDisease),
      Lookup(rec, "clinical_characteristics"),
      Lookup(rec, "evaluation_of_relatives"),
      Lookup(rec, "genetic_counseling"))
  }

  /** A fetch outcome together with the cache store after it. */
  datatype FetchStep = FetchStep(outcome: Fetched, store: Store)

  /**
   * `fetch_genereview_content`: a non-empty cached record under
   * `genereview_<id>` is returned as it is; otherwise the page is fetched, its
   * record built and stored, and returned. A request failure gives `None`.
   */
  function FetchContent(store: Store, nbkId: string, fetch: string -> Response): FetchStep {
    var cached := Get(store, ReviewKey(nbkId));
    if cached.Some? && cached.value != map[] then FetchStep(Found(cached.value), store)
    else
      match fetch(nbkId)
      case Page(doc) =>
        var rec := DocumentRecord(doc);
        FetchStep(Found(rec), Put(store, ReviewKey(nbkId), rec))
      case RequestFailed => FetchStep(NotFound, store)
      case Raised(msg) => FetchStep(Crashed(msg), store)
  }

  /** The entries gathered so far, the exception that stopped the loop (if any), and the store. */
  datatype Progress = Progress(diseases: seq<DiseaseEntry>, raised: Option<string>, store: Store)

  /** The fan-out over a gene's ids, in order: one entry per record found; an exception stops it. */
  function FetchAll(store: Store, ids: seq<string>, fetch: string -> Response): Progress
    decreases |ids|
  {
    if ids == [] then Progress([], None, store)
    else
      var p := FetchAll(store, ids[..|ids| - 1], fetch);
      if p.raised.Some? then p
      else
        var id := ids[|ids| - 1];
        var step := FetchContent(p.store, id, fetch);
        match step.outcome
        case Found(rec) => Progress(p.diseases + [EntryOf(id, rec)], None, step.store)
        case NotFound => Progress(p.diseases, None, step.store)
        case Crashed(msg) => Progress(p.diseases, Some(msg), step.store)
  }

  function NoEntriesMessage(gene: string): string {
    "No GeneReviews entries found for gene " + gene
  }

  function NoContentMessage(gene: string): string {
    "Failed to fetch any GeneReviews content for " + gene
  }

  /** The ids the mapping lists for an (upper-case) gene; none when it is not mapped. */
  function IdsForGene(geneToNbk: map<string, seq<string>>, gene: string): seq<string> {
    if gene in geneToNbk then geneToNbk[gene] else []
  }

  datatype GeneStep = GeneStep(result: GeneResult, store: Store)

  /** `get_genereview_sections`. */
  function GeneSections(store: Store, geneToNbk: map<string, seq<string>>, gene: string,
                        fetch: string -> Response): GeneStep
  {
    var g := Upper(gene);
    var ids := IdsForGene(geneToNbk, g);
    if ids == [] then GeneStep(GeneResult(g, [], Some(NoEntriesMessage(g))), store)
    else
      var p := FetchAll(store, ids, fetch);
      var error := if p.raised.Some? then p.raised
                   else if p.diseases == [] then Some(NoContentMessage(g))
                   else None;
      GeneStep(GeneResult(g, p.diseases, error), p.store)
  }

  function NbkIds(entries: seq<DiseaseEntry>): (ids: seq<string>)
    ensures |ids| == |entries|
    ensures forall k :: 0 <= k < |entries| ==> ids[k] == entries[k].nbkId
  {
    seq(|entries|, k requires 0 <= k < |entries| => entries[k].nbkId)
  }

  /** The non-empty record cached under `genereview_<id>`, if any: what lets a fetch skip the network. */
  function CachedRecord(store: Store, id: string): (r: Option<Record>)
    ensures r.Some? ==> r.value != map[] && Get(store, ReviewKey(id)) == r
  {
    var c := Get(store, ReviewKey(id));
    if c.Some? && c.value != map[] then c else None
  }

  /** Fetching `id` yields a record: a cached one, or a page the network returned. */
  predicate Avail(store: Store, id: string, fetch: string -> Response) {
    CachedRecord(store, id).Some? || fetch(id).Page?
  }

  /** The record a fetch of an available id yields. */
  function RecordOf(store: Store, id: string, fetch: string -> Response): Record
    requires Avail(store, id, fetch)
  {
    if CachedRecord(store, id).Some? then CachedRecord(store, id).value else DocumentRecord(fetch(id).doc)
  }

  /** Fetching `id` raises an exception other than a request failure. */
  predicate Raises(store: Store, id: string, fetch: string -> Response) {
    CachedRecord(store, id).None? && fetch(id).Raised?
  }

  /**
   * The outcome of one fetch, by cases: a record exactly when the id is
   * available, the exception's message when it raises, `None` otherwise.
   */
  lemma FetchContentOutcome(store: Store, id: string, fetch: string -> Response)
    ensures var o := FetchContent(store, id, fetch).outcome;
            && (Avail(store, id, fetch) <==> o.Found?)
            && (Avail(store, id, fetch) ==> o == Found(RecordOf(store, id, fetch)))
            && (Raises(store, id, fetch) <==> o.Crashed?)
            && (Raises(store, id, fetch) ==> o == Crashed(fetch(id).message))
  {
  }

  /**
   * Reference for the fan-out, independent of the cache threading: one
   * entry per available id, in mapping order, holding that id's record.
   */
  function Reference(store: Store, ids: seq<string>, fetch: string -> Response): seq<DiseaseEntry>
    decreases |ids|
  {
    if ids == [] then []
    else
      var id := ids[|ids| - 1];
      Reference(store, ids[..|ids| - 1], fetch) +
        (if Avail(store, id, fetch) then [EntryOf(id, RecordOf(store, id, fetch))] else [])
  }

  /** Store `s` answers every fetch as `store0` does. */
  ghost predicate Agrees(store0: Store, s: Store, fetch: string -> Response) {
    forall id ::
      && (Avail(s, id, fetch) <==> Avail(store0, id, fetch))
      && (Avail(store0, id, fetch) ==> RecordOf(s, id, fetch) == RecordOf(store0, id, fetch))
      && (Raises(s, id, fetch) <==> Raises(store0, id, fetch))
  }

  /**
   * A fetch only stores a page's record under that page's own key, so the
   * store after it still answers every fetch as the original store does.
   */
  lemma FetchContentAgrees(store0: Store, s: Store, x: string, fetch: string -> Response)
    requires Agrees(store0, s, fetch)
    ensures Agrees(store0, FetchContent(s, x, fetch).store, fetch)
  {
    var s' := FetchContent(s, x, fetch).store;
    if s' != s {
      var rec := DocumentRecord(fetch(x).doc);
      assert CachedRecord(s, x).None? && fetch(x).Page?;
      assert s' == Put(s, ReviewKey(x), rec);
      assert "disease_name" in rec;
      forall id
        ensures Avail(s', id, fetch) <==> Avail(store0, id, fetch)
        ensures Avail(store0, id, fetch) ==> RecordOf(s', id, fetch) == RecordOf(store0, id, fetch)
        ensures Raises(s', id, fetch) <==> Raises(store0, id, fetch)
      {
        KeysNeverCollide("", id, "", x);
        GetAfterPut(s, ReviewKey(x), rec, ReviewKey(id));
        if id != x {
          assert CachedRecord(s', id) == CachedRecord(s, id);
        }
      }
    }
  }

  /**
   * With no exception, the fan-out over any store gathers exactly the
   * reference entries: one per id whose record was cached or fetched, in
   * mapping order, with that record.
   */
  lemma {:induction false} FetchAllMatchesReference(store: Store, ids: seq<string>, fetch: string -> Response)
    requires forall id :: id in ids ==> !Raises(store, id, fetch)
    ensures FetchAll(store, ids, fetch).raised.None?
    ensures FetchAll(store, ids, fetch).diseases == Reference(store, ids, fetch)
    ensures Agrees(store, FetchAll(store, ids, fetch).store, fetch)
    decreases |ids|
  {
    if ids != [] {
      var init := ids[..|ids| - 1];
      var x := ids[|ids| - 1];
      FetchAllMatchesReference(store, init, fetch);
      var p := FetchAll(store, init, fetch);
      FetchContentOutcome(p.store, x, fetch);
      FetchContentAgrees(store, p.store, x, fetch);
    }
  }

  /**
   * An exception at the `i`-th id, the first to raise, ends the fan-out:
   * the entries are the reference entries of the ids before it, and the
   * error is the exception's message.
   */
  lemma FetchAllInterrupted(store: Store, ids: seq<string>, i: nat, fetch: string -> Response)
    requires i < |ids| && Raises(store, ids[i], fetch)
    requires forall k :: 0 <= k < i ==> !Raises(store, ids[k], fetch)
    ensures FetchAll(store, ids, fetch).diseases == Reference(store, ids[..i], fetch)
    ensures FetchAll(store, ids, fetch).raised == Some(fetch(ids[i]).message)
  {
    FetchAllMatchesReference(store, ids[..i], fetch);
    var p := FetchAll(store, ids[..i], fetch);
    FetchContentOutcome(p.store, ids[i], fetch);
    assert ids[..i + 1][..i] == ids[..i];
    FetchAllStops(store, ids, i + 1, fetch);
  }

  /** When no id is available, the reference has no entry. */
  lemma {:induction false} ReferenceNothingAvailable(store: Store, ids: seq<string>, fetch: string -> Response)
    requires forall id :: id in ids ==> !Avail(store, id, fetch)
    ensures Reference(store, ids, fetch) == []
    decreases |ids|
  {
    if ids != [] {
      ReferenceNothingAvailable(store, ids[..|ids| - 1], fetch);
    }
  }

  /** Once an exception has stopped the fan-out, later ids change nothing. */
  lemma {:induction false} FetchAllStops(store: Store, ids: seq<string>, i: nat, fetch: string -> Response)
    requires i <= |ids| && FetchAll(store, ids[..i], fetch).raised.Some?
    ensures FetchAll(store, ids, fetch) == FetchAll(store, ids[..i], fetch)
    decreases |ids|
  {
    if i < |ids| {
      assert ids[..|ids| - 1][..i] == ids[..i];
      FetchAllStops(store, ids[..|ids| - 1], i, fetch);
    } else {
      assert ids[..i] == ids;
    }
  }

  /**
   * The fan-out yields at most one entry per id, and the entries' ids are
   * the gene's ids in mapping order with the failed ones left out.
   */
  lemma {:induction false} FetchAllInOrder(store: Store, ids: seq<string>, fetch: string -> Response)
    ensures IsSubsequence(NbkIds(FetchAll(store, ids, fetch).diseases), ids)
    ensures |FetchAll(store, ids, fetch).diseases| <= |ids|
    decreases |ids|
  {
    if ids != [] {
      var init := ids[..|ids| - 1];
      var id := ids[|ids| - 1];
      FetchAllInOrder(store, init, fetch);
      var p := FetchAll(store, init, fetch);
      assert ids == init + [id];
      SubsequenceSnoc(NbkIds(p.diseases), init, id);
      var step := FetchContent(p.store, id, fetch);
      if p.raised.None? && step.outcome.Found? {
        assert NbkIds(p.diseases + [EntryOf(id, step.outcome.record)]) == NbkIds(p.diseases) + [id];
      }
      SubsequenceMembers(NbkIds(FetchAll(store, ids, fetch).diseases), ids);
    }
  }

  /**
   * The gene result: its gene is the upper-cased input; an unmapped gene
   * gets no entries and the "No GeneReviews entries" error; otherwise there
   * are at most as many entries as ids, in mapping order; an exception sets
   * the error to its message, and without one the "Failed to fetch" error is
   * set exactly when no entry was gathered.
   */
  lemma GeneSectionsRules(store: Store, geneToNbk: map<string, seq<string>>, gene: string,
                          fetch: string -> Response)
    ensures var r := GeneSections(store, geneToNbk, gene, fetch).result;
            var ids := IdsForGene(geneToNbk, Upper(gene));
            && r.gene == Upper(gene)
            && (ids == [] ==> r.diseases == [] && r.error == Some(NoEntriesMessage(Upper(gene))))
            && |r.diseases| <= |ids|
            && IsSubsequence(NbkIds(r.diseases), ids)
            && (ids != [] && FetchAll(store, ids, fetch).raised.Some? ==>
                  r.error == FetchAll(store, ids, fetch).raised)
            && (ids != [] && FetchAll(store, ids, fetch).raised.None? ==>
                  (r.error.Some? <==> r.diseases == []) &&
                  (r.error.Some? ==> r.error == Some(NoContentMessage(Upper(gene)))))
  {
    var ids := IdsForGene(geneToNbk, Upper(gene));
    if ids != [] {
      FetchAllInOrder(store, ids, fetch);
    }
  }

  /**
   * Which entries a gene gets, for any cache store: when none of its ids
   * raises, one entry per id whose record was cached or fetched, in mapping
   * order, holding that record, and no error unless there is no entry.
   */
  lemma GeneSectionsEntries(store: Store, geneToNbk: map<string, seq<string>>, gene: string,
                            fetch: string -> Response)
    requires forall id :: id in IdsForGene(geneToNbk, Upper(gene)) ==> !Raises(store, id, fetch)
    ensures var r := GeneSections(store, geneToNbk, gene, fetch).result;
            && r.diseases == Reference(store, IdsForGene(geneToNbk, Upper(gene)), fetch)
            && (r.error.None? <==> r.diseases != [])
  {
    FetchAllMatchesReference(store, IdsForGene(geneToNbk, Upper(gene)), fetch);
  }

  /**
   * Partial success, for any cache store: of two uncached ids, the first
   * failing and the second fetched, the gene gets one entry, holding the
   * second page's record, and no error.
   */
  lemma PartialSuccess(store: Store, geneToNbk: map<string, seq<string>>, gene: string, a: string, b: string,
                       fetch: string -> Response)
    requires Upper(gene) in geneToNbk && geneToNbk[Upper(gene)] == [a, b]
    requires CachedRecord(store, a).None? && CachedRecord(store, b).None?
    requires fetch(a).RequestFailed? && fetch(b).Page?
    ensures GeneSections(store, geneToNbk, gene, fetch).result
            == GeneResult(Upper(gene), [EntryOf(b, DocumentRecord(fetch(b).doc))], None)
  {
    assert Reference(store, [a], fetch) == [] by {
      assert [a][..0] == [];
    }
    assert Reference(store, [a, b], fetch) == [EntryOf(b, DocumentRecord(fetch(b).doc))] by {
      assert [a, b][..1] == [a];
    }
    GeneSectionsEntries(store, geneToNbk, gene, fetch);
  }

  /**
   * Every fetch failing, for any cache store: when none of a mapped gene's
   * ids has a cached record and every request fails, the gene gets no
   * entries and the "Failed to fetch" error.
   */
  lemma AllFetchesFail(store: Store, geneToNbk: map<string, seq<string>>, gene: string, fetch: string -> Response)
    requires Upper(gene) in geneToNbk && geneToNbk[Upper(gene)] != []
    requires forall id :: id in geneToNbk[Upper(gene)] ==> CachedRecord(store, id).None? && fetch(id).RequestFailed?
    ensures GeneSections(store, geneToNbk, gene, fetch).result
            == GeneResult(Upper(gene), [], Some(NoContentMessage(Upper(gene))))
  {
    var ids := geneToNbk[Upper(gene)];
    FetchAllMatchesReference(store, ids, fetch);
    ReferenceNothingAvailable(store, ids, fetch);
  }

  /**
   * A fetched page's record is stored under `genereview_<id>` when caching is
   * enabled, and a later fetch of the same id returns it from the cache,
   * whatever the network would answer, leaving the store as it is.
   */
  lemma FetchThenCached(store: Store, nbkId: string, fetch: string -> Response, later: string -> Response)
    requires store.Some? && Get(store, ReviewKey(nbkId)).None? && fetch(nbkId).Page?
    ensures var step := FetchContent(store, nbkId, fetch);
            && step.outcome == Found(DocumentRecord(fetch(nbkId).doc))
            && Get(step.store, ReviewKey(nbkId)) == Some(DocumentRecord(fetch(nbkId).doc))
            && FetchContent(step.store, nbkId, later) == FetchStep(step.outcome, step.store)
  {
    var rec := DocumentRecord(fetch(nbkId).doc);
    assert "disease_name" in rec;
    GetAfterPut(store, ReviewKey(nbkId), rec, ReviewKey(nbkId));
  }

  /** A cache hit never consults the network. */
  lemma CacheHitIgnoresNetwork(store: Store, nbkId: string, fetch: string -> Response, other: string -> Response)
    requires Get(store, ReviewKey(nbkId)).Some? && Get(store, ReviewKey(nbkId)).value != map[]
    ensures FetchContent(store, nbkId, fetch) == FetchContent(store, nbkId, other)
    ensures FetchContent(store, nbkId, fetch) == FetchStep(Found(Get(store, ReviewKey(nbkId)).value), store)
  {
  }
}
