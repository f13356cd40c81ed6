/**
 * The extractor object: its two mapping dictionaries, updated line by line
 * while the mapping table loads, and its cache directory, whose files the
 * fetches read and write. Each method is proved against the function that
 * gives its meaning in `Mapping`, `Sections`, `Cache`, `Reviews` or `Batch`.
 */
module Extractor {
  import opened Wrappers
  import opened Text
  import opened Mapping
  import opened Sections
  import opened Cache
  import opened Reviews
  import opened Batch

  /** The cache directory: one parsed (or corrupt) JSON file per key. */
  class CacheDir {
    var files: map<string, Entry>

    constructor (files: map<string, Entry>)
      ensures this.files == files
    {
      this.files := files;
    }
  }

  class GeneReviewsExtractor {
    var geneToNbk: map<string, seq<string>>
    var nbkToGene: map<string, string>
    /** `null` when no cache directory was given: caching is then disabled. */
    const cacheDir: CacheDir?

    /** The two dictionaries as one value. */
    function Index(): Mapping.Index
      reads this
    {
      Mapping.Index(geneToNbk, nbkToGene)
    }

    /** The cache as a store: the directory's files, or none. */
    function Store(): Cache.Store
      reads this, cacheDir
    {
      if cacheDir == null then None else Some(cacheDir.files)
    }

    /** Builds the extractor and loads the mapping table given as text. */
    constructor (cacheDir: CacheDir?, mappingText: string)
      ensures this.cacheDir == cacheDir
      ensures Index() == Load(Split(mappingText, '\n'))
      ensures Consistent(Index())
    {
      this.cacheDir := cacheDir;
      geneToNbk := map[];
      nbkToGene := map[];
      new;
      LoadMapping(mappingText);
      LoadCharacterised(Split(mappingText, '\n'), "", "");
    }

    /**
     * `_load_nbk_mapping`: for each line of the table, register its NBK id
     * under each gene token of its third field.
     */
    method LoadMapping(text: string)
      modifies this
      ensures Index() == Ingest(old(Index()), Registrations(Split(text, '\n')))
    {
      var lines := Split(text, '\n');
      var i := 0;
      while i < |lines|
        invariant 0 <= i <= |lines|
        invariant Index() == Ingest(old(Index()), Registrations(lines[..i]))
      {
        ghost var before := Index();
        LoadLine(lines[i]);
        IngestLineStep(old(Index()), lines, i, before, Index());
        i := i + 1;
      }
      assert lines[..i] == lines;
    }

    /**
     * The body of the loader's loop for one line: skip a blank line or one
     * with fewer than two fields; otherwise register the first field under
     * each token of the third, stripped and upper-cased.
     */
    method LoadLine(line: string)
      modifies this
      ensures Index() == Ingest(old(Index()), LineRegistrations(line))
    {
      ghost var regs := LineRegistrations(line);
      var stripped := Strip(line);
      if stripped == "" {
        return;
      }
      var parts := Split(stripped, '\t');
      if |parts| < 2 {
        return;
      }
      var nbkId := parts[0];
      var genes := if |parts| > 2 then Split(parts[2], ';') else [];
      assert |regs| == |genes|;
      var j := 0;
      while j < |genes|
        invariant 0 <= j <= |genes|
        invariant Index() == Ingest(old(Index()), regs[..j])
      {
        var gene := Upper(Strip(genes[j]));
        assert regs[j] == Registration(gene, nbkId);
        RegisterUpdate(geneToNbk, nbkToGene, gene, nbkId);
        IngestPrefixStep(old(Index()), regs, j);
        if gene !in geneToNbk {
          geneToNbk := geneToNbk[gene := []];
        }
        geneToNbk := geneToNbk[gene := geneToNbk[gene] + [nbkId]];
        nbkToGene := nbkToGene[nbkId := gene];
        j := j + 1;
      }
      assert regs[..j] == regs;
    }

    /** `_get_cached_data`: the parsed record under `key`, or nothing when disabled, missing or corrupt. */
    method GetCachedData(key: string) returns (data: Option<Record>)
      ensures data == Get(Store(), key)
      ensures data.Some? ==> cacheDir != null && key in cacheDir.files && cacheDir.files[key] == Json(data.value)
    {
      if cacheDir == null {
        return None;
      }
      if key in cacheDir.files {
        match cacheDir.files[key]
        case Corrupt => return None;
        case Json(record) => return Some(record);
      }
      return None;
    }

    /** `_save_to_cache`: write the record under `key`; nothing happens when caching is disabled. */
    method SaveToCache(key: string, data: Record)
      modifies cacheDir
      ensures Store() == Put(old(Store()), key, data)
      ensures Get(Store(), key) == if cacheDir == null then None else Some(data)
    {
      if cacheDir == null {
        return;
      }
      cacheDir.files := cacheDir.files[key := Json(data)];
    }

    /**
     * `fetch_genereview_content`: return the cached record for the id if
     * there is a non-empty one; otherwise fetch the page, build its record,
     * store it and return it.
     */
    method FetchGeneReviewContent(nbkId: string, fetch: string -> Response) returns (sections: Fetched)
      modifies cacheDir
      ensures FetchStep(sections, Store()) == FetchContent(old(Store()), nbkId, fetch)
    {
      var cacheKey := ReviewKey(nbkId);
      var cachedData := GetCachedData(cacheKey);
      if cachedData.Some? && cachedData.value != map[] {
        return Found(cachedData.value);
      }
      var response := fetch(nbkId);
      match response
      case RequestFailed =>
        return NotFound;
      case Raised(message) =>
        return Crashed(message);
      case Page(soup) =>
        var diseaseName := DiseaseName(soup);
        var clinical := ExtractTextFromSection(soup, ClinicalCharacteristics);
        var relatives := ExtractTextFromSection(soup, EvaluationOfRelatives);
        var counseling := ExtractTextFromSection(soup, GeneticCounseling);
        var record := map[
          "disease_name" := diseaseName,
          "clinical_characteristics" := clinical,
          "evaluation_of_relatives" := relatives,
          "genetic_counseling" := counseling];
        SaveToCache(cacheKey, record);
        return Found(record);
    }

    /**
     * `get_genereview_sections`: upper-case the gene, look up its ids, fetch
     * each in order and keep an entry per record found; an exception ends the
     * fan-out with its message as the error.
     */
    method GetGeneReviewSections(gene: string, fetch: string -> Response) returns (result: GeneResult)
      modifies cacheDir
      ensures geneToNbk == old(geneToNbk)
      ensures GeneStep(result, Store()) == GeneSections(old(Store()), geneToNbk, gene, fetch)
    {
      var g := Upper(gene);
      var nbkIds := if g in geneToNbk then geneToNbk[g] else [];
      if nbkIds == [] {
        return GeneResult(g, [], Some(NoEntriesMessage(g)));
      }
      var diseases: seq<DiseaseEntry> := [];
      var i := 0;
      while i < |nbkIds|
        invariant 0 <= i <= |nbkIds|
        invariant FetchAll(old(Store()), nbkIds[..i], fetch) == Progress(diseases, None, Store())
      {
        var nbkId := nbkIds[i];
        var sections := FetchGeneReviewContent(nbkId, fetch);
        assert nbkIds[..i + 1][..i] == nbkIds[..i];
        match sections {
          case Crashed(message) =>
            FetchAllStops(old(Store()), nbkIds, i + 1, fetch);
            return GeneResult(g, diseases, Some(message));
          case NotFound =>
          case Found(record) =>
            diseases := diseases + [EntryOf(nbkId, record)];
        }
        i := i + 1;
      }
      assert nbkIds[..i] == nbkIds;
      var error := if diseases == [] then Some(NoContentMessage(g)) else None;
      return GeneResult(g, diseases, error);
    }
  }

  /**
   * The batch loop of `main`: deduplicate the symbols, then process each
   * in order with the same extractor, one result per symbol.
   */
  method ProcessGenes(extractor: GeneReviewsExtractor, genes: seq<string>, fetch: string -> Response)
    returns (report: BatchReport)
    modifies extractor.cacheDir
    ensures report.results == RunBatch(old(extractor.Store()), extractor.geneToNbk, Dedup(genes), fetch).results
    ensures extractor.Store() == RunBatch(old(extractor.Store()), extractor.geneToNbk, Dedup(genes), fetch).store
    ensures report.genesProcessed == |Dedup(genes)| == |report.results|
  {
    var unique := Dedup(genes);
    var results: seq<GeneResult> := [];
    var i := 0;
    while i < |unique|
      invariant 0 <= i <= |unique|
      invariant RunBatch(old(extractor.Store()), extractor.geneToNbk, unique[..i], fetch)
                == BatchStep(results, extractor.Store())
    {
      var result := extractor.GetGeneReviewSections(unique[i], fetch);
      assert unique[..i + 1][..i] == unique[..i];
      results := results + [result];
      i := i + 1;
    }
    assert unique[..i] == unique;
    RunBatchResults(old(extractor.Store()), extractor.geneToNbk, unique, fetch);
    report := BatchReport(|results|, results);
  }
}
