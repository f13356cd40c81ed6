/**
 * The batch driver's pure parts: removing repeated gene symbols
 * (`list(dict.fromkeys(genes))`) and what a run over the symbols computes.
 */
module Batch {
  import opened Wrappers
  import opened Text
  import opened Seqs
  import opened Cache
  import opened Reviews

  /**
   * `list(dict.fromkeys(genes))`: each string once, at its first occurrence.
   * Strings are compared exactly; letter case is not folded.
   */
  function Dedup(genes: seq<string>): (r: seq<string>)
    ensures NoDuplicates(r)
    ensures forall g :: g in r <==> g in genes
    ensures IsSubsequence(r, genes)
    decreases |genes|
  {
    if genes == [] then []
    else
      var r := Dedup(genes[..|genes| - 1]);
      var g := genes[|genes| - 1];
      assert genes == genes[..|genes| - 1] + [g];
      SubsequenceSnoc(r, genes[..|genes| - 1], g);
      if g in r then r else r + [g]
  }

  /**
   * First-occurrence order: of two kept strings, the earlier one occurs in
   * the input before every occurrence of the later one.
   */
  lemma {:induction false} DedupFirstOccurrenceOrder(genes: seq<string>, i: nat, j: nat, k: nat)
    requires i < j < |Dedup(genes)| && k < |genes| && genes[k] == Dedup(genes)[j]
    ensures Dedup(genes)[i] in genes[..k]
    decreases |genes|
  {
    var init := genes[..|genes| - 1];
    var g := genes[|genes| - 1];
    var r := Dedup(init);
    if j < |r| {
      // both kept strings were already kept for the shorter input
      if k < |genes| - 1 {
        assert init[k] == genes[k];
        DedupFirstOccurrenceOrder(init, i, j, k);
        assert init[..k] == genes[..k];
      } else {
        // the last string repeats the kept one: use its first occurrence
        assert r[j] in init;
        var k' :| 0 <= k' < |init| && init[k'] == r[j];
        DedupFirstOccurrenceOrder(init, i, j, k');
        assert init[..k'] <= genes[..k];
      }
    } else {
      // the later string is the last one, new to the shorter input
      assert Dedup(genes)[j] == g && g !in r;
      assert r[i] in init;
      if k < |genes| - 1 {
        assert false;
      }
      assert genes[..k] == init;
    }
  }

  /** The report of a batch run: how many genes were processed and their results, in order. */
  datatype BatchReport = BatchReport(genesProcessed: nat, results: seq<GeneResult>)

  datatype BatchStep = BatchStep(results: seq<GeneResult>, store: Store)

  /** One gene result per symbol, in order, the cache store threaded through. */
  function RunBatch(store: Store, geneToNbk: map<string, seq<string>>, genes: seq<string>,
                    fetch: string -> Response): BatchStep
    decreases |genes|
  {
    if genes == [] then BatchStep([], store)
    else
      var b := RunBatch(store, geneToNbk, genes[..|genes| - 1], fetch);
      var step := GeneSections(b.store, geneToNbk, genes[|genes| - 1], fetch);
      BatchStep(b.results + [step.result], step.store)
  }

  /** A batch gives one result per symbol, whose gene is the symbol upper-cased. */
  lemma {:induction false} RunBatchResults(store: Store, geneToNbk: map<string, seq<string>>, genes: seq<string>,
                                           fetch: string -> Response)
    ensures |RunBatch(store, geneToNbk, genes, fetch).results| == |genes|
    ensures forall i :: 0 <= i < |genes| ==> RunBatch(store, geneToNbk, genes, fetch).results[i].gene == Upper(genes[i])
    decreases |genes|
  {
    if genes != [] {
      RunBatchResults(store, geneToNbk, genes[..|genes| - 1], fetch);
      GeneSectionsRules(RunBatch(store, geneToNbk, genes[..|genes| - 1], fetch).store, geneToNbk, genes[|genes| - 1], fetch);
    }
  }

  /** Deduplication is exact: "BRCA1" and "brca1" are both kept. */
  lemma DedupIsCaseSensitive()
    ensures Dedup(["BRCA1", "brca1", "TP53"]) == ["BRCA1", "brca1", "TP53"]
  {
    var a, b, c := "BRCA1", "brca1", "TP53";
    assert a[0] != b[0] && c[0] != a[0] && c[0] != b[0];
    assert [a, b, c][..2] == [a, b] && [a, b][..1] == [a];
    assert Dedup([a, b]) == [a, b];
  }

  /** An exact repeat is dropped, keeping the first occurrence. */
  lemma DedupDropsExactRepeat()
    ensures Dedup(["BRCA1", "BRCA1", "TP53"]) == ["BRCA1", "TP53"]
  {
    var a, c := "BRCA1", "TP53";
    assert c[0] != a[0];
    assert [a, a, c][..2] == [a, a] && [a, a][..1] == [a];
    assert Dedup([a, a]) == [a];
  }

  /** Both spellings kept by `Dedup` are then processed as the same gene. */
  lemma CaseVariantsSameGene()
    ensures Upper("brca1") == Upper("BRCA1") == "BRCA1"
  {
    assert |Upper("brca1")| == 5;
    assert |Upper("BRCA1")| == 5;
  }
}
