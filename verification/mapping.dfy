/**
 * The NBK mapping table: a tab-delimited text, one record per line, whose
 * first field is an NBK id and whose third field is a `;`-separated list of
 * gene symbols. Loading it builds two dictionaries: gene -> ordered list of
 * NBK ids, and NBK id -> gene (the last gene registered for the id wins).
 *
 * This module gives the meaning of a load as a sequence of registrations
 * (one per gene token, in file order) folded over the two dictionaries;
 * `Extractor.GeneReviewsExtractor.LoadMapping` is proved against it.
 */
module Mapping {
  import opened Wrappers
  import opened Text

  /** One `(gene, NBK id)` pair read from the table. */
  datatype Registration = Registration(gene: string, nbkId: string)

  /** The two dictionaries of the extractor. */
  datatype Index = Index(geneToNbk: map<string, seq<string>>, nbkToGene: map<string, string>)

  const EmptyIndex := Index(map[], map[])

  /** The tab-separated fields of a line, after stripping it. */
  function Fields(line: string): seq<string> {
    Split(Strip(line), '\t')
  }

  /**
   * What one line registers: nothing for a blank line or one with fewer
   * than three fields, otherwise its NBK id under each of its gene tokens,
   * in token order.
   */
  function LineRegistrations(line: string): (regs: seq<Registration>)
    ensures Strip(line) == [] ==> regs == []
    ensures |Fields(line)| <= 2 ==> regs == []
    ensures forall r :: r in regs ==> r.nbkId == Fields(line)[0]
    ensures Strip(line) != [] && |Fields(line)| > 2 ==>
              |regs| == |Split(Fields(line)[2], ';')| &&
              forall k :: 0 <= k < |regs| ==> regs[k].gene == Upper(Strip(Split(Fields(line)[2], ';')[k]))
  {
    if Strip(line) == [] then []
    else
      var parts := Fields(line);
      if |parts| >= 2 then
        var tokens := if |parts| > 2 then Split(parts[2], ';') else [];
        seq(|tokens|, k requires 0 <= k < |tokens| => Registration(Upper(Strip(tokens[k])), parts[0]))
      else []
  }

  /** The registrations of all lines, in file order. */
  function Registrations(lines: seq<string>): seq<Registration>
    decreases |lines|
  {
    if lines == [] then []
    else Registrations(lines[..|lines| - 1]) + LineRegistrations(lines[|lines| - 1])
  }

  /** One registration: append the id to the gene's list (creating it), and point the id at the gene. */
  function Register(idx: Index, r: Registration): Index {
    var ids := if r.gene in idx.geneToNbk then idx.geneToNbk[r.gene] else [];
    Index(idx.geneToNbk[r.gene := ids + [r.nbkId]], idx.nbkToGene[r.nbkId := r.gene])
  }

  /** The index after applying the registrations in order. */
  function Ingest(idx: Index, regs: seq<Registration>): Index
    decreases |regs|
  {
    if regs == [] then idx
    else Register(Ingest(idx, regs[..|regs| - 1]), regs[|regs| - 1])
  }

  /** The ids registered for `gene`, in order (repeats kept). */
  function IdsFor(regs: seq<Registration>, gene: string): seq<string>
    decreases |regs|
  {
    if regs == [] then []
    else
      var last := regs[|regs| - 1];
      IdsFor(regs[..|regs| - 1], gene) + (if last.gene == gene then [last.nbkId] else [])
  }

  /** The gene of the last registration of `id`, if any. */
  function LastGeneFor(regs: seq<Registration>, id: string): Option<string>
    decreases |regs|
  {
    if regs == [] then None
    else if regs[|regs| - 1].nbkId == id then Some(regs[|regs| - 1].gene)
    else LastGeneFor(regs[..|regs| - 1], id)
  }

  /** Every id in a gene's list has an entry in the reverse dictionary. */
  ghost predicate Consistent(idx: Index) {
    forall g, id :: g in idx.geneToNbk && id in idx.geneToNbk[g] ==> id in idx.nbkToGene
  }

  function IdsOf(idx: Index, gene: string): seq<string> {
    if gene in idx.geneToNbk then idx.geneToNbk[gene] else []
  }

  /** The fold over one more registration of the same list. */
  lemma IngestPrefixStep(idx: Index, regs: seq<Registration>, j: nat)
    requires j < |regs|
    ensures Ingest(idx, regs[..j + 1]) == Register(Ingest(idx, regs[..j]), regs[j])
  {
    assert regs[..j + 1][..j] == regs[..j];
  }

  /**
   * The two-step dictionary update the loader performs (create the gene's
   * list if missing, append the id, then point the id at the gene) is one
   * registration.
   */
  lemma RegisterUpdate(g2n: map<string, seq<string>>, n2g: map<string, string>, gene: string, nbkId: string)
    ensures var g1 := if gene !in g2n then g2n[gene := []] else g2n;
            Index(g1[gene := g1[gene] + [nbkId]], n2g[nbkId := gene]) == Register(Index(g2n, n2g), Registration(gene, nbkId))
  {
  }

  lemma {:induction false} IngestAppend(idx: Index, a: seq<Registration>, b: seq<Registration>)
    ensures Ingest(idx, a + b) == Ingest(Ingest(idx, a), b)
    decreases |b|
  {
    if b == [] {
      assert a + b == a;
    } else {
      var b' := b[..|b| - 1];
      IngestAppend(idx, a, b');
      assert (a + b)[..|a + b| - 1] == a + b';
    }
  }

  lemma {:induction false} RegistrationsSnoc(lines: seq<string>, line: string)
    ensures Registrations(lines + [line]) == Registrations(lines) + LineRegistrations(line)
  {
    assert (lines + [line])[..|lines|] == lines;
  }

  /** The registrations of one more line of the same table. */
  lemma RegistrationsPrefixStep(lines: seq<string>, i: nat)
    requires i < |lines|
    ensures Registrations(lines[..i + 1]) == Registrations(lines[..i]) + LineRegistrations(lines[i])
  {
    assert lines[..i + 1][..i] == lines[..i];
  }

  /** Loading one more line of the table: the index after it is the fold over one more line. */
  lemma IngestLineStep(start: Index, lines: seq<string>, i: nat, before: Index, after: Index)
    requires i < |lines|
    requires before == Ingest(start, Registrations(lines[..i]))
    requires after == Ingest(before, LineRegistrations(lines[i]))
    ensures after == Ingest(start, Registrations(lines[..i + 1]))
  {
    RegistrationsPrefixStep(lines, i);
    IngestAppend(start, Registrations(lines[..i]), LineRegistrations(lines[i]));
  }

  /**
   * A gene's list after ingestion is its old list followed by the ids
   * registered for it, in encounter order; a gene has a list exactly when it
   * had one or was registered. Lists therefore only grow, by appending.
   */
  lemma {:induction false} IngestGeneLists(idx: Index, regs: seq<Registration>, gene: string)
    ensures gene in Ingest(idx, regs).geneToNbk <==>
              gene in idx.geneToNbk || exists r :: r in regs && r.gene == gene
    ensures IdsOf(Ingest(idx, regs), gene) == IdsOf(idx, gene) + IdsFor(regs, gene)
    decreases |regs|
  {
    if regs != [] {
      var init := regs[..|regs| - 1];
      var last := regs[|regs| - 1];
      IngestGeneLists(idx, init, gene);
      assert regs == init + [last];
      assert forall r :: r in regs <==> r in init || r == last;
    }
  }

  /** The reverse dictionary sends an id to the gene of its last registration, or keeps its old entry. */
  lemma {:induction false} IngestReverse(idx: Index, regs: seq<Registration>, id: string)
    ensures LastGeneFor(regs, id).Some? ==>
              id in Ingest(idx, regs).nbkToGene &&
              Ingest(idx, regs).nbkToGene[id] == LastGeneFor(regs, id).value
    ensures LastGeneFor(regs, id).None? ==>
              (id in Ingest(idx, regs).nbkToGene <==> id in idx.nbkToGene) &&
              (id in idx.nbkToGene ==> Ingest(idx, regs).nbkToGene[id] == idx.nbkToGene[id])
    decreases |regs|
  {
    if regs != [] {
      IngestReverse(idx, regs[..|regs| - 1], id);
    }
  }

  /** Registering keeps every listed id resolvable in the reverse dictionary. */
  lemma {:induction false} IngestKeepsConsistent(idx: Index, regs: seq<Registration>)
    requires Consistent(idx)
    ensures Consistent(Ingest(idx, regs))
    decreases |regs|
  {
    if regs != [] {
      IngestKeepsConsistent(idx, regs[..|regs| - 1]);
      var before := Ingest(idx, regs[..|regs| - 1]);
      var r := regs[|regs| - 1];
      var after := Register(before, r);
      forall g, id | g in after.geneToNbk && id in after.geneToNbk[g]
        ensures id in after.nbkToGene
      {
        if g == r.gene {
          var ids := if r.gene in before.geneToNbk then before.geneToNbk[r.gene] else [];
          assert after.geneToNbk[g] == ids + [r.nbkId];
          if id != r.nbkId {
            assert id in ids;
          }
        }
      }
    }
  }

  /** A registration of `id` under `gene` puts `id` in the list of `gene`. */
  lemma {:induction false} RegisteredIdListed(regs: seq<Registration>, r: Registration)
    requires r in regs
    ensures r.nbkId in IdsFor(regs, r.gene)
    decreases |regs|
  {
    var init := regs[..|regs| - 1];
    if regs[|regs| - 1] != r {
      assert regs == init + [regs[|regs| - 1]];
      RegisteredIdListed(init, r);
    }
  }

  /** Each line's registrations are among the registrations of the whole table. */
  lemma {:induction false} LineRegistrationsIncluded(lines: seq<string>, i: nat, r: Registration)
    requires i < |lines| && r in LineRegistrations(lines[i])
    ensures r in Registrations(lines)
    decreases |lines|
  {
    if i < |lines| - 1 {
      LineRegistrationsIncluded(lines[..|lines| - 1], i, r);
    }
  }

  /**
   * For every non-blank line with at least three fields, each `;`-token of
   * its third field, stripped and upper-cased, ends up with a list holding
   * that line's NBK id.
   */
  lemma TokenListsLineId(idx: Index, lines: seq<string>, i: nat, k: nat)
    requires i < |lines| && Strip(lines[i]) != [] && |Fields(lines[i])| > 2
    requires k < |Split(Fields(lines[i])[2], ';')|
    ensures var gene := Upper(Strip(Split(Fields(lines[i])[2], ';')[k]));
            gene in Ingest(idx, Registrations(lines)).geneToNbk &&
            Fields(lines[i])[0] in Ingest(idx, Registrations(lines)).geneToNbk[gene]
  {
    var r := LineRegistrations(lines[i])[k];
    LineRegistrationsIncluded(lines, i, r);
    RegisteredIdListed(Registrations(lines), r);
    IngestGeneLists(idx, Registrations(lines), r.gene);
  }

  /**
   * A blank line, a line with a single field and a line with exactly two
   * fields register nothing: appending one leaves both dictionaries as they were.
   */
  lemma SkippedLineChangesNothing(idx: Index, lines: seq<string>, line: string)
    requires Strip(line) == [] || |Fields(line)| <= 2
    ensures Ingest(idx, Registrations(lines + [line])) == Ingest(idx, Registrations(lines))
  {
    RegistrationsSnoc(lines, line);
    assert Registrations(lines) + LineRegistrations(line) == Registrations(lines);
  }

  /** An empty token (a trailing `;`, or an empty third field) is registered under the gene `""`. */
  lemma EmptyTokenRegistered(line: string, k: nat)
    requires Strip(line) != [] && |Fields(line)| > 2
    requires k < |Split(Fields(line)[2], ';')| && AllSpace(Split(Fields(line)[2], ';')[k])
    ensures Registration("", Fields(line)[0]) in LineRegistrations(line)
  {
    assert LineRegistrations(line)[k] == Registration("", Fields(line)[0]);
  }

  /** A loaded table: the index built from empty dictionaries. */
  function Load(lines: seq<string>): Index {
    Ingest(EmptyIndex, Registrations(lines))
  }

  /**
   * The loaded index, stated without the fold: a gene's list is exactly the
   * ids registered for it in file order, the id's reverse entry is the gene
   * of its last registration, and every listed id resolves.
   */
  lemma LoadCharacterised(lines: seq<string>, gene: string, id: string)
    ensures IdsOf(Load(lines), gene) == IdsFor(Registrations(lines), gene)
    ensures gene in Load(lines).geneToNbk <==> exists r :: r in Registrations(lines) && r.gene == gene
    ensures id in Load(lines).nbkToGene <==> LastGeneFor(Registrations(lines), id).Some?
    ensures id in Load(lines).nbkToGene ==> Load(lines).nbkToGene[id] == LastGeneFor(Registrations(lines), id).value
    ensures Consistent(Load(lines))
  {
    IngestGeneLists(EmptyIndex, Registrations(lines), gene);
    IngestReverse(EmptyIndex, Registrations(lines), id);
    IngestKeepsConsistent(EmptyIndex, Registrations(lines));
  }
}
