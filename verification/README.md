# GeneReviews extractor — a Dafny model

This project models the core of `Gene_extractor.py`, a command-line tool.
The tool takes a list of gene symbols and collects, for each gene, the
GeneReviews documents that describe it. It works in four steps:

1. It loads the NBK mapping table: a tab-delimited text whose lines hold an
   NBK id and a `;`-separated list of gene symbols. It builds two
   dictionaries: gene → ordered list of NBK ids, and NBK id → gene.
2. It fetches each of a gene's documents, caching the result. The cache is a
   directory of JSON files. Each document becomes a record: the disease name
   taken from the page title, and the texts of three sections.
3. It assembles one result per gene: the upper-cased gene, one disease entry
   per document it could fetch, and an error message when there is nothing
   to report.
4. It drops repeated symbols from the batch and processes the rest in order.

The model keeps the source's form:

- `Extractor.GeneReviewsExtractor` is a class. Its fields are the two
  dictionaries and a cache directory (`CacheDir`, a class whose `files` map
  is updated in place; `null` means caching is disabled).
- Its methods keep the source's loops: the line loop and token loop of the
  loader, the sibling walk of the section extractor, the fan-out over a
  gene's ids, and the batch loop.
- Each method is proved against a function that states what it computes:
  - `Mapping.Ingest` over `Mapping.Registrations` for the loader;
  - `Sections.SectionText` for the section extractor;
  - `Reviews.FetchContent`, `Reviews.FetchAll` and `Reviews.GeneSections`
    for fetching and aggregation;
  - `Batch.RunBatch` over `Batch.Dedup` for the batch loop.
- The properties of the source are proved as lemmas about those functions.
  Each is checked against an independent reference where one exists:
  - `Mapping.IdsFor` and `Mapping.LastGeneFor` describe the loaded
    dictionaries without the fold;
  - `Reviews.Reference` describes the fan-out for any cache store, from
    what is cached and what the network answers for each id.

The page parser is not modelled. A parsed page (`Sections.Document`) is its
elements in document order. Each element carries its tag name, its `text`,
its `get_text(strip=True, separator=' ')` rendering, and the position of its
next sibling element.

The network is an oracle `string -> Reviews.Response`. It maps an NBK id to
one of three outcomes:

- a parsed page;
- a request failure, which the fetcher catches and reports as `None`;
- any other exception, which passes through the fetcher to the gene-level
  handler. That handler keeps the entries gathered so far and sets the error
  to the exception's message.

Python's string operations are modelled in `Text` with their Python meaning:

- `strip` uses the full `str.isspace` set;
- `split` always yields at least one piece;
- `sep.join`, `in` (substring search) and `split(' - ')[0]` are modelled
  directly.

Two behaviours of the code are worth stating plainly:

- **Repeated gene symbols.** Deduplication (`list(dict.fromkeys(genes))`,
  before any upper-casing) compares exactly. For `["BRCA1", "brca1", "TP53"]`
  both `"BRCA1"` and `"brca1"` survive, and both are processed as the gene
  `"BRCA1"`, giving three results.
- **Exceptions other than request failures.** Only request failures are
  skipped. Any other exception ends the fan-out for the gene, with the
  exception's message as the error and the entries gathered so far kept.

## Model

| member | source | states |
|---|---|---|
| Text.Strip | Gene_extractor.py:55-56 | `str.strip()`: the result is no longer than the input, neither starts nor ends with white space, and is empty exactly when the input is all white space |
| Text.StripIsSlice | Gene_extractor.py:55-56 | what `strip` keeps is a contiguous slice of the input, with only white space before and after it |
| Text.Split | Gene_extractor.py:54-59 | `str.split(c)`: at least one piece, no piece contains `c`, and joining the pieces with `c` gives back the input |
| Text.SplitJoin | Gene_extractor.py:54-59 | splitting undoes joining for pieces free of the separator |
| Text.SplitAfterPiece | Gene_extractor.py:54-59 | a separator-free piece followed by the separator splits off as the first piece |
| Text.SplitWithout | Gene_extractor.py:54-59 | a string without the separator is a single piece |
| Text.Upper | Gene_extractor.py:61 | `str.upper()`: same length, each character upper-cased |
| Text.UpperIdempotent | Gene_extractor.py:187 | upper-casing an already upper-cased symbol changes nothing |
| Text.UpperHasNoLowerCase | Gene_extractor.py:187 | an upper-cased symbol holds no lower-case ASCII letter |
| Text.Lower | Gene_extractor.py:123-124 | `str.lower()`: same length, each character lower-cased |
| Text.LowerIgnoresCase | Gene_extractor.py:123-124 | lower-casing erases an earlier upper- or lower-casing, so the heading match ignores case |
| Text.FindFrom | Gene_extractor.py:124 | the first occurrence of a pattern at or after a position, or none when the pattern occurs nowhere after it |
| Text.ContainsMeansOccurs | Gene_extractor.py:124 | `pat in text` holds exactly when the pattern occurs at some position |
| Text.BeforeFirst | Gene_extractor.py:162 | `s.split(sep)[0]`: the prefix of `s` before the first occurrence of `sep`, or all of `s` when there is none |
| Mapping.LineRegistrations | Gene_extractor.py:55-61 | a blank line or one with at most two fields registers nothing; otherwise the first field is registered under each `;`-token of the third field, stripped and upper-cased, in token order |
| Mapping.IngestAppend | Gene_extractor.py:54-65 | loading two runs of lines one after the other is loading their concatenation |
| Mapping.IngestGeneLists | Gene_extractor.py:60-64 | a gene's list is its old list followed by the ids registered for it, in encounter order, and a gene has a list exactly when it had one or was registered |
| Mapping.IngestReverse | Gene_extractor.py:65 | the reverse dictionary sends each id to the gene of its last registration, and leaves other ids as they were |
| Mapping.IngestKeepsConsistent | Gene_extractor.py:62-65 | every id in any gene's list keeps an entry in the reverse dictionary |
| Mapping.RegisterUpdate | Gene_extractor.py:62-65 | the loader's two-step dictionary update (create the list if missing, append, set the reverse entry) is one registration |
| Mapping.RegisteredIdListed | Gene_extractor.py:64 | a registered id appears in its gene's list |
| Mapping.LineRegistrationsIncluded | Gene_extractor.py:54-65 | each line's registrations are among the registrations of the whole table |
| Mapping.TokenListsLineId | Gene_extractor.py:54-65 | for a non-blank line with three or more fields, every stripped, upper-cased token of its third field ends up with a list holding that line's NBK id |
| Mapping.SkippedLineChangesNothing | Gene_extractor.py:55-59 | a blank line, or one with only one or two fields, leaves both dictionaries unchanged |
| Mapping.EmptyTokenRegistered | Gene_extractor.py:59-64 | an empty or all-blank `;`-token is registered under the gene `""` |
| Mapping.IngestLineStep | Gene_extractor.py:54-65 | loading one more line is the fold over one more line's registrations |
| Mapping.LoadCharacterised | Gene_extractor.py:54-65 | the loaded dictionaries stated without the fold: each gene's list is exactly its registered ids in file order, each id's reverse entry is the gene of its last registration, and every listed id resolves |
| Sections.FindHeading | Gene_extractor.py:123-124 | the first h2/h3/h4 element whose lower-cased text contains the lower-cased section title, or none when no heading matches |
| Sections.Siblings | Gene_extractor.py:130-136 | the sibling walk visits only elements of the page |
| Sections.SiblingsIncrease | Gene_extractor.py:130-136 | the sibling walk visits strictly later elements, in document order |
| Sections.UntilHeading | Gene_extractor.py:131 | the walk keeps the longest run of siblings holding no heading, and stops at the first heading |
| Sections.WalkStep | Gene_extractor.py:131-136 | one step past a non-heading element adds that element's contribution and moves to its next sibling |
| Sections.WalkEnd | Gene_extractor.py:131 | reaching a heading or running out of siblings collects nothing more |
| Sections.StopsAtHeading | Gene_extractor.py:131 | nothing at or after the next heading contributes to the section |
| Sections.BlocksFromParagraphsAndLists | Gene_extractor.py:132-135 | every collected text is the non-empty text of a `p`, `ul` or `ol` element among those walked |
| Sections.ExtractTextFromSection | Gene_extractor.py:120-138 | `_extract_text_from_section`: `""` when no heading matches, otherwise the `"\n\n"`-join, in order, of the non-empty block texts among the siblings up to the next heading |
| Sections.FindTitle | Gene_extractor.py:161 | the first `title` element of the page, or none |
| Sections.DiseaseName | Gene_extractor.py:161-162 | the title text up to the first `" - "`, the whole title when there is none, and "Unknown Disease" when the page has no title |
| Cache.DisabledCache | Gene_extractor.py:80-95 | with caching disabled every read misses and every write does nothing |
| Cache.GetAfterPut | Gene_extractor.py:78-99 | a written record is read back, and other keys are unaffected |
| Cache.CorruptOrMissingIsMiss | Gene_extractor.py:84-90 | a missing file and a file that does not parse both read as a miss |
| Cache.KeysNeverCollide | Gene_extractor.py:148 | the `genereview_<id>` keys built here and the `gene_<g>` keys of the gene lookup (line 103) never coincide, and each key form is one-to-one |
| Reviews.DocumentRecord | Gene_extractor.py:161-176 | the record of a page has exactly the four keys, holding the disease name and the three section texts |
| Reviews.FetchThenCached | Gene_extractor.py:148-178 | with caching enabled, a fetched page's record is stored under `genereview_<id>`, and a later fetch of that id returns it from the cache without using the network |
| Reviews.CacheHitIgnoresNetwork | Gene_extractor.py:148-151 | a non-empty cached record is returned as it is, whatever the network would answer |
| Reviews.FetchAllStops | Gene_extractor.py:202-218 | once an exception has ended the fan-out, later ids change nothing |
| Reviews.FetchAllInOrder | Gene_extractor.py:202-212 | at most one entry per id, and the entries' ids form a subsequence of the gene's ids, in mapping order |
| Reviews.GeneSectionsRules | Gene_extractor.py:187-215 | the result's gene is the upper-cased input; an unmapped gene gets no entries and the "No GeneReviews entries" error; otherwise there are at most as many entries as ids, in mapping order; after an exception the error is its message, and without one the "Failed to fetch" error is set exactly when there is no entry |
| Reviews.CachedRecord | Gene_extractor.py:148-151 | a record counts as cached only when the store holds a non-empty one under `genereview_<id>` |
| Reviews.FetchContentOutcome | Gene_extractor.py:146-183 | the fetcher returns a record exactly when the id's record is cached or its page is fetched, and that record; it raises exactly when nothing is cached and the request raises something other than a request failure, with that message |
| Reviews.FetchContentAgrees | Gene_extractor.py:178 | storing a fetched record changes, for no id, whether a record is available, which record it is, or whether fetching raises |
| Reviews.FetchAllMatchesReference | Gene_extractor.py:202-212 | for any cache store, when no id raises, the fan-out raises nothing and its entries are exactly those of the ids whose record is cached or fetched, in mapping order |
| Reviews.FetchAllInterrupted | Gene_extractor.py:202-218 | for any cache store, when the first raising id is the i-th, the entries are those of the ids before it and the raised message is its exception's |
| Reviews.ReferenceNothingAvailable | Gene_extractor.py:202-212 | when no id has a cached record or a fetched page, no entry is gathered |
| Reviews.GeneSectionsEntries | Gene_extractor.py:187-215 | for any cache store, when none of the gene's ids raises, its entries are the reference entries and the error is unset exactly when there is one |
| Reviews.PartialSuccess | Gene_extractor.py:202-215 | for any cache store, of two uncached ids, the first failing and the second fetched, the gene gets exactly the second page's entry and no error |
| Reviews.AllFetchesFail | Gene_extractor.py:202-215 | for any cache store, when no id of a mapped gene has a cached record and every request fails, the gene gets no entries and the "Failed to fetch" error |
| Batch.Dedup | Gene_extractor.py:259 | `list(dict.fromkeys(genes))`: no repeats, the same strings as the input, and a subsequence of the input |
| Batch.DedupFirstOccurrenceOrder | Gene_extractor.py:259 | kept strings are in the order of their first occurrences |
| Batch.DedupIsCaseSensitive | Gene_extractor.py:259 | `"BRCA1"` and `"brca1"` are both kept |
| Batch.DedupDropsExactRepeat | Gene_extractor.py:259 | an exact repeat is dropped, keeping the first occurrence |
| Batch.CaseVariantsSameGene | Gene_extractor.py:187 | the two spellings kept by the deduplication are processed as the same gene |
| Batch.RunBatchResults | Gene_extractor.py:261-264 | one result per processed symbol, in order, whose gene is that symbol upper-cased |
| Extractor.GeneReviewsExtractor.constructor | Gene_extractor.py:46 | the new extractor holds the dictionaries loaded from the table, and they are consistent |
| Extractor.GeneReviewsExtractor.LoadMapping | Gene_extractor.py:54-65 | `_load_nbk_mapping`: the dictionaries become the fold of the table's registrations, line by line, over the old dictionaries |
| Extractor.GeneReviewsExtractor.LoadLine | Gene_extractor.py:55-65 | the loop body for one line: the dictionaries become the fold of that line's registrations |
| Extractor.GeneReviewsExtractor.GetCachedData | Gene_extractor.py:78-90 | `_get_cached_data`: the parsed record under the key, or `None` when caching is disabled or the file is missing or corrupt |
| Extractor.GeneReviewsExtractor.SaveToCache | Gene_extractor.py:92-99 | `_save_to_cache`: the record is stored under the key, and nothing changes when caching is disabled |
| Extractor.GeneReviewsExtractor.FetchGeneReviewContent | Gene_extractor.py:146-183 | `fetch_genereview_content`: the outcome and the new cache are those of the cache-then-fetch-then-store function |
| Extractor.GeneReviewsExtractor.GetGeneReviewSections | Gene_extractor.py:185-221 | `get_genereview_sections`: the result and the new cache are those of the aggregation function, and the mapping is unchanged |
| Extractor.ProcessGenes | Gene_extractor.py:259-269 | the batch loop: one result per deduplicated symbol, in order, the cache threaded through, and the processed count equal to the number of deduplicated symbols |

## Left out

- HTTP: the session, URL construction, status checks and `get_gene_info`
  (the MedlinePlus lookup) are not modelled. The fetch of a document is an
  oracle from NBK id to response. Only the cache key of `get_gene_info` is
  modelled (`Cache.GeneKey`).
- The download of the mapping table is not modelled. Its text is given to
  the constructor. A failed download, which is fatal in the source, is not
  modelled.
- HTML parsing is not modelled. A page is given as its elements with their
  texts and sibling links; `get_text(strip=True, separator=' ')` is a field
  of each element.
- JSON files and their encoding are not modelled. A cache entry is either a
  JSON object with string values or `Corrupt`, which stands for a file that
  does not parse. Cached JSON values that are not objects, and read errors
  other than a parse error, are not modelled.
- Creating the cache directory is not modelled.
- Logging, `print`, `argparse`, `read_gene_list`, `time.sleep`, the
  timestamp and the output file of `main` are not modelled. These are
  diagnostics, command-line handling, the clock and file output.
- Extractor.GeneReviewsExtractor.SaveToCache: a cache write always
  succeeds in the model. In the source an `OSError` from writing the file
  (Gene_extractor.py:97-99) is not caught by the fetcher. It reaches the
  gene-level handler (lines 217-218), which ends that gene's fan-out with
  the error's message, and the page's record is lost. A partly written
  file later reads as `Corrupt`, that is, as a miss.
- Cache.Put: for the same reason, a store never fails to take an entry.
- Text.Upper: upper- and lower-casing are modelled for ASCII letters only.
  Python's full Unicode case mapping is not modelled.
- Text.Lower: lower-casing is modelled for ASCII letters only, for the same
  reason.
