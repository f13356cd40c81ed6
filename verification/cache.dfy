/**
 * The on-disk cache: one JSON file per key under the cache directory. A
 * store is the directory's files, or `None` when no cache directory was
 * configured (caching disabled). A file whose content does not parse as JSON
 * is `Corrupt` and reads as a miss. Cached JSON values are modelled as JSON
 * objects with string values, which is what the extractor writes.
 */
module Cache {
  import opened Wrappers

  /** A JSON object with string values, as the extractor reads and writes them. */
  type Record = map<string, string>

  datatype Entry = Corrupt | Json(record: Record)

  type Store = Option<map<string, Entry>>

  /** `_get_cached_data`: the parsed record under `key`, or nothing. */
  function Get(store: Store, key: string): Option<Record> {
    match store
    case None => None
    case Some(files) =>
      if key in files && files[key].Json? then Some(files[key].record) else None
  }

  /** `_save_to_cache`: write the record under `key`; a no-op when caching is disabled. */
  function Put(store: Store, key: string, data: Record): Store {
    match store
    case None => None
    case Some(files) => Some(files[key := Json(data)])
  }

  /** With caching disabled every read misses and every write is a no-op. */
  lemma DisabledCache(key: string, data: Record)
    ensures Get(None, key) == None
    ensures Put(None, key, data) == None
  {
  }

  /** A write is read back, and leaves every other key as it was. */
  lemma GetAfterPut(store: Store, key: string, data: Record, other: string)
    ensures store.Some? ==> Get(Put(store, key, data), key) == Some(data)
    ensures other != key ==> Get(Put(store, key, data), other) == Get(store, other)
  {
  }

  /** A corrupt file and a missing file both read as a miss. */
  lemma CorruptOrMissingIsMiss(files: map<string, Entry>, key: string)
    requires key !in files || files[key] == Corrupt
    ensures Get(Some(files), key) == None
  {
  }

  /** Cache key of a gene-information record. */
  function GeneKey(gene: string): string {
    "gene_" + gene
  }

  /** Cache key of a GeneReviews document record. */
  function ReviewKey(nbkId: string): string {
    "genereview_" + nbkId
  }

  /**
   * The two key spaces never meet, and each is one-to-one: a gene record and
   * a document record never overwrite one another, nor do two documents.
   */
  lemma {:induction false} KeysNeverCollide(gene: string, nbkId: string, gene': string, nbkId': string)
    ensures GeneKey(gene) != ReviewKey(nbkId)
    ensures GeneKey(gene) == GeneKey(gene') ==> gene == gene'
    ensures ReviewKey(nbkId) == ReviewKey(nbkId') ==> nbkId == nbkId'
  {
    assert GeneKey(gene)[4] == '_';
    assert ReviewKey(nbkId)[4] == 'r';
    if GeneKey(gene) == GeneKey(gene') {
      assert gene == GeneKey(gene)[5..] == GeneKey(gene')[5..] == gene';
    }
    if ReviewKey(nbkId) == ReviewKey(nbkId') {
      assert nbkId == ReviewKey(nbkId)[11..] == ReviewKey(nbkId')[11..] == nbkId';
    }
  }
}
