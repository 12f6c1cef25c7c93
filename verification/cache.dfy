/** The posted-ids cache (`posted_cache.json`): how it is read at start-up and how the
    `posted_ids` list the rest of the run works on is obtained from it. */
module Cache {
  import opened Wrappers

  /** A decoded JSON value, as far as `main` looks at it:
      - an object, of which only the `posted_ids` member matters (absent, or a list of ids);
      - an array or a string, on which `"posted_ids" in cache` is a membership or substring
        test that `holdsKey` answers, but `cache["posted_ids"]` raises `TypeError`;
      - a number, a boolean or null, on which the `in` test itself raises `TypeError`. */
  datatype Json =
    | Object(postedIds: Option<seq<string>>)
    | ArrayOrString(holdsKey: bool)
    | Scalar

  /** What the cache file holds when the run starts. */
  datatype Store =
    | Missing           // the file does not exist
    | Unreadable        // it exists but reading it as UTF-8 text raises
    | Malformed         // it reads, but the text is not valid JSON
    | Holds(value: Json)

  /** `load_cache`: the decoded document, or None when reading raised an exception that
      `load_cache` does not catch. A missing file and a JSON decode error both yield
      `{"posted_ids": []}`. */
  function LoadCache(store: Store): (r: Option<Json>)
    ensures r.None? <==> store.Unreadable?
    ensures store.Holds? ==> r == Some(store.value)
    ensures store.Missing? || store.Malformed? ==> r == Some(Object(Some([])))
  {
    match store
    case Missing => Some(Object(Some([])))
    case Unreadable => None
    case Malformed => Some(Object(Some([])))
    case Holds(value) => Some(value)
  }

  /** `main` lines 105-107: load the cache and force the `posted_ids` key to exist. They
      raise on an unreadable file, on a scalar (the `in` test fails) and on an array or
      string lacking the key (the item assignment fails); an array or string holding it
      passes untouched. */
  predicate KeyCheckPasses(store: Store)
    ensures KeyCheckPasses(store) <==> !store.Unreadable? && store != Holds(Scalar) && store != Holds(ArrayOrString(false))
  {
    match LoadCache(store)
    case None => false
    case Some(Object(_)) => true
    case Some(ArrayOrString(holdsKey)) => holdsKey
    case Some(Scalar) => false
  }

  /** The ledger `main` works on after line 107: the `posted_ids` list of an object, empty
      when the key was absent, or None when the cache is no object (lines 105-107 raised,
      or the document is an array or string that `cache["posted_ids"]` cannot index). */
  function LoadLedger(store: Store): (r: Option<seq<string>>)
    ensures r.None? <==> store.Unreadable? || (store.Holds? && !store.value.Object?)
    ensures r.Some? && store.Holds? && store.value.postedIds.Some? ==> r.value == store.value.postedIds.value
    ensures r.Some? && store.Holds? && store.value.postedIds.None? ==> r.value == []
    ensures store.Missing? || store.Malformed? ==> r == Some([])
    ensures r.Some? ==> KeyCheckPasses(store)
  {
    match LoadCache(store)
    case Some(Object(ids)) => Some(if ids.Some? then ids.value else [])
    case _ => None
  }

  /** A missing or malformed cache file gives the same ledger as a file holding
      `{"posted_ids": []}` or `{}`: an empty one, and the run goes on. */
  lemma MissingOrMalformedIsEmpty(store: Store)
    requires store.Missing? || store.Malformed?
    ensures LoadLedger(store) == LoadLedger(Holds(Object(Some([]))))
    ensures LoadLedger(store) == LoadLedger(Holds(Object(None)))
    ensures LoadLedger(store) == Some([])
  {
  }

  /** The ledger is only ever the stored `posted_ids` list or empty: nothing is invented. */
  lemma LoadedIdsWereStored(store: Store, id: string)
    requires LoadLedger(store).Some? && id in LoadLedger(store).value
    ensures store.Holds? && store.value.Object? && store.value.postedIds.Some?
    ensures id in store.value.postedIds.value
  {
  }
}
