/** The cached vector index of vectorstore_manager.py: when to reuse the pickled index, when to rebuild it,
    and what a build writes back. The two cache files are modelled as optional values, the file system's
    modification times as a given map, and PDF loading, splitting and embedding as given functions. */
module VectorStore {
  import opened Common

  /** `{path: os.path.getmtime(path)}` for every file that exists; a path not in the map does not exist. */
  type Mtimes = map<string, int>

  /** One chunk of text and its embedding vector. */
  datatype IndexEntry = IndexEntry(chunk: Document, vector: seq<real>)

  /** The FAISS vector store, as the ordered list of its entries. */
  datatype VectorIndex = VectorIndex(entries: seq<IndexEntry>)

  /** The exceptions a load can raise: `getmtime` or `PyPDFLoader` on a missing file, or a PDF that does not parse. */
  datatype LoadError = FileNotFound(path: string) | UnreadablePdf(path: string)

  /** The foreign collaborators of a build: `PyPDFLoader(path).load()` (None: it raised), the text splitter,
      and the embedding model. */
  datatype Ingestion = Ingestion(
    loadPdf: string -> Option<seq<Document>>,
    split: seq<Document> -> seq<Document>,
    embed: string -> seq<real>)

  /** What `load_or_create_vectorstore` ends with: a vector store, `None`, or an exception. */
  datatype Outcome = Store(index: VectorIndex) | NoStore | Raised(error: LoadError)

  /** The two cache files `kb_index.pkl` and `pdf_metadata.pkl`; None while a file does not exist. */
  datatype Cache = Cache(index: Option<VectorIndex>, metadata: Option<Mtimes>)

  /** The first of `files` that does not exist, if any. */
  function FirstMissing(files: seq<string>, mtimes: Mtimes): (r: Option<string>)
    ensures r.None? <==> forall i :: 0 <= i < |files| ==> files[i] in mtimes
    ensures r.Some? ==> r.value in files && r.value !in mtimes
    ensures r.Some? ==> exists i :: 0 <= i < |files| && files[i] == r.value && forall j :: 0 <= j < i ==> files[j] in mtimes
  {
    if files == [] then None
    else if files[0] !in mtimes then Some(files[0])
    else FirstMissing(files[1..], mtimes)
  }

  /** `_get_pdf_metadata(pdf_files)`: each given path mapped to its modification time; `getmtime` raises on
      the first missing path. */
  function PdfMetadata(files: seq<string>, mtimes: Mtimes): (r: Result<Mtimes, LoadError>)
    ensures r.Success? <==> forall i :: 0 <= i < |files| ==> files[i] in mtimes
    ensures r.Success? ==> r.value.Keys == (set f | f in files)
    ensures r.Success? ==> forall f :: f in r.value ==> r.value[f] == mtimes[f]
    ensures r.Failure? ==> r.error.FileNotFound? && r.error.path in files && r.error.path !in mtimes
    ensures r.Failure? ==> exists i :: 0 <= i < |files| && files[i] == r.error.path
                                      && forall j :: 0 <= j < i ==> files[j] in mtimes
  {
    match FirstMissing(files, mtimes)
    case Some(p) => Failure(FileNotFound(p))
    case None => Success(map f | f in files :: mtimes[f])
  }

  /** `_has_pdf_changed(pdf_files)`: the current metadata is computed first (and may raise); then the cache
      counts as changed when no metadata was stored or the stored map differs from the current one. */
  function HasPdfChanged(files: seq<string>, mtimes: Mtimes, stored: Option<Mtimes>): (r: Result<bool, LoadError>)
    ensures r.Failure? <==> exists i :: 0 <= i < |files| && files[i] !in mtimes
    ensures r.Failure? ==> r == Failure(PdfMetadata(files, mtimes).error)
  {
    match PdfMetadata(files, mtimes)
    case Failure(e) => Failure(e)
    case Success(current) => Success(stored.None? || stored.value != current)
  }

  /** With no stored metadata, existing files always count as changed. */
  lemma NoMetadataMeansChanged(files: seq<string>, mtimes: Mtimes)
    requires forall i :: 0 <= i < |files| ==> files[i] in mtimes
    ensures HasPdfChanged(files, mtimes, None) == Success(true)
  {
  }

  /** Against metadata saved for `files0` under `mtimes0`, existing `files1` count as unchanged exactly when
      they name the same set of paths with the same modification times; so an added path, a removed path
      or a changed time each force a rebuild, while reordering or repeating paths does not. */
  lemma {:induction false} ChangedIff(files0: seq<string>, mtimes0: Mtimes, files1: seq<string>, mtimes1: Mtimes)
    requires PdfMetadata(files0, mtimes0).Success?
    requires forall i :: 0 <= i < |files1| ==> files1[i] in mtimes1
    ensures HasPdfChanged(files1, mtimes1, Some(PdfMetadata(files0, mtimes0).value)) == Success(false)
        <==> ((set f | f in files0) == (set f | f in files1)
              && forall f :: f in files1 ==> f in mtimes0 && mtimes1[f] == mtimes0[f])
  {
    var stored := PdfMetadata(files0, mtimes0).value;
    var current := PdfMetadata(files1, mtimes1).value;
    if stored == current {
      assert (set f | f in files0) == stored.Keys == current.Keys == (set f | f in files1);
      forall f | f in files1 ensures f in mtimes0 && mtimes1[f] == mtimes0[f] {
        assert f in current.Keys;
        assert f in files0;
        assert current[f] == stored[f];
      }
    }
    if (set f | f in files0) == (set f | f in files1) && forall f :: f in files1 ==> f in mtimes0 && mtimes1[f] == mtimes0[f] {
      assert stored.Keys == current.Keys;
      forall f | f in stored ensures stored[f] == current[f] {
        assert f in (set f | f in files1);
      }
      assert stored == current;
    }
  }

  /** `PyPDFLoader(path).load()`: a missing path raises, a PDF that does not parse raises, otherwise its pages. */
  function LoadOne(path: string, mtimes: Mtimes, loadPdf: string -> Option<seq<Document>>): (r: Result<seq<Document>, LoadError>)
    ensures r.Success? <==> path in mtimes && loadPdf(path).Some?
    ensures r.Success? ==> r.value == loadPdf(path).value
    ensures r.Failure? ==> r.error.path == path && (r.error.FileNotFound? <==> path !in mtimes)
  {
    if path !in mtimes then Failure(FileNotFound(path))
    else match loadPdf(path)
      case None => Failure(UnreadablePdf(path))
      case Some(pages) => Success(pages)
  }

  /** The `docs` list after the loading loop: the pages of every file, in file order; the first failing
      file's exception otherwise. */
  function LoadAll(files: seq<string>, mtimes: Mtimes, loadPdf: string -> Option<seq<Document>>): (r: Result<seq<Document>, LoadError>)
    ensures r.Failure? ==> r.error.path in files
    ensures files == [] ==> r == Success([])
  {
    if files == [] then Success([])
    else
      match LoadAll(files[..|files| - 1], mtimes, loadPdf)
      case Failure(e) => Failure(e)
      case Success(docs) =>
        match LoadOne(files[|files| - 1], mtimes, loadPdf)
        case Failure(e) => Failure(e)
        case Success(pages) => Success(docs + pages)
  }

  /** A load that succeeds has found every file on disk. */
  lemma {:induction false} LoadAllFindsEveryFile(files: seq<string>, mtimes: Mtimes, loadPdf: string -> Option<seq<Document>>)
    requires LoadAll(files, mtimes, loadPdf).Success?
    ensures forall i :: 0 <= i < |files| ==> files[i] in mtimes
  {
    if files != [] {
      var init := files[..|files| - 1];
      LoadAllFindsEveryFile(init, mtimes, loadPdf);
      forall i | 0 <= i < |files| ensures files[i] in mtimes {
        if i < |files| - 1 { assert files[i] == init[i]; }
      }
    }
  }

  /** Loading `a + b` loads `a`, then `b`: it succeeds when both do, with `a`'s pages before `b`'s, and
      otherwise raises the first failure, `a`'s before `b`'s. */
  lemma {:induction false} LoadAllAppend(a: seq<string>, b: seq<string>, mtimes: Mtimes, loadPdf: string -> Option<seq<Document>>)
    ensures LoadAll(a + b, mtimes, loadPdf)
         == match LoadAll(a, mtimes, loadPdf)
            case Failure(e) => Failure(e)
            case Success(da) =>
              match LoadAll(b, mtimes, loadPdf)
              case Failure(e) => Failure(e)
              case Success(db) => Success(da + db)
  {
    if b == [] {
      assert a + b == a;
      assert LoadAll(b, mtimes, loadPdf) == Success([]);
      if LoadAll(a, mtimes, loadPdf).Success? {
        assert LoadAll(a, mtimes, loadPdf).value + [] == LoadAll(a, mtimes, loadPdf).value;
      }
    } else {
      var init := b[..|b| - 1];
      assert (a + b)[..|a + b| - 1] == a + init;
      assert (a + b)[|a + b| - 1] == b[|b| - 1];
      LoadAllAppend(a, init, mtimes, loadPdf);
      if LoadAll(a, mtimes, loadPdf).Success? && LoadAll(init, mtimes, loadPdf).Success? {
        var da := LoadAll(a, mtimes, loadPdf).value;
        var di := LoadAll(init, mtimes, loadPdf).value;
        match LoadOne(b[|b| - 1], mtimes, loadPdf)
        case Failure(e) =>
        case Success(pages) =>
          assert da + di + pages == da + (di + pages);
      }
    }
  }

  /** The loading loop of `load_or_create_vectorstore`: `docs.extend(PyPDFLoader(file).load())` per file. */
  method LoadPdfPages(files: seq<string>, mtimes: Mtimes, loadPdf: string -> Option<seq<Document>>)
    returns (r: Result<seq<Document>, LoadError>)
    ensures r == LoadAll(files, mtimes, loadPdf)
  {
    var docs: seq<Document> := [];
    var i := 0;
    while i < |files|
      invariant 0 <= i <= |files|
      invariant LoadAll(files[..i], mtimes, loadPdf) == Success(docs)
    {
      assert files[..i + 1][..i] == files[..i];
      var pages := LoadOne(files[i], mtimes, loadPdf);
      if pages.Failure? {
        assert LoadAll(files[..i + 1], mtimes, loadPdf) == Failure(pages.error);
        LoadAllAppend(files[..i + 1], files[i + 1..], mtimes, loadPdf);
        assert files[..i + 1] + files[i + 1..] == files;
        return Failure(pages.error);
      }
      docs := docs + pages.value;
      i := i + 1;
    }
    assert files[..i] == files;
    return Success(docs);
  }

  /** `FAISS.from_documents(chunks, embeddings)`: one entry per chunk, in chunk order, holding that chunk
      and the embedding of its text. */
  function BuildIndex(chunks: seq<Document>, embed: string -> seq<real>): (ix: VectorIndex)
    ensures |ix.entries| == |chunks|
    ensures forall i :: 0 <= i < |chunks| ==> ix.entries[i].chunk == chunks[i]
    ensures forall i :: 0 <= i < |chunks| ==> ix.entries[i].vector == embed(chunks[i].pageContent)
  {
    VectorIndex(seq(|chunks|, i requires 0 <= i < |chunks| => IndexEntry(chunks[i], embed(chunks[i].pageContent))))
  }

  /** The index a build from the current files would produce, when their pages load. */
  function FreshIndex(files: seq<string>, mtimes: Mtimes, ing: Ingestion): VectorIndex
    requires LoadAll(files, mtimes, ing.loadPdf).Success?
  {
    BuildIndex(ing.split(LoadAll(files, mtimes, ing.loadPdf).value), ing.embed)
  }

  /** Lines 48-79: load every PDF; with no pages return `None` and write nothing; otherwise split, embed,
      write the index file, then the metadata file. The metadata file is written only when a build
      succeeds, and then it holds the current metadata beside the new index. */
  function Build(c: Cache, files: seq<string>, mtimes: Mtimes, ing: Ingestion): (r: (Outcome, Cache))
    ensures r.0 == NoStore ==> r.1 == c
    ensures r.0.Store? ==> r.1.index == Some(r.0.index)
    ensures r.0.Store? ==> PdfMetadata(files, mtimes).Success? && r.1.metadata == Some(PdfMetadata(files, mtimes).value)
    ensures !r.0.Store? ==> r.1.metadata == c.metadata
  {
    match LoadAll(files, mtimes, ing.loadPdf)
    case Failure(e) => (Raised(e), c)
    case Success(docs) =>
      if docs == [] then (NoStore, c)
      else
        var built := c.(index := Some(BuildIndex(ing.split(docs), ing.embed)));
        // Under one `mtimes` map this branch cannot be reached: the pages loaded, so every file exists
        // (LoadAllFindsEveryFile). In the source, `open(metadata_file, "wb")` at line 76 has already
        // truncated the metadata file when `getmtime` would raise here; the model leaves it as it was.
        match PdfMetadata(files, mtimes)
        case Failure(e) => (Raised(e), built)
        case Success(current) => (Store(built.index.value), built.(metadata := Some(current)))
  }

  /** `load_or_create_vectorstore(pdf_files, rebuild)` on the cache `c`: the outcome and the new cache. */
  function LoadOrCreate(c: Cache, files: seq<string>, rebuild: bool, mtimes: Mtimes, ing: Ingestion): (r: (Outcome, Cache))
    ensures r.0.Store? ==> r.1.index == Some(r.0.index)
    ensures !r.0.Store? ==> r.1.metadata == c.metadata
    ensures !rebuild && HasPdfChanged(files, mtimes, c.metadata).Failure? ==> r.1 == c
  {
    var changed := HasPdfChanged(files, mtimes, c.metadata);
    if !rebuild && changed.Failure? then (Raised(changed.error), c)
    else
      var kept := if rebuild || changed.value then c.(index := None) else c;
      if kept.index.Some? then (Store(kept.index.value), kept)
      else Build(kept, files, mtimes, ing)
  }

  /** Not forced, metadata unchanged and an index cached: the cached index is returned and the cache is left
      alone, whatever the loader, splitter and embedder would do (none of them is consulted). */
  lemma CacheHit(c: Cache, files: seq<string>, mtimes: Mtimes, ing: Ingestion)
    requires PdfMetadata(files, mtimes).Success?
    requires c.metadata == Some(PdfMetadata(files, mtimes).value)
    requires c.index.Some?
    ensures LoadOrCreate(c, files, false, mtimes, ing) == (Store(c.index.value), c)
  {
  }

  /** Forced, or the files changed: the old index is discarded first, so any index returned or left in the
      cache is the one freshly built from the current files. */
  lemma StaleIndexNeverReturned(c: Cache, files: seq<string>, rebuild: bool, mtimes: Mtimes, ing: Ingestion)
    requires rebuild || HasPdfChanged(files, mtimes, c.metadata) == Success(true)
    ensures LoadOrCreate(c, files, rebuild, mtimes, ing).0.Store? ==>
              && LoadAll(files, mtimes, ing.loadPdf).Success?
              && LoadOrCreate(c, files, rebuild, mtimes, ing).0.index == FreshIndex(files, mtimes, ing)
    ensures LoadOrCreate(c, files, rebuild, mtimes, ing).1.index.Some? ==>
              && LoadAll(files, mtimes, ing.loadPdf).Success?
              && LoadOrCreate(c, files, rebuild, mtimes, ing).1.index == Some(FreshIndex(files, mtimes, ing))
  {
  }

  /** `None` comes back exactly when the cache was not reused and the files held no pages at all;
      then no index is cached and the stored metadata is untouched. */
  lemma EmptyIngestion(c: Cache, files: seq<string>, rebuild: bool, mtimes: Mtimes, ing: Ingestion)
    ensures LoadOrCreate(c, files, rebuild, mtimes, ing).0 == NoStore <==>
              && (rebuild || HasPdfChanged(files, mtimes, c.metadata).Success?)
              && (rebuild || HasPdfChanged(files, mtimes, c.metadata).value || c.index.None?)
              && LoadAll(files, mtimes, ing.loadPdf) == Success([])
    ensures LoadOrCreate(c, files, rebuild, mtimes, ing).0 == NoStore ==>
              && LoadOrCreate(c, files, rebuild, mtimes, ing).1.index.None?
              && LoadOrCreate(c, files, rebuild, mtimes, ing).1.metadata == c.metadata
  {
  }

  /** Whenever a vector store is returned, the cache afterwards holds that index and the current metadata. */
  lemma StoreIsCached(c: Cache, files: seq<string>, rebuild: bool, mtimes: Mtimes, ing: Ingestion)
    requires LoadOrCreate(c, files, rebuild, mtimes, ing).0.Store?
    ensures PdfMetadata(files, mtimes).Success?
    ensures LoadOrCreate(c, files, rebuild, mtimes, ing).1
         == Cache(Some(LoadOrCreate(c, files, rebuild, mtimes, ing).0.index), Some(PdfMetadata(files, mtimes).value))
  {
  }

  /** A second call with the same files, unchanged times and no forced rebuild reuses what the first call
      returned, leaves the cache as it is and consults no loader or embedder. */
  lemma SecondLoadReuses(c: Cache, files: seq<string>, rebuild: bool, mtimes: Mtimes, ing: Ingestion, ing2: Ingestion)
    requires LoadOrCreate(c, files, rebuild, mtimes, ing).0.Store?
    ensures LoadOrCreate(LoadOrCreate(c, files, rebuild, mtimes, ing).1, files, false, mtimes, ing2)
         == LoadOrCreate(c, files, rebuild, mtimes, ing)
  {
  }

  /** In this model, an exception never touches the stored metadata, and the cached index is either kept
      or already discarded (the metadata-truncating failure of line 76 cannot occur under one `mtimes` map). */
  lemma {:induction false} RaisedKeepsMetadata(c: Cache, files: seq<string>, rebuild: bool, mtimes: Mtimes, ing: Ingestion)
    requires LoadOrCreate(c, files, rebuild, mtimes, ing).0.Raised?
    ensures LoadOrCreate(c, files, rebuild, mtimes, ing).1.metadata == c.metadata
    ensures LoadOrCreate(c, files, rebuild, mtimes, ing).1.index in {c.index, None}
  {
    if LoadAll(files, mtimes, ing.loadPdf).Success? {
      LoadAllFindsEveryFile(files, mtimes, ing.loadPdf);
    }
  }

  /** The `VectorStoreManager` object, together with the two cache files under `faiss_cache/`. */
  class VectorStoreManager {
    /** `kb_index.pkl`. */
    var cachedIndex: Option<VectorIndex>
    /** `pdf_metadata.pkl`. */
    var cachedMetadata: Option<Mtimes>

    ghost function State(): Cache
      reads this
    {
      Cache(cachedIndex, cachedMetadata)
    }

    /** `VectorStoreManager()`, over cache files that are as `onDisk` says. */
    constructor (onDisk: Cache)
      ensures State() == onDisk
    {
      cachedIndex := onDisk.index;
      cachedMetadata := onDisk.metadata;
    }

    /** `load_or_create_vectorstore(pdf_files, rebuild)`. */
    method LoadOrCreateVectorstore(pdfFiles: seq<string>, rebuild: bool, mtimes: Mtimes, ing: Ingestion)
      returns (r: Outcome)
      modifies this
      ensures (r, State()) == LoadOrCreate(old(State()), pdfFiles, rebuild, mtimes, ing)
    {
      var discard := rebuild;
      if !rebuild {
        var changed := HasPdfChanged(pdfFiles, mtimes, cachedMetadata);
        if changed.Failure? {
          return Raised(changed.error);
        }
        discard := changed.value;
      }
      if discard && cachedIndex.Some? {
        cachedIndex := None;
      }

      if cachedIndex.Some? {
        return Store(cachedIndex.value);
      }

      var docs := LoadPdfPages(pdfFiles, mtimes, ing.loadPdf);
      if docs.Failure? {
        return Raised(docs.error);
      }
      if docs.value == [] {
        return NoStore;
      }
      var chunks := ing.split(docs.value);
      var vectorstore := BuildIndex(chunks, ing.embed);
      cachedIndex := Some(vectorstore);
      var metadata := PdfMetadata(pdfFiles, mtimes);
      if metadata.Failure? {
        return Raised(metadata.error);
      }
      cachedMetadata := Some(metadata.value);
      return Store(vectorstore);
    }
  }
}
