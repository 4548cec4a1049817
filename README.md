# smart-PDF-Chatbot core, modelled in Dafny

The chatbot answers questions about uploaded PDFs. It keeps a pickled FAISS vector index of the PDFs'
text. It builds the index when a rebuild is forced, when the PDFs' modification times differ from the
stored ones, or when no cached index file exists. For each question it retrieves the three closest chunks
and loads the session's transcript. It sends a grounded prompt to Gemini and appends the question and
the answer to the transcript. This project models the four pieces of sequential logic behind that:

- `SessionRegistry`: the in-memory `SessionManager`, a dictionary from session id to turns.
  It is a class over a `map<string, seq<Turn>>`. `create_session`, `rename_session`, `save_turn` and
  `get_history` are methods, each specified by a pure function of the old map.
- `HistoryStore`: the per-session `HistoryManager`, whose JSON file is a field `file: Option<seq<Turn>>`.
  `None` means the file does not exist.
- `VectorStore`: `VectorStoreManager` and its two cache files, `kb_index.pkl` and `pdf_metadata.pkl`,
  as two optional fields. The file system's modification times are a given `map<string, int>`.
  PDF loading, splitting and embedding are given functions. `LoadOrCreate` is the pure
  specification of `load_or_create_vectorstore`; the method is proved equal to it, and the cache rules
  are proved about it.
- `RagPipeline`: the string assembly of `RAGPipeline.ask` (context join, chat-history lines, the
  f-string prompt, reproduced character for character) and `ask` itself, which appends two turns.
  `ChatModel` holds `ChatGemini.get_response`, which turns an SDK exception into an answer text.
- `Text`: Python's `str.join` and `str.strip`, with Python's whitespace set written out.

Where the intended design and the code differ, the model follows the code:
- A PDF that cannot be loaded raises out of `load_or_create_vectorstore`; it is not skipped.
- A forced or change-triggered rebuild deletes the cached index before loading any PDF. So a build
  that then raises leaves no cached index, rather than the previous one.
- `create_session(name)` with a name overwrites an existing session of that name. Generated ids are
  not checked for uniqueness.
- `ask` on a pipeline whose build found no pages (vector store `None`) raises before anything is
  saved. This is modelled as `Failure(NoVectorstore)` with the transcript unchanged.

## Model

| member | source | states |
|---|---|---|
| `Text.JoinCons` | rag_pipeline.py:17-18 | a join of two or more parts starts with the first part and one separator, followed by the join of the rest |
| `Text.JoinLength` | rag_pipeline.py:17-18 | a join is as long as its parts plus one separator between each pair |
| `Text.JoinLayout` | rag_pipeline.py:17-18 | each part stands at its offset, in order, with the separator right after it when another part follows |
| `Text.JoinSnoc` | rag_pipeline.py:18 | joining one more part appends one separator and that part |
| `Text.LStrip` | session_manager.py:14 | the result is the suffix left after all leading whitespace; it does not start with whitespace |
| `Text.RStrip` | session_manager.py:14 | the result is the prefix left before all trailing whitespace; it does not end with whitespace |
| `Text.Strip` | session_manager.py:14 | `new_name.strip()` neither starts nor ends with whitespace, and is falsy exactly when the name is all whitespace |
| `SessionRegistry.ChosenId` | session_manager.py:9 | a non-empty name is the id; otherwise the id is `session_` plus six hex digits of the uuid, 14 characters |
| `SessionRegistry.Lookup` | session_manager.py:25 | a known id gives its stored turns, an unknown one `[]` |
| `SessionRegistry.RenameApplies` | session_manager.py:14 | the guard holds exactly when the old id is present and the new name has a non-whitespace character |
| `SessionRegistry.EffectiveId` | session_manager.py:13-17 | the new name when the guard holds, the old id otherwise; the returned id is a key afterwards exactly when the old id was one before |
| `SessionRegistry.Created` | session_manager.py:10 | the id maps to `[]` (overwriting any old entry); every other key keeps its turns |
| `SessionRegistry.Renamed` | session_manager.py:14-17 | when the guard holds, the new key gets the old key's turns, the old key is gone unless new == old, other keys keep theirs; otherwise the map is unchanged |
| `SessionRegistry.WithTurn` | session_manager.py:19-22 | exactly one turn is appended to the session, created empty if absent; other sessions are unchanged |
| `SessionRegistry.RenameKeepsHistory` | session_manager.py:13-17 | the returned id looks up, afterwards, what the old id looked up before |
| `SessionRegistry.RenameToBlankIsNoOp` | session_manager.py:14-17 | an all-whitespace new name returns the old name and changes nothing |
| `SessionRegistry.RenameToNonBlankApplies` | session_manager.py:14-16 | a present old id and a name with a non-space character: the new name is returned and holds the old turns |
| `SessionRegistry.SessionManager.constructor` | session_manager.py:4-6 | the registry is the given dictionary, or empty |
| `SessionRegistry.SessionManager.CreateSession` | session_manager.py:8-11 | returns the chosen id; the new dictionary is `Created` of the old one |
| `SessionRegistry.SessionManager.RenameSession` | session_manager.py:13-17 | returns the new name when the guard holds, the old name otherwise; the new dictionary is `Renamed` of the old one |
| `SessionRegistry.SessionManager.SaveTurn` | session_manager.py:19-22 | the new dictionary is `WithTurn` of the old one |
| `SessionRegistry.SessionManager.GetHistory` | session_manager.py:24-25 | returns the session's turns, or `[]` for an unknown id, and changes nothing |
| `HistoryStore.TranscriptPath` | history_manager.py:5 | the path is `chat_history/`, then the session id, then `.json` |
| `HistoryStore.TranscriptPathInjective` | history_manager.py:5 | two sessions with the same path have the same id |
| `HistoryStore.HistoryManager.constructor` | history_manager.py:4-9 | the file exists afterwards; a missing one holds `[]`, an existing one is untouched |
| `HistoryStore.HistoryManager.LoadHistory` | history_manager.py:11-13 | returns the stored turns and changes nothing |
| `HistoryStore.HistoryManager.SaveTurn` | history_manager.py:15-19 | the stored turns become the old ones plus the one new turn |
| `HistoryStore.SaveAll` | history_manager.py:4-19 | a new session followed by n saves loads back exactly those n turns, in call order |
| `ChatModel.GetResponse` | chat_gemini.py:17-25 | the SDK's text is the answer; an exception gives the error marker followed by the exception's message |
| `RagPipeline.PageContents` | rag_pipeline.py:17 | one page text per retrieved document, in order |
| `RagPipeline.Context` | rag_pipeline.py:17 | no documents give an empty context; one document gives its text |
| `RagPipeline.ContextLayout` | rag_pipeline.py:17 | every chunk's text stands in the context in retrieval order, separated by a blank line |
| `RagPipeline.HistoryLine` | rag_pipeline.py:18 | the line is the role, `": "`, then the content |
| `RagPipeline.HistoryLines` | rag_pipeline.py:18 | one line per turn, in transcript order |
| `RagPipeline.ChatHistory` | rag_pipeline.py:18 | an empty transcript gives an empty chat history; a single turn gives exactly its line |
| `RagPipeline.ChatHistoryLayout` | rag_pipeline.py:18 | every turn's line stands in the chat history in chronological order, separated by a newline |
| `RagPipeline.ChatHistoryAppend` | rag_pipeline.py:18 | one more turn extends the serialised history by a newline and that turn's line |
| `RagPipeline.PromptLayout` | rag_pipeline.py:20-41 | the instruction block comes first, then the context, the chat history and the question, each in its slot between the fixed texts |
| `RagPipeline.RAGPipeline.constructor` | rag_pipeline.py:8-11 | the pipeline holds the given vector store, history manager, completion service and search |
| `RagPipeline.RAGPipeline.Ask` | rag_pipeline.py:15-46 | the prompt uses three retrieved chunks and the transcript from before the question; the transcript grows by exactly the user turn and the assistant turn; the returned text is the stored assistant turn, error texts included; with no vector store it fails and saves nothing |
| `RagPipeline.NewPipeline` | rag_pipeline.py:8-11 | loads or builds the vector store without forcing a rebuild, propagates its exception, and opens the session's transcript |
| `VectorStore.FirstMissing` | vectorstore_manager.py:17 | none is missing exactly when every file exists; a reported file is the first listed file that does not exist |
| `VectorStore.PdfMetadata` | vectorstore_manager.py:15-17 | succeeds exactly when every file exists; keys are the set of given paths, each mapped to its time; otherwise the first missing path in list order is raised |
| `VectorStore.HasPdfChanged` | vectorstore_manager.py:19-27 | raises exactly when a given file is missing, with the metadata's exception |
| `VectorStore.NoMetadataMeansChanged` | vectorstore_manager.py:22-23 | with no stored metadata the files count as changed |
| `VectorStore.ChangedIff` | vectorstore_manager.py:24-27 | unchanged exactly when the path sets are equal and every time matches; an added, removed or re-timed file forces a rebuild, reordering does not |
| `VectorStore.LoadOne` | vectorstore_manager.py:53-54 | a file's pages load exactly when it exists and the loader reads it; otherwise the error names that file, as missing exactly when it does not exist |
| `VectorStore.LoadAll` | vectorstore_manager.py:50-56 | no files load as no pages; a failure names one of the given files |
| `VectorStore.LoadAllFindsEveryFile` | vectorstore_manager.py:50-56 | a load that succeeds found every file on disk |
| `VectorStore.LoadAllAppend` | vectorstore_manager.py:50-56 | loading `a + b` gives `a`'s pages before `b`'s, or the first failure in file order |
| `VectorStore.LoadPdfPages` | vectorstore_manager.py:50-56 | the loop's `docs` is exactly the pages of the files in order, or the first file's exception |
| `VectorStore.BuildIndex` | vectorstore_manager.py:66-67 | one entry per chunk, in chunk order, holding the chunk and the embedding of its text |
| `VectorStore.Build` | vectorstore_manager.py:48-79 | no pages leave the cache alone; a returned index is the cached index, and then the metadata file holds the current times; otherwise the metadata is untouched |
| `VectorStore.LoadOrCreate` | vectorstore_manager.py:29-79 | a returned index is the cached one; when nothing is returned the metadata is untouched; a change check that raises leaves both cache files as they were |
| `VectorStore.CacheHit` | vectorstore_manager.py:40-46 | not forced, unchanged metadata and a cached index: that index is returned and the cache left alone, whatever the loader and embedder |
| `VectorStore.StaleIndexNeverReturned` | vectorstore_manager.py:35-38 | forced or changed: any index returned or cached afterwards is the one built from the current files |
| `VectorStore.EmptyIngestion` | vectorstore_manager.py:58-60 | `None` comes back exactly when the cache is not reused and no page loads; then no index is cached and the metadata is untouched |
| `VectorStore.StoreIsCached` | vectorstore_manager.py:70-79 | whenever an index is returned, the cache holds that index and the current metadata |
| `VectorStore.SecondLoadReuses` | vectorstore_manager.py:29-79 | a repeated call with unchanged times and no forced rebuild returns the same index and leaves the cache alone |
| `VectorStore.RaisedKeepsMetadata` | vectorstore_manager.py:29-79 | an exception never changes the stored metadata; the cached index is kept or already deleted |
| `VectorStore.VectorStoreManager.constructor` | vectorstore_manager.py:9-13 | the manager sees the cache files as they are on disk |
| `VectorStore.VectorStoreManager.LoadOrCreateVectorstore` | vectorstore_manager.py:29-79 | the outcome and the new cache files are those of `LoadOrCreate` on the old cache |

## Left out

- File-system I/O: directory creation, JSON and pickle encoding, and `print` logging. A transcript file
  that does not decode to a list of turns is not modelled, nor is a file removed by another process.
- Aliasing: `SessionManager` shares its dictionary with the UI's session state, and `save_turn` appends
  to the list object in place. A list handed out earlier by `get_history` sees the change. The model
  works on values.
- Dictionary insertion order: `rename_session` moves the renamed session to the end of the dictionary,
  unless the new name was already a different key, which keeps its place. The UI lists sessions in that order.
  Maps here are unordered.
- `HistoryManager.constructor`: always succeeds. In the source, a session id containing `/` (one typed
  into the UI's rename box, say) names a file in a directory that does not exist, and
  `open(file_path, 'w')` raises; only `chat_history/` itself is created.
- Two `HistoryManager` objects on the same file, as the UI creates, are not modelled as sharing one file.
- `uuid4()` randomness is a parameter: any 32-digit lower-case hex string.
- Modification times are integers; Python's `getmtime` returns floats. One map serves both reads of
  the times (lines 21 and 77), so a file changing during a build is not modelled.
- FAISS similarity search is a given function of the index, the query and `k`; ranking, ties and the
  bound "at most `k` results" are not modelled. Embeddings are opaque `seq<real>` vectors.
- `RecursiveCharacterTextSplitter` (chunk size 1000, overlap 200) is a given function; chunk coverage
  and overlap are not modelled.
- The loader, splitter and embedder are total functions; only the loader can fail. Exceptions from
  splitting or embedding are not modelled.
- The cache paths `faiss_cache/kb_index.pkl` and `faiss_cache/pdf_metadata.pkl` and the `cache_dir`
  argument are not modelled; the two files are the two fields.
- `ChatGemini()` construction (missing `GEMINI_API_KEY` raises, model name) is not modelled. The
  completion service is a fixed function of the prompt, so a nondeterministic service is not modelled.
- app.py (UI, rerun de-duplication, auto-rename, the second save of each turn) and verify_setup.py
  (environment checks) are not part of this model.
