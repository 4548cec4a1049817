/** The query pipeline of rag_pipeline.py: retrieval, prompt assembly, the completion call and the two
    transcript appends. Similarity search and the completion service are given functions. */
module RagPipeline {
  import opened Common
  import Text
  import HistoryStore
  import VectorStore
  import ChatModel

  /** How many chunks `ask` retrieves. */
  const RetrievalK: nat := 3

  const ContextSeparator: string := "\n\n"
  const HistorySeparator: string := "\n"
  const RoleSeparator: string := ": "

  /** The fixed instruction block, up to where the context goes. */
  const PromptHead: string :=
    "\n"
    + "        You are a professional assistant that answers questions based on the user's uploaded PDF documents.\n"
    + "\n"
    + "        Your primary goal:\n"
    + "        - Use the PDF context below to answer the user's question as accurately as possible.\n"
    + "        - If the answer is NOT found in the PDF, or is only partially related, say clearly:\n"
    + "        \"The definition/details are not mentioned directly in the document, but based on related context from the file, here's what can be inferred.\"\n"
    + "\n"
    + "        Rules:\n"
    + "        1. Always prioritize facts and examples found in the context.\n"
    + "        2. Never make up new document content \U{2014} if it's not there, acknowledge it.\n"
    + "        3. You may provide a short general explanation only AFTER clarifying it's not in the document.\n"
    + "        4. Do NOT mention that you're an AI or language model.\n"
    + "\n"
    + "        -----------------------\n"
    + "        \U{1F4D8} Document Context: "

  /** Between the context and the chat history. */
  const PromptMiddle: string := "\n" + "        \n" + "        Chat history:\n" + "        "

  /** Between the chat history and the question. */
  const PromptBeforeQuery: string := "\n" + "\n" + "        Question: "

  /** After the question, up to the closing quotes. */
  const PromptTail: string := "\n" + "        "

  /** `[d.page_content for d in docs]`. */
  function PageContents(docs: seq<Document>): (r: seq<string>)
    ensures |r| == |docs|
    ensures forall i :: 0 <= i < |docs| ==> r[i] == docs[i].pageContent
  {
    seq(|docs|, i requires 0 <= i < |docs| => docs[i].pageContent)
  }

  /** `context`: the retrieved chunks' text joined by blank lines. */
  function Context(docs: seq<Document>): (c: string)
    ensures docs == [] ==> c == ""
    ensures |docs| == 1 ==> c == docs[0].pageContent
  {
    Text.Join(ContextSeparator, PageContents(docs))
  }

  /** Chunk `i`'s text stands at its offset in the context, followed by a blank line when another chunk
      comes after it: retrieval order is kept and no chunk is lost. */
  lemma ContextLayout(docs: seq<Document>, i: nat)
    requires i < |docs|
    ensures var o := Text.Offset(ContextSeparator, PageContents(docs), i);
            var n := |docs[i].pageContent|;
            && o + n <= |Context(docs)|
            && Context(docs)[o..o + n] == docs[i].pageContent
            && (i + 1 < |docs| ==> o + n + 2 <= |Context(docs)| && Context(docs)[o + n..o + n + 2] == ContextSeparator)
  {
    Text.JoinLayout(ContextSeparator, PageContents(docs), i);
  }

  /** `f"{h['role']}: {h['content']}"`. */
  function HistoryLine(t: Turn): (line: string)
    ensures |line| == |t.role| + 2 + |t.content|
    ensures line[..|t.role|] == t.role
    ensures line[|t.role|..|t.role| + 2] == RoleSeparator
    ensures line[|t.role| + 2..] == t.content
  {
    t.role + RoleSeparator + t.content
  }

  function HistoryLines(turns: seq<Turn>): (r: seq<string>)
    ensures |r| == |turns|
    ensures forall i :: 0 <= i < |turns| ==> r[i] == HistoryLine(turns[i])
  {
    seq(|turns|, i requires 0 <= i < |turns| => HistoryLine(turns[i]))
  }

  /** `chat_history`: one `role: content` line per stored turn, joined by newlines. */
  function ChatHistory(turns: seq<Turn>): (h: string)
    ensures turns == [] ==> h == ""
    ensures |turns| == 1 ==> h == HistoryLine(turns[0])
  {
    Text.Join(HistorySeparator, HistoryLines(turns))
  }

  /** Turn `i`'s line stands at its offset in the chat history, followed by a newline when a later turn
      exists: the serialisation is chronological and complete. */
  lemma ChatHistoryLayout(turns: seq<Turn>, i: nat)
    requires i < |turns|
    ensures var o := Text.Offset(HistorySeparator, HistoryLines(turns), i);
            var n := |HistoryLine(turns[i])|;
            && o + n <= |ChatHistory(turns)|
            && ChatHistory(turns)[o..o + n] == HistoryLine(turns[i])
            && (i + 1 < |turns| ==> o + n + 1 <= |ChatHistory(turns)| && ChatHistory(turns)[o + n] == '\n')
  {
    Text.JoinLayout(HistorySeparator, HistoryLines(turns), i);
  }

  /** Appending one turn to a non-empty transcript appends one newline and that turn's line to its
      serialisation: what the next question sees is the previous history extended, never rewritten. */
  lemma ChatHistoryAppend(turns: seq<Turn>, t: Turn)
    requires turns != []
    ensures ChatHistory(turns + [t]) == ChatHistory(turns) + HistorySeparator + HistoryLine(t)
  {
    assert HistoryLines(turns + [t]) == HistoryLines(turns) + [HistoryLine(t)];
    Text.JoinSnoc(HistorySeparator, HistoryLines(turns), HistoryLine(t));
  }

  /** Seven strings concatenated: each one stands at the sum of the lengths before it. */
  lemma SevenSlots(a: string, b: string, c: string, d: string, e: string, f: string, g: string)
    ensures var p := a + b + c + d + e + f + g;
            && |p| == |a| + |b| + |c| + |d| + |e| + |f| + |g|
            && p[..|a|] == a
            && p[|a|..|a| + |b|] == b
            && p[|a| + |b|..|a| + |b| + |c|] == c
            && p[|a| + |b| + |c|..|a| + |b| + |c| + |d|] == d
            && p[|a| + |b| + |c| + |d|..|a| + |b| + |c| + |d| + |e|] == e
            && p[|a| + |b| + |c| + |d| + |e|..|a| + |b| + |c| + |d| + |e| + |f|] == f
            && p[|p| - |g|..] == g
  {
  }

  /** The f-string prompt of `ask`. */
  function Prompt(context: string, chatHistory: string, query: string): string
  {
    PromptHead + context + PromptMiddle + chatHistory + PromptBeforeQuery + query + PromptTail
  }

  /** The instruction block comes first, then the context, the chat history and the question, each in
      its slot between the fixed texts. */
  lemma PromptLayout(context: string, chatHistory: string, query: string)
    ensures var p := Prompt(context, chatHistory, query);
            && |p| == |PromptHead| + |context| + |PromptMiddle| + |chatHistory| + |PromptBeforeQuery| + |query| + |PromptTail|
            && p[..|PromptHead|] == PromptHead
            && (var a := |PromptHead|; p[a..a + |context|] == context)
            && (var a := |PromptHead| + |context|; p[a..a + |PromptMiddle|] == PromptMiddle)
            && (var a := |PromptHead| + |context| + |PromptMiddle|; p[a..a + |chatHistory|] == chatHistory)
            && (var a := |PromptHead| + |context| + |PromptMiddle| + |chatHistory|;
                p[a..a + |PromptBeforeQuery|] == PromptBeforeQuery)
            && (var a := |PromptHead| + |context| + |PromptMiddle| + |chatHistory| + |PromptBeforeQuery|;
                p[a..a + |query|] == query)
            && p[|p| - |PromptTail|..] == PromptTail
  {
    SevenSlots(PromptHead, context, PromptMiddle, chatHistory, PromptBeforeQuery, query, PromptTail);
  }

  /** The exception `ask` raises when the pipeline has no vector store: `None.similarity_search`. */
  datatype AskError = NoVectorstore

  /** A `RAGPipeline` object: its vector store (None when the build found no pages), its own
      `HistoryManager`, the completion service and the similarity search of the vector store. */
  class RAGPipeline {
    const vectorstore: Option<VectorStore.VectorIndex>
    const history: HistoryStore.HistoryManager
    const generate: string -> Result<string, string>
    const search: (VectorStore.VectorIndex, string, nat) -> seq<Document>

    constructor (vectorstore: Option<VectorStore.VectorIndex>, history: HistoryStore.HistoryManager,
                 generate: string -> Result<string, string>,
                 search: (VectorStore.VectorIndex, string, nat) -> seq<Document>)
      ensures this.vectorstore == vectorstore && this.history == history
      ensures this.generate == generate && this.search == search
    {
      this.vectorstore := vectorstore;
      this.history := history;
      this.generate := generate;
      this.search := search;
    }

    /** The prompt `ask(query)` sends, given the transcript as it stood before the question. */
    function PromptFor(index: VectorStore.VectorIndex, query: string, turns: seq<Turn>): string
    {
      Prompt(Context(search(index, query, RetrievalK)), ChatHistory(turns), query)
    }

    /** `ask(query)`: the history in the prompt is the transcript before this question; afterwards the
        transcript has grown by exactly the question and the answer, and the answer returned is the stored
        assistant turn, an error text from the completion service included. */
    method Ask(query: string) returns (r: Result<string, AskError>)
      requires history.Valid()
      modifies history
      ensures history.Valid()
      ensures vectorstore.None? ==> r == Failure(NoVectorstore) && history.Transcript() == old(history.Transcript())
      ensures vectorstore.Some? ==>
                && r.Success?
                && r.value == ChatModel.GetResponse(generate, PromptFor(vectorstore.value, query, old(history.Transcript())))
                && history.Transcript() == old(history.Transcript()) + [Turn("user", query), Turn("assistant", r.value)]
                && history.Transcript()[|history.Transcript()| - 1].content == r.value
    {
      if vectorstore.None? {
        return Failure(NoVectorstore);
      }
      var turns := history.LoadHistory();
      var prompt := PromptFor(vectorstore.value, query, turns);
      var response := ChatModel.GetResponse(generate, prompt);
      history.SaveTurn("user", query);
      history.SaveTurn("assistant", response);
      return Success(response);
    }
  }

  /** `RAGPipeline(session_id, pdf_files)`: build or load the vector store through `store` (its exception
      propagates), then open the session's transcript, whose file held `onDisk` beforehand. */
  method NewPipeline(sessionId: string, pdfFiles: seq<string>, store: VectorStore.VectorStoreManager,
                     mtimes: VectorStore.Mtimes, ing: VectorStore.Ingestion, onDisk: Option<seq<Turn>>,
                     generate: string -> Result<string, string>,
                     search: (VectorStore.VectorIndex, string, nat) -> seq<Document>)
    returns (r: Result<RAGPipeline, VectorStore.LoadError>)
    modifies store
    ensures var (outcome, cache) := VectorStore.LoadOrCreate(old(store.State()), pdfFiles, false, mtimes, ing);
            && store.State() == cache
            && (outcome.Raised? ==> r == Failure(outcome.error))
            && (!outcome.Raised? ==>
                  && r.Success? && fresh(r.value) && fresh(r.value.history)
                  && r.value.vectorstore == (if outcome.Store? then Some(outcome.index) else None)
                  && r.value.history.filePath == HistoryStore.TranscriptPath(sessionId)
                  && r.value.history.Valid()
                  && r.value.history.Transcript() == onDisk.GetOr([])
                  && r.value.generate == generate && r.value.search == search)
  {
    var outcome := store.LoadOrCreateVectorstore(pdfFiles, false, mtimes, ing);
    if outcome.Raised? {
      return Failure(outcome.error);
    }
    var vectorstore := if outcome.Store? then Some(outcome.index) else None;
    var history := new HistoryStore.HistoryManager(sessionId, onDisk);
    var pipeline := new RAGPipeline(vectorstore, history, generate, search);
    return Success(pipeline);
  }
}
