/** The retrieval pipeline: upload a document and store its embedded chunks;
    answer a question from the three nearest chunks. */
module Rag {
  import opened Common
  import opened Models
  import opened Strings
  import opened Ranking

  /** How many chunks a query retrieves. */
  const TopK: nat := 3
  const ChatModel := "gpt-4o-mini"
  const SystemInstruction := "Answer the question based on the provided context."
  const UploadMessage := "Text uploaded and processed successfully"

  /** Splits a document's text into the pieces that become chunks. */
  type Chunker = string -> seq<string>
  /** The embedding service; None when the call fails. */
  type EmbeddingService = string -> Option<Embedding>
  /** The database's distance between two embeddings (cosine distance). */
  type Distance = (Embedding, Embedding) -> real
  /** The chat completion service: the first choice's text, None when the call fails. */
  type ChatService = ChatRequest -> Option<string>

  datatype Message = Message(role: string, content: string)
  datatype ChatRequest = ChatRequest(model: string, messages: seq<Message>)

  datatype QueryRequest = QueryRequest(text: string)
  datatype UploadResponse = UploadResponse(message: string, documentId: Uuid)
  datatype QueryResponse = QueryResponse(answer: string, context: seq<string>)

  /** Every piece gets an embedding from the service. */
  predicate AllEmbedded(pieces: seq<string>, createEmbedding: EmbeddingService)
  {
    forall i :: 0 <= i < |pieces| ==> createEmbedding(pieces[i]).Some?
  }

  /** The chunk rows an upload creates for a document: one per piece, in order. */
  function NewChunks(documentId: Uuid, pieces: seq<string>, createEmbedding: EmbeddingService)
    : (r: seq<Chunk>)
    requires AllEmbedded(pieces, createEmbedding)
    ensures |r| == |pieces|
  {
    seq(|pieces|, i requires 0 <= i < |pieces| =>
      Chunk(documentId, pieces[i], createEmbedding(pieces[i]).value))
  }

  /** The chunks that belong to one document, in stored order. */
  function ChunksOf(chunks: seq<Chunk>, documentId: Uuid): (r: seq<Chunk>)
  {
    if chunks == [] then []
    else if chunks[0].documentId == documentId then [chunks[0]] + ChunksOf(chunks[1..], documentId)
    else ChunksOf(chunks[1..], documentId)
  }

  /** The texts of a list of chunks, in order. */
  function Texts(chunks: seq<Chunk>): (r: seq<string>)
    ensures |r| == |chunks|
    ensures forall i :: 0 <= i < |chunks| ==> r[i] == chunks[i].chunkText
  {
    seq(|chunks|, i requires 0 <= i < |chunks| => chunks[i].chunkText)
  }

  /** Selecting a document's chunks distributes over appending rows. */
  lemma {:induction false} ChunksOfAppend(a: seq<Chunk>, b: seq<Chunk>, documentId: Uuid)
    ensures ChunksOf(a + b, documentId) == ChunksOf(a, documentId) + ChunksOf(b, documentId)
  {
    if a == [] {
      assert a + b == b;
    } else {
      assert (a + b)[1..] == a[1..] + b;
      ChunksOfAppend(a[1..], b, documentId);
    }
  }

  /** No row belongs to a document that none of them references. */
  lemma {:induction false} ChunksOfAbsent(chunks: seq<Chunk>, documentId: Uuid)
    requires forall i :: 0 <= i < |chunks| ==> chunks[i].documentId != documentId
    ensures ChunksOf(chunks, documentId) == []
  {
    if chunks != [] {
      ChunksOfAbsent(chunks[1..], documentId);
    }
  }

  /** Rows that all belong to one document are all selected for it. */
  lemma {:induction false} ChunksOfAll(chunks: seq<Chunk>, documentId: Uuid)
    requires forall i :: 0 <= i < |chunks| ==> chunks[i].documentId == documentId
    ensures ChunksOf(chunks, documentId) == chunks
  {
    if chunks != [] {
      ChunksOfAll(chunks[1..], documentId);
      assert chunks == [chunks[0]] + chunks[1..];
    }
  }

  /** After a successful upload of a new document, the document's chunks are
      exactly one per piece of its text, in order, each with the piece as its
      text and the piece's embedding; after a failed one it has none. */
  lemma UploadedDocumentChunks(before: seq<Chunk>, documentId: Uuid, pieces: seq<string>,
                               createEmbedding: EmbeddingService)
    requires forall i :: 0 <= i < |before| ==> before[i].documentId != documentId
    ensures ChunksOf(before, documentId) == []
    ensures AllEmbedded(pieces, createEmbedding) ==>
      var mine := ChunksOf(before + NewChunks(documentId, pieces, createEmbedding), documentId);
      && mine == NewChunks(documentId, pieces, createEmbedding)
      && Texts(mine) == pieces
      && forall i :: 0 <= i < |mine| ==> mine[i].embedding == createEmbedding(pieces[i]).value
  {
    ChunksOfAbsent(before, documentId);
    if AllEmbedded(pieces, createEmbedding) {
      var added := NewChunks(documentId, pieces, createEmbedding);
      ChunksOfAppend(before, added, documentId);
      ChunksOfAll(added, documentId);
    }
  }

  /** The chunks nearest to the query embedding, nearest first. */
  function Retrieve(chunks: seq<Chunk>, query: Embedding, distance: Distance): (r: seq<Chunk>)
    ensures |r| == Min(TopK, |chunks|)
    ensures multiset(r) <= multiset(chunks)
    ensures |chunks| <= TopK ==> multiset(r) == multiset(chunks)
    ensures forall i, j :: 0 <= i <= j < |r| ==> distance(r[i].embedding, query) <= distance(r[j].embedding, query)
    ensures forall c, t :: c in multiset(chunks) - multiset(r) && t in r ==>
              distance(t.embedding, query) <= distance(c.embedding, query)
  {
    var key := (c: Chunk) => distance(c.embedding, query);
    var r := Nearest(chunks, key, TopK);
    assert forall i, j :: 0 <= i <= j < |r| ==> key(r[i]) <= key(r[j]);
    r
  }

  /** The two chat messages: the fixed instruction, then the context block and the question. */
  function Prompt(context: string, question: string): (request: ChatRequest)
  {
    ChatRequest(ChatModel, [
      Message("system", SystemInstruction),
      Message("user", "Context:\n" + context + "\n\nQuestion: " + question)
    ])
  }

  /** Every retrieved text occurs in the user message. */
  lemma PromptHoldsRetrievedTexts(texts: seq<string>, question: string, i: nat)
    requires i < |texts|
    ensures exists pre, post :: Prompt(Join(texts), question).messages[1].content == pre + texts[i] + post
  {
    JoinContains(texts, i);
    Wrapped("Context:\n", Join(texts), "\n\nQuestion: ", question, texts[i]);
  }

  /** When no retrieved text holds a newline, the context block splits back
      into exactly the texts returned as context. */
  lemma ContextBlockDeterminesTexts(top: seq<Chunk>)
    requires |top| >= 1
    requires forall i :: 0 <= i < |top| ==> '\n' !in top[i].chunkText
    ensures Split(Join(Texts(top))) == Texts(top)
  {
    SplitJoin(Texts(top));
  }

  /** With nothing stored, a query retrieves nothing and the context block is
      empty: no error is raised. */
  lemma EmptyStoreQuery(query: Embedding, distance: Distance, question: string)
    ensures Retrieve([], query, distance) == []
    ensures Prompt(Join(Texts([])), question).messages[1].content == "Context:\n\n\nQuestion: " + question
  {
  }

  class DocumentStore {
    var documents: map<Uuid, Document>
    var chunks: seq<Chunk>

    /** Documents are stored under their own id, and every chunk references a
        stored document. */
    ghost predicate Valid()
      reads this
    {
      && (forall id :: id in documents ==> documents[id].id == id)
      && (forall i :: 0 <= i < |chunks| ==> chunks[i].documentId in documents)
    }

    constructor()
      ensures Valid() && documents == map[] && chunks == []
    {
      documents := map[];
      chunks := [];
    }

    /** POST /rag/upload/: commits the document first, then embeds each piece
        of its text and commits all the chunk rows together. A failing
        embedding call aborts before the second commit: the document stays,
        with none of its chunks. */
    method Upload(document: Document, chunkText: Chunker, createEmbedding: EmbeddingService)
      returns (r: Result<UploadResponse>)
      requires Valid()
      modifies this
      ensures Valid()
      ensures document.id in old(documents) ==>
                r == Err(IntegrityError) && documents == old(documents) && chunks == old(chunks)
      ensures document.id !in old(documents) ==>
                var pieces := chunkText(document.text);
                && documents == old(documents)[document.id := document]
                && ChunksOf(old(chunks), document.id) == []
                && (AllEmbedded(pieces, createEmbedding) ==>
                      && r == Ok(UploadResponse(UploadMessage, document.id))
                      && chunks == old(chunks) + NewChunks(document.id, pieces, createEmbedding)
                      && ChunksOf(chunks, document.id) == NewChunks(document.id, pieces, createEmbedding))
                && (!AllEmbedded(pieces, createEmbedding) ==>
                      r == Err(EmbeddingFailed) && chunks == old(chunks))
    {
      if document.id in documents {
        return Err(IntegrityError);
      }
      var pieces := chunkText(document.text);
      UploadedDocumentChunks(chunks, document.id, pieces, createEmbedding);
      documents := documents[document.id := document];
      var pending: seq<Chunk> := [];
      for i := 0 to |pieces|
        invariant |pending| == i
        invariant forall j :: 0 <= j < i ==> createEmbedding(pieces[j]).Some?
        invariant forall j :: 0 <= j < i ==>
                    pending[j] == Chunk(document.id, pieces[j], createEmbedding(pieces[j]).value)
      {
        var embedding := createEmbedding(pieces[i]);
        if embedding.None? {
          return Err(EmbeddingFailed);
        }
        pending := pending + [Chunk(document.id, pieces[i], embedding.value)];
      }
      assert pending == NewChunks(document.id, pieces, createEmbedding);
      chunks := chunks + pending;
      r := Ok(UploadResponse(UploadMessage, document.id));
    }

    /** POST /rag/query/: embeds the question, retrieves the nearest chunks
        across all documents, asks the chat service with their texts joined
        by newlines as context, and returns its answer with those texts. */
    method Query(request: QueryRequest, createEmbedding: EmbeddingService, distance: Distance,
                 complete: ChatService) returns (r: Result<QueryResponse>)
      ensures createEmbedding(request.text).None? ==> r == Err(EmbeddingFailed)
      ensures createEmbedding(request.text).Some? ==>
                var top := Retrieve(chunks, createEmbedding(request.text).value, distance);
                var answer := complete(Prompt(Join(Texts(top)), request.text));
                && (answer.None? ==> r == Err(GenerationFailed))
                && (answer.Some? ==> r == Ok(QueryResponse(answer.value, Texts(top))))
    {
      var queryEmbedding := createEmbedding(request.text);
      if queryEmbedding.None? {
        return Err(EmbeddingFailed);
      }
      var top := Retrieve(chunks, queryEmbedding.value, distance);
      var context := Join(Texts(top));
      var answer := complete(Prompt(context, request.text));
      if answer.None? {
        return Err(GenerationFailed);
      }
      r := Ok(QueryResponse(answer.value, Texts(top)));
    }
  }
}
