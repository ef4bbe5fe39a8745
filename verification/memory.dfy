/** The per-user memory: a vector index file and a transcript file, the
    in-memory index that a chat turn loads, extends and saves, and the turn
    itself (app.py, `load_faiss_store`, `save_faiss_store`,
    `store_vector_message` and the memory steps of `chat`). */
module Memory {
  import opened Wrappers
  import opened Text
  import opened Crisis
  import opened Records
  import opened Backends
  import opened Retrieval
  import opened Prompt

  /** `EMBEDDING_DIM`: the dimension of a freshly created index. */
  const EmbeddingDim: nat := 768

  /** What an index file holds: the index's dimension and its vectors. */
  datatype StoredIndex = StoredIndex(dim: nat, vectors: seq<Vec>)

  /** An in-memory flat L2 index: its vectors, in insertion order, at
      positions 0, 1, 2, ... (the labels a search returns). */
  class VectorIndex {
    const dim: nat
    var vectors: seq<Vec>

    constructor (dim: nat, vectors: seq<Vec>)
      ensures this.dim == dim && this.vectors == vectors
    {
      this.dim := dim;
      this.vectors := vectors;
    }

    /** `faiss_index.add`: one more vector, at the next position. */
    method Add(v: Vec)
      modifies this
      ensures vectors == old(vectors) + [v]
    {
      vectors := vectors + [v];
    }
  }

  /** The two files kept for one user. `records` is the sequence of messages
      the transcript was written from. */
  class UserMemory {
    var indexFile: Option<StoredIndex>
    var transcriptFile: Option<string>
    ghost var records: seq<Record>

    /** The transcript holds exactly the lines written for `records`, each
        with normalised text; without a file there are no records. */
    ghost predicate Valid()
      reads this
    {
      && AllClean(records)
      && (transcriptFile.None? ==> records == [])
      && (transcriptFile.Some? ==> transcriptFile.value == Concat(RecordLines(records)))
    }

    /** The transcript as `readlines` returns it (no lines without a file). */
    function Lines(): seq<string>
      reads this
    {
      if transcriptFile.None? then [] else ReadLines(transcriptFile.value)
    }

    /** What the transcript file holds; a missing file reads as empty text
        when it is opened for appending. */
    function TranscriptText(): string
      reads this
    {
      if transcriptFile.None? then "" else transcriptFile.value
    }

    /** The vectors a load would give (none without an index file). */
    function StoredVectors(): seq<Vec>
      reads this
    {
      if indexFile.None? then [] else indexFile.value.vectors
    }

    /** Positional alignment: there are as many stored vectors as stored
        messages, and the n-th vector is the embedding of the n-th message's
        text. */
    ghost predicate Aligned(svc: Services)
      reads this
    {
      && |StoredVectors()| == |records|
      && forall i :: 0 <= i < |records| ==> StoredVectors()[i] == svc.embedDocument(records[i].text)
    }

    /** In a valid memory the transcript reads back as one line per record,
        in the order they were stored. */
    lemma LinesAreRecords()
      requires Valid()
      ensures Lines() == RecordLines(records)
      ensures |Lines()| == |records|
    {
      if transcriptFile.Some? {
        TranscriptLines(records);
      }
    }

    /** A user that has never chatted: neither file exists. */
    constructor ()
      ensures Valid() && forall svc :: Aligned(svc)
      ensures indexFile == None && transcriptFile == None && records == []
    {
      indexFile := None;
      transcriptFile := None;
      records := [];
    }

    /** `load_faiss_store`: the stored index, or an empty index of the
        default dimension when there is no index file. */
    method LoadIndex() returns (index: VectorIndex)
      ensures fresh(index)
      ensures index.vectors == StoredVectors()
      ensures index.dim == if indexFile.Some? then indexFile.value.dim else EmbeddingDim
    {
      if indexFile.Some? {
        index := new VectorIndex(indexFile.value.dim, indexFile.value.vectors);
      } else {
        index := new VectorIndex(EmbeddingDim, []);
      }
    }

    /** `save_faiss_store`: the index file is overwritten with the index. */
    method SaveIndex(index: VectorIndex)
      modifies this`indexFile
      ensures indexFile == Some(StoredIndex(index.dim, index.vectors))
      ensures StoredVectors() == index.vectors
    {
      indexFile := Some(StoredIndex(index.dim, index.vectors));
    }

    /** `store_vector_message`: the normalised text is embedded and added to
        the in-memory index, and exactly one line `"{role}: {clean}\n"` is
        appended to the transcript (which is created if missing). The index
        file is not touched. */
    method StoreMessage(text: string, role: Role, index: VectorIndex, svc: Services)
      requires Valid()
      modifies this, index
      ensures Valid()
      ensures index.vectors == old(index.vectors) + [svc.embedDocument(Normalize(text))]
      ensures transcriptFile == Some(old(TranscriptText()) + RecordLine(Record(role, Normalize(text))))
      ensures records == old(records) + [Record(role, Normalize(text))]
      ensures indexFile == old(indexFile)
    {
      var clean := Normalize(text);
      var rec := Record(role, clean);
      index.Add(svc.embedDocument(clean));
      AppendRecord(records, rec);
      transcriptFile := Some(TranscriptText() + RecordLine(rec));
      records := records + [rec];
    }

    /** The first half of a `chat` turn: the index is loaded and the reply
        generated from it and from the transcript. Nothing is written. */
    method Reply(userInput: string, svc: Services) returns (response: string, index: VectorIndex)
      requires Valid()
      ensures fresh(index)
      ensures index.vectors == StoredVectors()
      ensures index.dim == if indexFile.Some? then indexFile.value.dim else EmbeddingDim
      ensures GenerateResponse(userInput, transcriptFile, StoredVectors(), svc) == Ok(response)
    {
      index := LoadIndex();
      GenerateNeverFails(userInput, transcriptFile, records, index.vectors, svc);
      var reply := GenerateResponse(userInput, transcriptFile, index.vectors, svc);
      response := reply.value;
    }

    /** The second half of a `chat` turn: the user's message and then the
        reply are stored, and the extended index is saved. */
    method Remember(userInput: string, response: string, index: VectorIndex, svc: Services)
      requires Valid()
      modifies this, index
      ensures Valid()
      ensures records == old(records) + [Record(User, Normalize(userInput)), Record(Bot, Normalize(response))]
      ensures indexFile == Some(StoredIndex(index.dim, old(index.vectors) + [svc.embedDocument(Normalize(userInput)),
                                                                             svc.embedDocument(Normalize(response))]))
    {
      ghost var loaded := index.vectors;
      StoreMessage(userInput, User, index, svc);
      StoreMessage(response, Bot, index, svc);
      assert index.vectors == loaded + [svc.embedDocument(Normalize(userInput)), svc.embedDocument(Normalize(response))];
      SaveIndex(index);
    }

    /** The memory steps of one `chat` turn: load the index, generate the
        reply, store the user's message and then the reply, save the index.
        Both messages are stored on the crisis path as well. */
    method Chat(userInput: string, svc: Services) returns (response: string)
      requires Valid()
      modifies this
      ensures Valid()
      ensures GenerateResponse(userInput, old(transcriptFile), old(StoredVectors()), svc) == Ok(response)
      ensures records == old(records) + [Record(User, Normalize(userInput)), Record(Bot, Normalize(response))]
      ensures indexFile == Some(StoredIndex(if old(indexFile).Some? then old(indexFile).value.dim else EmbeddingDim,
                                            old(StoredVectors()) + [svc.embedDocument(Normalize(userInput)),
                                                                    svc.embedDocument(Normalize(response))]))
      ensures old(Aligned(svc)) ==> Aligned(svc)
    {
      var index;
      response, index := Reply(userInput, svc);
      Remember(userInput, response, index, svc);
    }
  }

  /** The first turn of a new user: the reply is generated without any stored
      context, and afterwards the transcript reads back as the message and the
      reply, normalised and in that order, with one stored vector for each. */
  method FirstTurnOfNewUser(message: string, svc: Services)
    returns (reply: string, lines: seq<string>, vectorCount: nat)
    ensures GenerateResponse(message, None, [], svc) == Ok(reply)
    ensures lines == [RecordLine(Record(User, Normalize(message))), RecordLine(Record(Bot, Normalize(reply)))]
    ensures vectorCount == 2
  {
    var memory := new UserMemory();
    reply := memory.Chat(message, svc);
    memory.LinesAreRecords();
    lines := memory.Lines();
    vectorCount := |memory.StoredVectors()|;
  }

  /** A new user's crisis message gets the safety message, and the turn
      still stores the message and the safety message, with a vector each. */
  method CrisisTurnFromNewUser(message: string, svc: Services)
    returns (response: string, lines: seq<string>, vectorCount: nat)
    requires DetectCrisis(message)
    ensures response == SafetyMessage
    ensures lines == [RecordLine(Record(User, Normalize(message))), RecordLine(Record(Bot, Normalize(SafetyMessage)))]
    ensures vectorCount == 2
  {
    var memory := new UserMemory();
    response := memory.Chat(message, svc);
    memory.LinesAreRecords();
    lines := memory.Lines();
    vectorCount := |memory.StoredVectors()|;
  }

  /** Saving an index and loading it back gives the same vectors and
      dimension. */
  method SaveThenLoad(dim: nat, vectors: seq<Vec>) returns (loadedDim: nat, loaded: seq<Vec>)
    ensures loadedDim == dim && loaded == vectors
  {
    var memory := new UserMemory();
    var index := new VectorIndex(dim, vectors);
    memory.SaveIndex(index);
    var back := memory.LoadIndex();
    loadedDim := back.dim;
    loaded := back.vectors;
  }
}
