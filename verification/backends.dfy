/** The external services the chat core calls and does not implement: the
    embedding model, the nearest-neighbour search of the vector index and the
    language model. They are passed in as total functions, so every property
    proved holds whatever they return. */
module Backends {

  /** An embedding vector; its components play no part in the model. */
  type Vec = seq<real>

  datatype Services = Services(
    /** `embeddings.embed_documents([text])[0]`: the vector stored for a message. */
    embedDocument: string -> Vec,
    /** `embeddings.embed_query(text)`: the vector a query is searched with. */
    embedQuery: string -> Vec,
    /** `faiss_index.search(query, k)`: the ordinal positions of the stored
        vectors nearest to the query, as FAISS labels (`-1` pads a short answer). */
    search: (seq<Vec>, Vec, nat) -> seq<int>,
    /** `ollama.chat`: the completion for a system prompt and a user prompt. */
    complete: (string, string) -> string
  )
}
