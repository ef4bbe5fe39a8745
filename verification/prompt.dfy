/** Response generation (app.py, `generate_response`): the crisis override,
    then a prompt made of the retrieved context, the recent messages and the
    user's message, sent once to the language model. */
module Prompt {
  import opened Wrappers
  import opened Text
  import opened Crisis
  import opened Records
  import opened Backends
  import opened Retrieval
  import opened Recent

  /** `SUPPORTIVE_PROMPT`: the system prompt sent with every model call. */
  const SupportivePrompt: string :=
    "\nYou are a compassionate mental health assistant. Your goal is to provide emotional support, mindfulness tips,\n"
    + "and mental well-being advice. Always respond with kindness and encouragement.\n"
    + "If a user expresses severe distress (e.g., hopelessness, self-harm thoughts), recommend professional help instead of generic responses.\n"
    + "answer in 50 words or less unless asked.\n"

  /** The fixed reply to a crisis message, with a helpline reference. */
  const SafetyMessage: string :=
    "\U{1F499} I'm really sorry you're feeling this way. You're not alone.\n"
    + "\U{1F4DE} Please reach out to a trusted friend, family member, or professional.\n"
    + "\U{1F198} Find a mental health helpline here: https://findahelpline.com/"

  /** How many similar past messages are looked up. */
  const RetrievalTopK: nat := 2

  /** How many recent transcript lines are shown. */
  const RecentWindow: nat := 10

  /** A labelled block of context, left out entirely when it has no content. */
  function ContextBlock(heading: string, content: string): string
  {
    if content == "" then "" else heading + ":\n" + content + "\n\n"
  }

  /** The closing part of every prompt. */
  function UserTurn(userInput: string): string
  {
    "User: " + userInput + "\nChatbot:"
  }

  function RelevantBlock(retrieved: string): string
  {
    ContextBlock("Relevant context", retrieved)
  }

  function RecentBlock(recent: string): string
  {
    ContextBlock("Recent messages", recent)
  }

  /** `prompt_body`: the combined context followed by the user's turn. */
  function PromptBody(userInput: string, retrieved: string, recent: string): string
  {
    RelevantBlock(retrieved) + RecentBlock(recent) + UserTurn(userInput)
  }

  /** The user message `generate_response` sends to the model: the retrieved
      context and the recent messages, each when present, then the user's
      turn. A malformed transcript line makes retrieval raise. */
  function PromptFor(userInput: string, transcript: Option<string>, vectors: seq<Vec>,
                     svc: Services): Result<string, RetrievalError>
  {
    match RetrieveContext(userInput, transcript, vectors, svc, RetrievalTopK)
    case Fail(e) => Fail(e)
    case Ok(retrieved) => Ok(PromptBody(userInput, retrieved, GetLastMessages(transcript, RecentWindow)))
  }

  /** `generate_response(user_input, faiss_index)`, given the transcript file
      (`None` when absent) and the vectors of the loaded index. A crisis
      message is answered with the safety message; otherwise the model's
      completion for the system prompt and the assembled prompt is returned. */
  function GenerateResponse(userInput: string, transcript: Option<string>, vectors: seq<Vec>,
                            svc: Services): Result<string, RetrievalError>
  {
    if DetectCrisis(userInput) then Ok(SafetyMessage)
    else
      match PromptFor(userInput, transcript, vectors, svc)
      case Fail(e) => Fail(e)
      case Ok(prompt) => Ok(svc.complete(SupportivePrompt, prompt))
  }

  /** A crisis message gets the safety message whatever the memory holds and
      whatever the services would answer: no lookup and no model call takes
      part in the reply. */
  lemma CrisisReply(userInput: string, t1: Option<string>, v1: seq<Vec>, s1: Services,
                    t2: Option<string>, v2: seq<Vec>, s2: Services)
    requires DetectCrisis(userInput)
    ensures GenerateResponse(userInput, t1, v1, s1) == Ok(SafetyMessage)
    ensures GenerateResponse(userInput, t1, v1, s1) == GenerateResponse(userInput, t2, v2, s2)
  {
  }

  /** Every prompt ends with the user's turn. */
  lemma PromptEndsWithUserTurn(userInput: string, retrieved: string, recent: string)
    ensures var p := PromptBody(userInput, retrieved, recent);
      var tail := UserTurn(userInput);
      |tail| <= |p| && p[|p| - |tail|..] == tail
  {
    var p := PromptBody(userInput, retrieved, recent);
    var head := RelevantBlock(retrieved) + RecentBlock(recent);
    assert p == head + UserTurn(userInput);
    assert p[|head|..] == UserTurn(userInput);
  }

  /** The retrieved context, when there is any, opens the prompt; the recent
      messages, when there are any, come right after it; the user's turn
      closes it; an empty source leaves no heading behind. */
  lemma PromptLayout(userInput: string, retrieved: string, recent: string)
    ensures var p := PromptBody(userInput, retrieved, recent);
      var rel := "Relevant context:\n" + retrieved + "\n\n";
      var rec := "Recent messages:\n" + recent + "\n\n";
      && (retrieved != "" && recent != "" ==> p == rel + rec + UserTurn(userInput))
      && (retrieved != "" && recent == "" ==> p == rel + UserTurn(userInput))
      && (retrieved == "" && recent != "" ==> p == rec + UserTurn(userInput))
      && (retrieved == "" && recent == "" ==> p == UserTurn(userInput))
  {
    assert retrieved != "" ==> RelevantBlock(retrieved) == "Relevant context:\n" + retrieved + "\n\n";
    assert recent != "" ==> RecentBlock(recent) == "Recent messages:\n" + recent + "\n\n";
  }

  /** A user without a transcript gets a prompt that is just their turn: no
      context block is added. */
  lemma FirstPrompt(userInput: string, vectors: seq<Vec>, svc: Services)
    ensures PromptFor(userInput, None, vectors, svc) == Ok(UserTurn(userInput))
  {
    PromptLayout(userInput, "", "");
  }

  /** Over a transcript written from records the prompt is always assembled:
      its context is the entries of the records at the valid search labels,
      joined by newlines, and the last records, stripped, as the recency
      window shows them. */
  lemma PromptFromRecords(userInput: string, recs: seq<Record>, vectors: seq<Vec>, svc: Services)
    requires AllClean(recs)
    ensures var hits := svc.search(vectors, svc.embedQuery(userInput), RetrievalTopK);
      var retrieved := Join("\n", RecordEntries(recs, KeptHits(hits, |recs|)));
      var recent := Join("\n", StrippedRecords(LastRecords(recs, RecentWindow)));
      PromptFor(userInput, Some(Concat(RecordLines(recs))), vectors, svc) == Ok(PromptBody(userInput, retrieved, recent))
  {
    RetrieveFromRecords(userInput, recs, vectors, svc, RetrievalTopK);
    RecentFromRecords(recs, RecentWindow);
  }

  /** Any other message, over a transcript written from records, is answered
      by one model call with the system prompt and a prompt made of the
      entries at the valid top-2 search labels, the last ten records and,
      at its end, the user's turn. */
  lemma NonCrisisReply(userInput: string, recs: seq<Record>, vectors: seq<Vec>, svc: Services)
    requires !DetectCrisis(userInput)
    requires AllClean(recs)
    ensures var hits := svc.search(vectors, svc.embedQuery(userInput), RetrievalTopK);
      var retrieved := Join("\n", RecordEntries(recs, KeptHits(hits, |recs|)));
      var recent := Join("\n", StrippedRecords(LastRecords(recs, RecentWindow)));
      var p := PromptBody(userInput, retrieved, recent);
      var tail := UserTurn(userInput);
      && GenerateResponse(userInput, Some(Concat(RecordLines(recs))), vectors, svc) == Ok(svc.complete(SupportivePrompt, p))
      && |tail| <= |p| && p[|p| - |tail|..] == tail
  {
    var hits := svc.search(vectors, svc.embedQuery(userInput), RetrievalTopK);
    var retrieved := Join("\n", RecordEntries(recs, KeptHits(hits, |recs|)));
    var recent := Join("\n", StrippedRecords(LastRecords(recs, RecentWindow)));
    PromptFromRecords(userInput, recs, vectors, svc);
    PromptEndsWithUserTurn(userInput, retrieved, recent);
  }

  /** Any other message from a user without a transcript is sent to the model
      as just the user's turn. */
  lemma FirstReply(userInput: string, vectors: seq<Vec>, svc: Services)
    requires !DetectCrisis(userInput)
    ensures GenerateResponse(userInput, None, vectors, svc) == Ok(svc.complete(SupportivePrompt, UserTurn(userInput)))
  {
    FirstPrompt(userInput, vectors, svc);
  }

  /** Assembly never raises on a transcript written from records, nor when
      there is no transcript yet. */
  lemma PromptNeverFails(userInput: string, transcript: Option<string>, recs: seq<Record>,
                         vectors: seq<Vec>, svc: Services)
    requires AllClean(recs)
    requires transcript.None? || transcript == Some(Concat(RecordLines(recs)))
    ensures PromptFor(userInput, transcript, vectors, svc).Ok?
  {
    if transcript.Some? {
      PromptFromRecords(userInput, recs, vectors, svc);
    }
  }

  /** Hence generation never raises either. */
  lemma GenerateNeverFails(userInput: string, transcript: Option<string>, recs: seq<Record>,
                           vectors: seq<Vec>, svc: Services)
    requires AllClean(recs)
    requires transcript.None? || transcript == Some(Concat(RecordLines(recs)))
    ensures GenerateResponse(userInput, transcript, vectors, svc).Ok?
  {
    PromptNeverFails(userInput, transcript, recs, vectors, svc);
  }
}
