# Echo-Care per-user memory and prompt assembly, in Dafny

Echo-Care is a Flask chatbot for emotional support. Every logged-in user has
two files:

- a FAISS vector index. Each stored message gets one embedding, at the
  next position.
- a transcript. Each stored message is written as one line
  `"{role}: {clean}\n"`, where `clean` is the message with its whitespace
  normalised.

One chat turn works like this:

1. Load the index, or create an empty one of dimension 768 when there is
   no index file.
2. Generate the reply.
3. Store the user's message and then the reply, in both the index and the
   transcript.
4. Save the index.

Generating a reply works like this:

- A message that contains a crisis keyword is answered with a fixed safety
  message. The keywords are matched after ASCII lower-casing, at any
  position.
- Any other message gets a prompt built from three parts and is sent once
  to the language model:
  - the transcript lines the vector search returns, each cut after its
    role's colon;
  - the last ten transcript lines, stripped;
  - the user's turn.

The project models that logic in these modules:

- `Wrappers`: `Option` and `Result`.
- `Text`: the Python string builtins the code relies on:
  - `str.isspace`, `split()`, `" ".join`, `strip`;
  - ASCII `lower`, substring `in`;
  - `split(":", 1)[1]`, `readlines`.
- `Crisis`: `detect_crisis`.
- `Records`: the transcript line format.
- `Retrieval`: `retrieve_context`.
- `Recent`: `get_last_messages`, with Python's slice semantics.
- `Prompt`: `generate_response`.
- `Memory`: the index and the two files.
  - The index is a class, `VectorIndex`.
  - The two files are a class, `UserMemory`, with `load_faiss_store`,
    `save_faiss_store` and `store_vector_message`.
  - The memory steps of `chat` are `UserMemory.Chat`, split into `Reply`
    and `Remember`.

External services are parameters: the values of a `Services` datatype. It
holds four total functions:

- document embedding;
- query embedding;
- the index search, which maps the vectors, a query vector and `k` to the
  returned labels;
- the model completion, which maps the system prompt and the user prompt
  to the reply.

`UserMemory` tracks, as ghost state, the records the transcript was written
from. Its invariant says the transcript file is exactly the lines of those
records, and every record's text is normalised. The main results are:

- reading the transcript back yields one line per record;
- retrieval over such a transcript never raises, and it returns the
  entries of the records at the valid search labels;
- the recency window shows the last `min(10, n)` records;
- hence a reply is always produced;
- one turn appends exactly two records and two vectors, keeping the n-th
  vector the embedding of the n-th record, as long as no service or file
  write fails (see "## Left out").

The code (app.py:203-204) stores the user's message and the reply on every
turn, the crisis path included, so a crisis message and the safety reply
both enter vector memory. `Memory.UserMemory.Chat` and
`Memory.CrisisTurnFromNewUser` state this.

## Model

| member | source | states |
|---|---|---|
| Text.LStripDrops | app.py:83 | left stripping removes exactly a whitespace prefix of the string, and what remains does not start with whitespace |
| Text.RStripDrops | app.py:94 | right stripping removes exactly a whitespace suffix of the string, and what remains does not end with whitespace |
| Text.Words | app.py:61 | `split()` yields non-empty words without whitespace |
| Text.WordsAtSpace | app.py:61 | whitespace separates words: splitting `a + c + b` at a whitespace character `c` gives the words of `a` and then the words of `b`, and no word spans `c` |
| Text.Normalize | app.py:61 | the normalised text has no leading, trailing or doubled spaces, no other whitespace, and no newline, so it fits on one transcript line |
| Text.JoinWordsClean | app.py:61 | joining whitespace-free words with single spaces gives normalised text |
| Text.WordsOfJoin | app.py:61 | splitting words joined by single spaces gives back the same words |
| Text.NormalizeIdempotent | app.py:61 | normalising normalised text changes nothing |
| Text.WordsKeepText | app.py:61 | the words, put together, are exactly the non-whitespace characters of the text, in order: normalisation drops only whitespace |
| Text.ContainsIff | app.py:228 | substring `in` holds exactly when the keyword occurs at some position |
| Text.LowerOfUpper | app.py:228 | with ASCII case mapping, lower-casing the upper-cased text equals lower-casing the text |
| Text.AfterFirstColon | app.py:83 | `split(":", 1)[1]` exists exactly when the line holds a colon, and is what follows the first colon |
| Text.AfterFirstColonOf | app.py:83 | for a head without a colon, `head + ":" + tail` splits to `tail` |
| Text.ReadLines | app.py:74-75 | `readlines` loses nothing (the lines concatenate back to the file) and yields no empty line |
| Text.ReadLinesOfConcat | app.py:74-75 | a file written as newline-terminated lines reads back as exactly those lines |
| Crisis.AnyContained | app.py:228 | `any(word in s ...)` holds exactly when some keyword is contained in `s` |
| Crisis.DetectCrisisIff | app.py:226-228 | a message is a crisis exactly when some keyword occurs at some position of the lower-cased message |
| Crisis.CrisisIgnoresCase | app.py:228 | ASCII upper-casing or lower-casing a message does not change its classification |
| Crisis.CrisisKeywordAnywhere | app.py:220-228 | a keyword in any ASCII letter case, with any text around it, makes the message a crisis |
| Crisis.EndMyLifeIsCrisis | app.py:220-228 | "I want to end my life" is a crisis message |
| Records.RecordLineIsLine | app.py:61-66 | a stored record is written as exactly one line, ending in its only newline |
| Records.AppendRecord | app.py:65-66 | storing a record appends its line to the transcript's lines and to the file text, and keeps all records normalised |
| Records.TranscriptLines | app.py:65-75 | the transcript written from records reads back as one line per record, in storage order |
| Records.StripRecordLine | app.py:94 | a stripped stored line is `role:` followed by the record's entry: the newline is gone, and the space after the colon is gone only when the text is empty |
| Records.RoleNameHasNoColon | app.py:66 | neither role name holds a colon |
| Records.RoleContentOfRecord | app.py:83 | the split of a stored line never raises, and it yields the text with the space that followed the colon |
| Retrieval.KeptHits | app.py:83 | kept labels are at most as many as the search returned, and all are valid line positions |
| Retrieval.KeptHitsMembers | app.py:83 | a label is kept exactly when the search returned it and `0 <= i < len(lines)` |
| Retrieval.KeptHitsAppend | app.py:83 | filtering keeps the search order |
| Retrieval.KeptHitsAllInRange | app.py:83 | when every label is in range nothing is dropped |
| Retrieval.EntriesAtOk | app.py:83 | the comprehension succeeds exactly when every kept line holds a colon |
| Retrieval.EntriesAtValues | app.py:83 | when it succeeds there is one entry per kept line, in order, each the text after that line's first colon |
| Retrieval.RetrievedTextsOfRecords | app.py:83 | on a transcript written from records the comprehension never raises and yields the entries of the records at the kept labels |
| Retrieval.RetrieveFromRecords | app.py:68-84 | `retrieve_context` over such a transcript never fails, returns at most one entry per label searched, and returns the newline-joined entries of the records at the valid labels, in search order |
| Recent.SliceStart | app.py:94 | a normalised slice start lies within the list |
| Recent.LastLinesWindow | app.py:94 | for a window size `n >= 1` the window is the last `min(n, len)` lines, stripped, in file order |
| Recent.LastLinesZero | app.py:94 | a window size of 0 shows every line, because `lines[-0:]` is the whole list |
| Recent.LastRecords | app.py:94 | the last `n` records form a suffix of length `n`, or are all records when there are fewer |
| Recent.StripRecordLines | app.py:94 | stripping each stored line gives each record as `role:` and its entry |
| Recent.LastLinesOfRecords | app.py:94 | the window over stored lines is the last records, stripped |
| Recent.RecentFromRecords | app.py:86-94 | `get_last_messages(n)` over a transcript written from records joins the last `min(n, len)` records, oldest first |
| Recent.RecentShowsAll | app.py:86-94 | a window at least as large as the transcript shows every record in storage order |
| Prompt.CrisisReply | app.py:235-240 | a crisis message gets the safety message, independent of memory and services |
| Prompt.NonCrisisReply | app.py:242-260 | any other message, over a transcript written from records, gets one model completion for the system prompt and a prompt made of the entries at the valid top-2 search labels, the last ten records, and the user's turn at its end |
| Prompt.FirstReply | app.py:242-260 | any other message from a user without a transcript gets the model's completion for the system prompt and just the user's turn |
| Prompt.PromptEndsWithUserTurn | app.py:255 | every prompt ends with `User: {input}\nChatbot:` |
| Prompt.PromptLayout | app.py:248-255 | the prompt is exactly: the relevant-context block when retrieval found something, then the recent-messages block when there are recent lines, then the user's turn; an empty part leaves no heading, so all four cases are given as equations |
| Prompt.FirstPrompt | app.py:242-255 | without a transcript the prompt is only the user's turn |
| Prompt.PromptFromRecords | app.py:242-255 | over a transcript written from records the prompt is built from the entries at the top-2 valid search labels and from the last ten records |
| Prompt.PromptNeverFails | app.py:242-255 | assembly never raises on such a transcript, nor without one |
| Prompt.GenerateNeverFails | app.py:233-260 | generation always yields a reply on such a transcript, or without one |
| Memory.VectorIndex.constructor | app.py:43 | a new index has the given dimension and vectors |
| Memory.VectorIndex.Add | app.py:63 | adding puts the vector at the next position and keeps the others |
| Memory.UserMemory.constructor | app.py:36-39 | a new user has no files and no records, so the memory is valid and aligned |
| Memory.UserMemory.LinesAreRecords | app.py:65-75 | in a valid memory the transcript reads back as one line per record |
| Memory.UserMemory.LoadIndex | app.py:41-47 | the loaded index holds the stored vectors and dimension, or is empty with dimension 768 when there is no index file |
| Memory.UserMemory.SaveIndex | app.py:49-53 | the index file then holds exactly the index |
| Memory.UserMemory.StoreMessage | app.py:55-66 | storing embeds the normalised text into the index, appends exactly one line to the transcript (creating it if missing), records the message, leaves the index file alone, and keeps the memory valid |
| Memory.UserMemory.Reply | app.py:193-194 | the loaded index has the stored vectors and dimension (768 without a file); the reply is what `generate_response` gives for the transcript and those vectors, and it always exists |
| Memory.UserMemory.Remember | app.py:203-205 | the user's message and then the reply are recorded, and the saved index has the loaded index's dimension and its vectors plus the two embeddings |
| Memory.UserMemory.Chat | app.py:186-207 | a turn replies from the memory as it was before the turn, then appends the two records and saves an index of the previous dimension (768 for a new user) with the two embeddings appended; it keeps the memory valid and each vector the embedding of its record; the crisis path included |
| Memory.FirstTurnOfNewUser | app.py:186-207 | a new user's first reply is generated with no context, and afterwards the transcript holds the message and the reply, normalised, and the index holds two vectors |
| Memory.CrisisTurnFromNewUser | app.py:186-207 | any crisis message from a new user gets the safety message, and the turn still leaves the message and the safety message, normalised, as two transcript lines, with two vectors |
| Memory.SaveThenLoad | app.py:41-53 | saving an index and loading it back gives the same dimension and vectors |

## Left out

- Memory.UserMemory.Chat: embedding, file writes and index saving are modelled as steps that never fail. In the program, a failure after the user's line is appended (app.py:203) aborts the turn before the index is saved (app.py:205). Such failures include `embed_documents` (app.py:62), the transcript write (app.py:65-66) and `write_index` (app.py:53). The transcript is then one or two lines longer than the saved index, and positions stay misaligned on later turns. The model's alignment result does not cover this.
- Text.Upper: ASCII only. Under Python's full case mapping, upper-casing can change the classification. `"I feel hopeleß".upper()` is `"I FEEL HOPELESS"`, which is a crisis message while the original is not; `ſ` and `ı` behave the same way. The case-insensitivity lemmas are about the ASCII mapping.
- Flask routes, login, registration and bcrypt are not modelled. They are not part of the memory logic.
- The MongoDB chat log (app.py:197-202) and the `chat_history` route are not modelled. No property of the memory depends on them.
- `get_user_files` and file paths are not modelled. One `UserMemory` object stands for the files of one logged-in user. The `if not text_file` / `if index_file` guards always pass for generated paths, so they are left out.
- Embedding, FAISS search and the ollama call are parameters of the `Services` datatype. Their internals are not modelled.
- Retrieval.RetrieveFromRecords: the bound of at most `top_k` entries holds only as far as the search returns at most `top_k` labels. The model proves at most one entry per label returned.
- The index's dimension is recorded, but vector lengths are not checked against it.
- Text.Lower: lower-cases ASCII letters only, because Python's full Unicode case mapping is out of scope. Keywords are ASCII, so only messages whose non-ASCII characters lower-case to ASCII letters could be classified differently.
- Text.ReadLines: splits at `'\n'` only. Universal-newline translation of `"\r\n"` and `"\r"` is not modelled. Stored lines never contain either, because normalisation removes all whitespace except single spaces.
- Text.IsSpace: covers the ASCII whitespace and the Unicode space characters that Python's `str.isspace` accepts, as a fixed list of code points.
- Real-valued vectors are uninterpreted `seq<real>`. float32 conversion is not modelled.
- `format_text`, the `print` of the recent messages, and the debug server start are not modelled. They do not affect any result.
- The default arguments `top_k=3` and `num_lines=4` are never used by the code. The model uses the values the code passes, 2 and 10.
- Concurrent turns of the same user are not modelled. Each turn reads and writes the files in sequence.
- Memory.FirstTurnOfNewUser covers one turn. Longer conversations follow from `Memory.UserMemory.Chat`'s contract applied turn by turn.
