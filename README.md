# text2concept core, modelled in Dafny

This project models the pipeline that turns documents into a concept graph.
It has four parts:

- **Chunking.** The base chunker first cleans its inputs: every input becomes a
  string, and placeholders such as `None`, `nan` and blank documents are dropped.
  The simple chunker then packs whole documents greedily into chunks by a running
  word count.
- **Extraction.** The concept extractor sends one prompt per chunk to the language
  model. It cleans each answer, reads it as a Python literal and tags every
  dictionary of a list answer with the text and id of its chunk. Any answer whose
  handling raises counts as an error and is skipped.
- **Validation.** The concept validator turns every concept into a yes/no
  statement. The statement validator asks the model about each statement. The
  answers are written back into the concepts as `valid` and `explanation`.
- **The model wrapper.** It checks the model name against an allow-list and
  chooses AWQ quantization from the name. It builds the chat conversation for every
  prompt and strips the generated texts. Leaving its `with` block suppresses
  exceptions.

## Modelling approach

Operations that change an object's fields are methods of Dafny classes:

- `SimpleChunker`
- `Builder`
- `StatementValidator`
- `Extractor`
- `ConceptValidator`

Each such method is proved against a specification function. Four of those
functions are:

- `ChunksOf`, the chunker's output;
- `Responses`, the model's stripped answers;
- `ParseAll`, the concepts and error count read from the answers;
- `MergeAnswers`, the validator's results.

The specification functions are then related by lemmas to independent
descriptions. For example, `Grouped` describes the chunker by groups of
documents. Python values are the `Value` datatype. Dictionaries are ordered
key–value lists, as Python's are.

Calls into code outside the core become parameters:

- `ast.literal_eval` is `parse: string -> Option<Value>`; `None` stands for a
  raised exception.
- The tokenizer's chat template is `ChatTemplate`.
- vLLM's generation is `Engine`.
- `uuid4()` is `uuids: nat -> Uuid`; the k-th emitted chunk gets `uuids(k)`.
- `PUNCTUATIONS` is a `set<char>` parameter.

### Quirks of the code

The model does what the code does in each of these cases.

- **Trigger document.** The docstring of `chunk_text` says that a document
  exceeding the chunk size is added to the current chunk
  (`text_chunker/text_chunker.py:18-19`). The loop instead flushes the current
  chunk on that document and never appends the document itself, so it is lost
  (`text_chunker/text_chunker.py:36-46`). See `TextChunker.TriggerDocumentIsLost`.
- **Stored size.** The `DataChunk` docstring calls `size` the number of words in
  the chunk (`text_chunker/base_chunker.py:14`). The chunker stores
  `len(text.split(" "))` of the joined text (`text_chunker/text_chunker.py:40, 60`),
  while its running count adds `len(doc.strip().split(" "))` per document (line 55).
  Documents are concatenated with no separator, so two stripped documents give a
  stored size one less than the running count. See `TextChunker.SizeDiffersFromCounter`.
- **Appending a period.** The comment at `text_chunker/text_chunker.py:50` says a
  period is added to a document without closing punctuation. The expression
  `doc + ". "` on line 52 is computed and discarded, so the check has no effect.
- **Answer counts.** `StatementValidator.validate` writes answer `idx` into entry
  `idx` (`utils/validators.py:45-50`). Fewer answers than statements leave the
  remaining entries unanswered, with no error. More answers raise `IndexError`.
  `ConceptValidator.validate` calls it outside its `try`
  (`concept_extractor/concept_extractor.py:123`), so that error propagates.

## Model

| member | source | states |
|---|---|---|
| BaseChunker.FilterDocs | text_chunker/base_chunker.py:38-39 | a document is kept exactly when it is one of the inputs and its stripped form is not `'None'`, `''`, `'nan'` or `'NaN'`; the list never grows |
| BaseChunker.KeptDocsAreVisible | text_chunker/base_chunker.py:38-39 | every kept document has a non-empty stripped form, so the chunker's `doc.strip()[-1]` always exists |
| BaseChunker.FilterAppend | text_chunker/base_chunker.py:38-39 | the filter keeps the documents' order: filtering `a + b` gives filtered `a` followed by filtered `b` |
| BaseChunker.FilterIdempotent | text_chunker/base_chunker.py:38-39 | cleaning already cleaned documents changes nothing |
| BaseChunker.InputAppend | text_chunker/base_chunker.py:37-39 | one more input adds its cleaned `str()` form at the end of the documents |
| BaseChunker.PlaceholderWordDropped | text_chunker/base_chunker.py:39 | the strings `'None'` and `'nan'` are filtered out |
| BaseChunker.PlaceholderInputDropped | text_chunker/base_chunker.py:37-39 | a `None` input or a NaN float input leaves the documents unchanged |
| BaseChunker.StringInputKept | text_chunker/base_chunker.py:37-39 | a string input that is not a placeholder is kept verbatim, at the end |
| TextChunker.Step | text_chunker/text_chunker.py:34-55 | below the chunk size the document is appended to the open text and its word count added; at or above it the open text is emitted, the text and count are reset, and the document itself is dropped; emitted chunks are never changed |
| TextChunker.Feed | text_chunker/text_chunker.py:34-55 | the loop emits at most one chunk per document |
| TextChunker.Close | text_chunker/text_chunker.py:57-62 | the final step keeps the emitted chunks and adds at most one more, never with empty text |
| TextChunker.ChunkTexts | text_chunker/text_chunker.py:31-63 | there are never more chunks than documents |
| TextChunker.WordsIn | text_chunker/text_chunker.py:55 | every document adds at least 1 to the running count |
| TextChunker.SplitSize | text_chunker/text_chunker.py:40 | a stored chunk size is at least 1 |
| TextChunker.Label | text_chunker/text_chunker.py:38-41 | the k-th emitted text becomes the k-th chunk, with id `uuids(k)`, that text, and `len(text.split(" "))` as its size |
| TextChunker.FeedOnlyAppends | text_chunker/text_chunker.py:34-55 | the loop never changes a chunk it has already emitted; it only appends |
| TextChunker.FeedIsGrouped | text_chunker/text_chunker.py:34-62 | from any loop state, the emitted texts equal the group description continued from that state |
| TextChunker.ChunkTextsAreGrouped | text_chunker/text_chunker.py:31-63 | the emitted texts are exactly the groups: documents join while the count is below the chunk size, the next one is dropped, and a final non-empty group is emitted |
| TextChunker.ChunksAreNonEmpty | text_chunker/text_chunker.py:57-62 | with a positive chunk size and non-empty documents, no emitted chunk has empty text |
| TextChunker.NonPositiveSizeDropsEverything | text_chunker/text_chunker.py:36-46 | with a chunk size of zero or less, every document is dropped, giving one empty chunk of size 1 per document |
| TextChunker.CountOf | text_chunker/text_chunker.py:55 | a stripped document made of n space-free words counts n, and its stored size is n too |
| TextChunker.TriggerDocumentIsLost | text_chunker/text_chunker.py:36-46 | when the first document reaches the chunk size, the second is dropped and the third opens the next chunk: the texts are `[d1, d3]` |
| TextChunker.TriggerExample | text_chunker/text_chunker.py:36-55 | `["a b", "c", "d"]` with chunk size 2 gives the texts `["a b", "d"]` |
| TextChunker.TwoDocsOneChunk | text_chunker/text_chunker.py:48-55 | two documents whose count stays below the chunk size make one chunk, their concatenation, with the summed count |
| TextChunker.SizeDiffersFromCounter | text_chunker/text_chunker.py:54-60 | for two stripped documents below the chunk size, the stored size is the running count minus one |
| TextChunker.SimpleChunker.constructor | text_chunker/base_chunker.py:37-41 | the documents are the cleaned `str()` forms of the inputs; there are no chunks yet |
| TextChunker.SimpleChunker.ChunkText | text_chunker/text_chunker.py:15-63 | the greedy loop returns `ChunksOf(docs, chunkSize, uuids)` |
| TextChunker.SimpleChunker.GetOutput | text_chunker/base_chunker.py:60-71 | stores the chunks of the documents and returns them |
| CustomLlm.ResolveModel | utils/custom_llm.py:40-48 | the loaded model is always allowed; an allowed name is kept, any other becomes the Phi-3 default |
| CustomLlm.Quantization | utils/custom_llm.py:53 | the quantization is either none or `"AWQ"` |
| CustomLlm.QuantizationIffAwqPiece | utils/custom_llm.py:53 | AWQ is chosen exactly when `awq` stands between dashes or the ends of the lower-cased name |
| CustomLlm.NoWNoQuantization | utils/custom_llm.py:53 | a name with no `w` in either case is never quantized |
| CustomLlm.AwqModelIsQuantized | utils/custom_llm.py:44-53 | `Sreenington/Phi-3-mini-4k-instruct-AWQ` is loaded with AWQ |
| CustomLlm.OtherModelsAreNotQuantized | utils/custom_llm.py:40-53 | the first four allowed models are loaded without quantization |
| CustomLlm.OnlyTheAwqModelIsQuantized | utils/custom_llm.py:40-53 | of the allowed models, exactly the AWQ build is quantized |
| CustomLlm.DefaultModelNotQuantized | utils/custom_llm.py:46-53 | the default model is loaded without quantization |
| CustomLlm.FewShotTurns | utils/custom_llm.py:101-104 | each example becomes a user turn followed by the expected assistant turn, flattened in order |
| CustomLlm.Conversation | utils/custom_llm.py:108-109 | a conversation is the system prompt as a user turn, then the acknowledgement, then the example turns, then the text as the last user turn |
| CustomLlm.ConversationAlternates | utils/custom_llm.py:101-109 | the turns alternate user/assistant, starting and ending with a user turn |
| CustomLlm.Prompts | utils/custom_llm.py:106-118 | one rendered prompt per text, in order: the template applied to that text's conversation |
| CustomLlm.StripAll | utils/custom_llm.py:156 | one result per generated output, each the output stripped |
| CustomLlm.ResponsesAreStripped | utils/custom_llm.py:156 | stripping a response again changes nothing |
| CustomLlm.OneResponsePerText | utils/custom_llm.py:153-156 | an engine that answers every prompt once gives one response per text |
| CustomLlm.PromptList | utils/custom_llm.py:146-147 | a single prompt that is not a list is wrapped into a one-element list |
| CustomLlm.Builder.constructor | utils/custom_llm.py:16-72 | keeps the prompts, examples and timeout; the model is the resolved name; the quantization follows from that name; the model is loaded |
| CustomLlm.Builder.CreatePrompts | utils/custom_llm.py:94-118 | the loop renders exactly `Prompts(...)`: one conversation per text |
| CustomLlm.Builder.BatchPredict | utils/custom_llm.py:133-158 | returns the stripped engine outputs for the prompts of the (wrapped) argument |
| CustomLlm.Builder.Predict | utils/custom_llm.py:120-131 | the first response to the one prompt; `IndexError` when the engine returns none |
| CustomLlm.Builder.Exit | utils/custom_llm.py:77-92 | releases the model and returns `True`, suppressing any exception |
| Validators.Unanswered | utils/validators.py:22-25 | one entry per statement, holding it, with no explanation and not valid |
| Validators.ValidationPrompts | utils/validators.py:40-41 | prompt i is the user prompt followed by statement i |
| Validators.OneAnswerPerStatement | utils/validators.py:38-43 | an engine that answers every prompt once gives one answer per statement |
| Validators.Record | utils/validators.py:45-50 | recording an answer keeps the statement, stores the answer as the explanation, and makes the entry valid when the answer contains `"Yes"`; an entry already valid stays valid, and no other answer makes it valid |
| Validators.MergeAnswers | utils/validators.py:45-50 | entry i takes answer i as its explanation and becomes valid when the answer contains `"Yes"`; entries without an answer are unchanged; statements are kept |
| Validators.MergeIsIndexwise | utils/validators.py:45-50 | any list updated entry by entry with the answers equals the merge |
| Validators.FreshValidIffYes | utils/validators.py:22-50 | on fresh results, entry i is valid exactly when answer i exists and contains `"Yes"`, and its explanation is that answer |
| Validators.MergeIdempotent | utils/validators.py:45-50 | recording the same answers twice gives the same results as once |
| Validators.StatementValidator.constructor | utils/validators.py:7-25 | the statements are the `str()` of the inputs; the results are unanswered |
| Validators.StatementValidator.Validate | utils/validators.py:27-52 | the results become the merge of the model's answers; more answers than statements give `IndexError`, after every entry is updated |
| Validators.StatementValidator.RecordAnswers | utils/validators.py:45-52 | the loop records answer `idx` into entry `idx`, and fails with `IndexError` at the first answer with no entry |
| ConceptExtractor.UserPrompt | concept_extractor/concept_extractor.py:77-78 | the prompt holds the chunk text between code fences and ends with `output: ` |
| ConceptExtractor.UserPrompts | concept_extractor/concept_extractor.py:77-78 | one user prompt per chunk, in order |
| ConceptExtractor.Clean | concept_extractor/concept_extractor.py:43 | cleaning never lengthens an answer |
| ConceptExtractor.CleanFencedAnswer | concept_extractor/concept_extractor.py:43 | an answer wrapped in a ```` ```python ```` fence, whose body holds neither a fence nor `output:`, is cleaned to its stripped body |
| ConceptExtractor.CleanPlainAnswer | concept_extractor/concept_extractor.py:43 | an answer without `output:` and without fences is only stripped |
| ConceptExtractor.Tag | concept_extractor/concept_extractor.py:49-50 | a tagged dictionary maps `originating_text` to the chunk's text and `originating_chunk_id` to its id |
| ConceptExtractor.TagOther | concept_extractor/concept_extractor.py:49-50 | tagging leaves every other key as it was |
| ConceptExtractor.TagAll | concept_extractor/concept_extractor.py:47-50 | a list answer can be tagged exactly when all its items are dictionaries, and then each item is tagged in place |
| ConceptExtractor.Contribution | concept_extractor/concept_extractor.py:42-56 | an answer contributes only when its cleaned text is a literal; a list answer contributes one concept per item; a dictionary answer contributes its keys, as `extend` does |
| ConceptExtractor.DictAnswerCannotBeValidated | concept_extractor/concept_extractor.py:44-120 | a single answer that is a dictionary with string keys yields its keys as the concepts, with no error; validating them then fails with `TypeError`, because a string cannot be indexed by `'node_1'` |
| ConceptExtractor.ListConceptsAreTagged | concept_extractor/concept_extractor.py:42-56 | every concept contributed by a list answer at `idx` is a dictionary tagged with chunk `idx`, which exists |
| ConceptExtractor.ParseAll | concept_extractor/concept_extractor.py:37-60 | the error count is at most the number of answers |
| ConceptExtractor.NoErrorsIffAllContribute | concept_extractor/concept_extractor.py:40-56 | the error count is zero exactly when every answer is handled without raising |
| ConceptExtractor.ParsePrefix | concept_extractor/concept_extractor.py:52 | concepts are only appended: those of the first k answers are a prefix of all concepts |
| ConceptExtractor.ConceptsOfListAnswersAreTagged | concept_extractor/concept_extractor.py:40-52 | when every literal answer is a list, every concept is a dictionary tagged with the text and id of some chunk |
| ConceptExtractor.Extractor.constructor | concept_extractor/concept_extractor.py:12-23 | keeps the chunks; no concepts yet |
| ConceptExtractor.Extractor.TagItems | concept_extractor/concept_extractor.py:47-50 | the tagging loop gives `TagAll`, an empty list for an empty answer, and fails when the chunk is missing |
| ConceptExtractor.Extractor.ParseResults | concept_extractor/concept_extractor.py:25-60 | the loop returns exactly the concepts and error count of `ParseAll` |
| ConceptExtractor.Extractor.ExtractConcepts | concept_extractor/concept_extractor.py:62-82 | the concepts are those read from the default model's answers to the chunks' prompts, under the extraction system prompt |
| ConceptExtractor.Extractor.AskAndParse | concept_extractor/concept_extractor.py:75-82 | the `with` block: the concepts are those read from the answers under the given system prompt |
| ConceptExtractor.Extractor.GetOutput | concept_extractor/concept_extractor.py:84-94 | extracts, stores and returns the concepts |
| ConceptExtractor.Statement | concept_extractor/concept_extractor.py:119-120 | a statement exists exactly for a dictionary with `node_1`, `node_2`, `relation` and `originating_text`; otherwise `KeyError` for a dictionary, `TypeError` for anything else |
| ConceptExtractor.StatementTextFraming | concept_extractor/concept_extractor.py:119 | a statement starts with the backquoted first node and ends with the fenced originating text |
| ConceptExtractor.Statements | concept_extractor/concept_extractor.py:119-120 | the statements exist exactly when every concept has one, and then there is one per concept, in order |
| ConceptExtractor.StatementsFailAtFirst | concept_extractor/concept_extractor.py:119-120 | a failure carries the error of the first concept with no statement |
| ConceptExtractor.AllHaveStatements | concept_extractor/concept_extractor.py:119-127 | when the statements exist, every concept is a dictionary, so the write-back's item assignment succeeds |
| ConceptExtractor.Annotate | concept_extractor/concept_extractor.py:127-132 | an annotated concept is still a dictionary |
| ConceptExtractor.AnnotateSpec | concept_extractor/concept_extractor.py:127-132 | `valid` is the verdict's validity (`False` without a verdict); `explanation` is its explanation (`None` without one) |
| ConceptExtractor.AnnotateOther | concept_extractor/concept_extractor.py:127-132 | the write-back leaves every other key of a concept as it was |
| ConceptExtractor.AnnotateAll | concept_extractor/concept_extractor.py:125-135 | concept i is annotated with verdict i when there is one, and with the defaults otherwise |
| ConceptExtractor.ValidatedConcept | concept_extractor/concept_extractor.py:111-137 | after validation, concept i is valid exactly when answer i exists and contains `"Yes"`, and its explanation is that answer or `None` |
| ConceptExtractor.ConceptValidator.constructor | concept_extractor/concept_extractor.py:98-109 | keeps the concepts |
| ConceptExtractor.ConceptValidator.Validate | concept_extractor/concept_extractor.py:111-137 | a missing key or a non-dictionary raises before anything changes; surplus answers raise `IndexError`, with the concepts unchanged; otherwise every concept is annotated with its verdict and the list is returned |
| ConceptExtractor.ConceptValidator.ValidateStatements | concept_extractor/concept_extractor.py:122-137 | the same, once the statements are built, for given prompts |
| ConceptExtractor.ConceptValidator.WriteBack | concept_extractor/concept_extractor.py:125-135 | the loop annotates concept `idx` with verdict `idx`, if any |
| PyStr.StripSpec | text_chunker/base_chunker.py:39 | `strip()` returns a substring; it is empty exactly for an all-blank string; otherwise its first and last characters are not blank |
| PyStr.StripIdempotent | utils/custom_llm.py:156 | stripping twice is stripping once |
| PyStr.Contains | utils/validators.py:49 | `p in s` holds exactly when `p` occurs at some position of `s` |
| PyStr.Replace | concept_extractor/concept_extractor.py:43 | a string without the pattern is unchanged; replacing by something no longer never lengthens |
| PyStr.ReplaceLeftToRight | concept_extractor/concept_extractor.py:43 | when no occurrence of the pattern starts before a given one, that occurrence is replaced and the scan continues after it |
| PyStr.Split | utils/custom_llm.py:53 | `split` always returns at least one piece |
| PyStr.SplitPiecesLackSep | utils/custom_llm.py:53 | no piece contains the separator |
| PyStr.JoinSplit | text_chunker/text_chunker.py:40 | joining the pieces of `s.split(sep)` with `sep` gives back `s` |
| PyStr.SplitJoin | text_chunker/text_chunker.py:55 | splitting a join of separator-free pieces gives back the pieces |
| PyStr.SplitLengthConcat | text_chunker/text_chunker.py:40 | the pieces of `a + b` number those of `a` plus those of `b` minus one |
| PyStr.PieceIffDelimited | utils/custom_llm.py:53 | a separator-free word is a piece exactly when it is the whole string, starts it, ends it, or stands between separators |
| PyStr.Lower | utils/custom_llm.py:53 | lower-casing maps each character on its own and keeps the length |
| PyValue.Get | concept_extractor/concept_extractor.py:49-50 | a lookup succeeds exactly for a present key and returns a stored pair |
| PyValue.SetItem | concept_extractor/concept_extractor.py:49-50 | `d[k] = v` stores the pair `(k, v)`; the dictionary grows by one entry exactly when `k` was absent |
| PyValue.SetItemGet | concept_extractor/concept_extractor.py:49-50 | after `d[k] = v`, `d[k]` is `v` |
| PyValue.SetItemOther | concept_extractor/concept_extractor.py:49-50 | `d[k] = v` leaves every other key's value as it was |
| PyValue.SetItemKeys | concept_extractor/concept_extractor.py:49-50 | `d[k] = v` keeps the key order, adding a new key last |
| PyValue.Subscript | concept_extractor/concept_extractor.py:119 | `v[key]` succeeds exactly on a dictionary holding the key; otherwise `KeyError` for a dictionary, `TypeError` for anything else |
| PyValue.Elements | concept_extractor/concept_extractor.py:52 | `extend` accepts exactly lists, tuples, dictionaries and strings; it appends a list's or tuple's items, a dictionary's keys in order, and a string's characters |
| PyValue.Str | text_chunker/base_chunker.py:37 | `str()` of a string is the string itself |
| PyValue.ToStrings | text_chunker/base_chunker.py:37 | one string per input; string inputs come through unchanged |

## Left out

- The model is loaded through vLLM's engine and the tokenizer's chat template. These
  are foreign code and are function parameters (`Engine`, `ChatTemplate`). The engine
  receives the model name and the quantization. Its `dtype`, parallelism and
  sampling settings are not modelled.
- GPU and process-group cleanup in `__exit__` (`destroy_model_parallel`, `gc`, the
  CUDA cache) is not modelled. It is foreign resource management. `Exit` only
  records that the model is released.
- `print` calls are left out: the quantization notice, the cleanup messages and the
  error count. The error count is returned by `ParseResults` as an out-parameter
  instead.
- `ast.literal_eval` is the `parse` parameter. Its grammar is not modelled. Set and
  bytes literals are not in `Value`.
- `uuid4()` is the `uuids` parameter. Randomness is not modelled, and the ids are
  not proved distinct.
- `PUNCTUATIONS` (in `utils/constants.py`, which is not part of this model) is a
  parameter. The check it guards has no effect on the result.
- `utils/helpers.py` (graph rendering) is not part of this model.
- The abstract `chunk_text` of the base chunker returns `NotImplementedError`. It is
  not modelled: only the simple chunker's override is ever used.
- `max_timeout_per_request` is stored by `Builder.constructor`. Nothing reads it.
- The `with` statement's suppression of exceptions from its body has no modelled
  effect. The modelled bodies are total and never raise.
- CustomLlm.Builder.BatchPredict: a non-list argument is modelled only as a single
  string (`PromptArg.One`). Other non-list values are not.
- CustomLlm.Builder.Predict: the model requires `loaded`. Calling it after
  `__exit__`, which fails in the source, is excluded.
- CustomLlm.Builder.Exit: the model requires `loaded`. A second `__exit__`
  fails in the source with `AttributeError`, because the first deleted the
  engine and the model (`utils/custom_llm.py:82, 85`); that failure is excluded.
- PyStr.Lower: only ASCII letters are lower-cased. Every allowed model name is
  ASCII.
- PyValue.Repr: quotes strings without escaping backslashes or control characters.
  It is used for `str()` of non-string values: the chunker's non-string inputs,
  and non-string concept fields formatted into statements
  (`concept_extractor/concept_extractor.py:119`).
- PyValue.Get: dictionary keys are compared as Dafny values. So `1 == 1.0 == True`,
  which Python treats as one key, are different keys here. Duplicate keys in a
  literal are kept as written; Python keeps the last value.
- ConceptExtractor.ConceptValidator.Validate: the concepts are values. The model does
  not capture that Python updates the dictionaries the extractor returned in place,
  or that an aliased dictionary is updated once per occurrence.
