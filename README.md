# CtrlPass core, modelled in Dafny

CtrlPass is a study assistant. It loads course documents, splits them into
chunks that suit the kind of question asked, answers questions over a
knowledge base and generates exercises from a document. This project models
the decision logic behind those features:

- **Adaptive chunker** (`text.dfy`, `smart_splitter.dfy`).
  - The question-type strategy table and its `factual` fallback.
  - The code-block scanner (non-greedy fenced blocks).
  - The density formula.
  - The three compounding rules of `adjust_strategy`.
  - The paragraph-mode and code-mode loops of `split_text`.
  - `get_split_info`.
- **Exercise extraction** (`exercise_generator.dfy`, `json_value.dfy`).
  - The blank-content check and the status check.
  - The slice from the first `{` to the last `}`.
  - The payload checks and the per-item validation loop.
  - The reparse after collapsing newlines.
  - Every failure turns into `[]`.
- **QA orchestration** (`qa_chain.dfy`).
  - The instruction-block table and the prompt composition.
  - The object that lazily creates, reuses and resets its retrieval chain.
  - The success and error answers, and how sources are packaged.
- **Loader dispatch** (`document_processor.dfy`): POSIX `splitext`, then lowercasing, then the choice among three loaders.
- **Intents conversion** (`intents_to_chatml.dfy`): the nested loop that turns intents into two-message chat records. It stops at the `IndexError` of an intent that has patterns but no responses.

## Outside calls and data

Calls into outside code are **parameters** of the model:

- The language-model API of the exercise generator: `api: string -> ApiReply`.
- `json.loads`: `decode: string -> Option<Json>`.
- The retrieval chain: `run: ChainRun`. It answers with `(answer, source_documents)` or raises.

The analyzers' sentence statistics and the technical-term match count are **inputs** to the analysis. `sent_tokenize`, numpy and the regex engine are not modelled.

Chunk sizes and overlaps are `real`, so the multipliers 1.5, 1.2 and 1.3 are exact.

## Behaviour of the code worth knowing

**Blank text raises.** On blank text (the empty string included), `split_text` and `get_split_info` raise instead of returning an empty list of chunks. The cause is `max()` over an empty length list in the sentence and paragraph analyzers. `SmartSplitter.SplitText` returns `AnalysisRaised` in exactly that case.

**No overlap clamp.** `adjust_strategy` never clamps the overlap to the chunk size. `SmartSplitter.AdjustedTableBounds` proves that for every table entry the adjusted overlap stays below the adjusted size, so no clamp is needed for the built-in strategies.

**Unvalidated fallback.** When the sliced JSON does not decode, `generate_exercises` reparses the whole reply with its newlines turned into spaces and returns that `exercises` value without validating its items. `ExerciseGenerator.FallbackSkipsValidation` exhibits an item that the main path would have dropped.

**Chain creation.** `answer_question` checks for a vector store and returns an error answer when there is none, so its later "cannot create the chain" branch is unreachable. The model asserts as much. `_create_qa_chain` runs before the `try` block of `answer_question`, so an exception raised by `ConversationalRetrievalChain.from_llm` would escape uncaught; the model takes that call to succeed (see `QaChain.QAChain.AnswerQuestion` under "Left out").

## Model

| member | source | states |
|---|---|---|
| Text.Strip | utils/exercise_generator.py:42 | the result is a slice of the text with only whitespace outside it, and neither starts nor ends with whitespace; it is empty exactly when the text is blank |
| Text.Find | utils/exercise_generator.py:95 | `-1` exactly when the character is absent; otherwise the index of its first occurrence |
| Text.RFind | utils/exercise_generator.py:96 | `-1` exactly when the character is absent; otherwise the index of its last occurrence |
| Text.SplitOn | utils/smart_splitter.py:195 | `str.split` on a separator yields at least one part; joining the parts with the separator gives back the text; every cut is at the first separator after the previous cut (no part but the last, followed by the separator, holds an earlier occurrence), and the last part holds none |
| Text.Join | utils/smart_splitter.py:203 | `sep.join(parts)`: the parts with the separator between each two neighbours; it has no contract of its own, and `Text.SplitOn` and `Text.JoinLength` state what it computes |
| Text.JoinLength | utils/smart_splitter.py:203 | `sep.join(parts)` holds every character of the parts plus one separator between each two neighbours |
| Text.ReplaceChar | utils/exercise_generator.py:146 | `str.replace` of one character keeps the length and replaces exactly the matching positions |
| Text.ToLower | utils/document_processor.py:20 | lowercasing maps every character in place and keeps the length |
| Text.WordCount | utils/smart_splitter.py:106 | `len(text.split())` is zero exactly when the text is blank |
| Text.WordCountSplit | utils/smart_splitter.py:106 | a whitespace character separates words: the count of `a + [c] + b` is the count of `a` plus the count of `b` |
| Text.WordCountOfWord | utils/smart_splitter.py:106 | a non-empty run without whitespace counts as exactly one word |
| SmartSplitter.BaseStrategy | utils/smart_splitter.py:171-174 | a known type gets its table entry, an unknown type the `factual` entry (300, 50, sentence); every entry has 0 < overlap < size <= 1000 and is never code mode |
| SmartSplitter.UnknownTypeIsFactual | utils/smart_splitter.py:27-32 | an unknown question type gets the same strategy as `"factual"`, namely (300, 50, sentence) |
| SmartSplitter.TechnicalDensity | utils/smart_splitter.py:104-111 | the density is zero when the text has no words; otherwise density × word count = match count |
| SmartSplitter.NonBlankLengths | utils/smart_splitter.py:87 | the list of non-blank paragraph lengths is empty exactly when every paragraph is blank |
| SmartSplitter.NoParagraphLengthsIffBlank | utils/smart_splitter.py:86-90 | the paragraph analyzer's list is empty, so `max()` raises, exactly when the whole text is blank |
| SmartSplitter.NextBlock | utils/smart_splitter.py:115 | a match opens with a fence at or after the start point, and closes with a fence starting at least three characters later |
| SmartSplitter.NextBlockIsLeftmostShortest | utils/smart_splitter.py:115 | the match opens at the first fence and closes at the nearest possible closing fence; no match exactly when no such pair of fences exists |
| SmartSplitter.BlocksAreMinimal | utils/smart_splitter.py:115 | every block `findall` returns opens and closes with a fence, is at least 6 long, and holds no fence strictly inside |
| SmartSplitter.BlocksFrom | utils/smart_splitter.py:115 | every block found starts with a fence and is at least 6 characters long |
| SmartSplitter.PartsFrom | utils/smart_splitter.py:219 | `re.split` with the capturing pattern yields 2k+1 parts for k blocks, and the parts concatenate to the scanned text |
| SmartSplitter.PartsHoldBlocks | utils/smart_splitter.py:219 | the odd-numbered parts of the split are exactly the blocks `findall` returns, in order |
| SmartSplitter.SplitPartsShape | utils/smart_splitter.py:219 | over the whole text: 2k+1 parts, the k blocks at odd positions, and the parts concatenate to the text |
| SmartSplitter.OddPartsOpenWithFence | utils/smart_splitter.py:219-222 | every odd-numbered part starts with a fence, so the loop treats it as a code block |
| SmartSplitter.BlocksFit | utils/smart_splitter.py:119 | the blocks together are never longer than the text, so the code ratio is at most 1 |
| SmartSplitter.AnalyzeCodeBlocks | utils/smart_splitter.py:113-120 | `has_code` holds exactly when a block is found; the count is the number of blocks; the ratio lies between 0 and 1 |
| SmartSplitter.CodeRatioValue | utils/smart_splitter.py:119 | the ratio is the total length of the blocks divided by the length of the text, and 0 for the empty text |
| SmartSplitter.AnalyzeText | utils/smart_splitter.py:122-127 | the analysis raises exactly when the text is blank; otherwise `has_code` holds exactly when a fenced block exists, and the ratio and density are in range |
| SmartSplitter.Adjust | utils/smart_splitter.py:129-159 | the split mode becomes code exactly when code is found; the overlap changes only above 0.1 density, and then to min(overlap×1.5, 300); with code the size is at least 1000 |
| SmartSplitter.AdjustWithoutTriggers | utils/smart_splitter.py:131-157 | when no rule fires, the adjusted strategy equals the strategy given; the caller's value is never touched |
| SmartSplitter.AdjustedTableBounds | utils/smart_splitter.py:134-157 | for any table entry: 0 < overlap <= 300 and overlap < size; without code the size stays between the base size and 2000, and at most 1500 after the density rule; with code it lies between 1000 and 2600 |
| SmartSplitter.RulesApplyInOrder | utils/smart_splitter.py:134-157 | for every strategy and feature vector the size rules compound in order: code gives max(size×1.3, 1000) of the size the first two rules left; density gives min(size×1.2, 1500) of the size the sentence rule left, and leaves it alone at or below 0.1; long sentences give min(size×1.5, 2000) of the table size, and short ones leave it |
| SmartSplitter.RulesCompound | utils/smart_splitter.py:134-157 | the rules act in order on the already-adjusted size: summary with long sentences, dense terms and code yields (1950, 150, code) |
| SmartSplitter.AddParagraph | utils/smart_splitter.py:200-208 | one iteration keeps the loop state consistent: a paragraph that does not fit closes the pending group (if any) and starts a new one; a paragraph that fits joins the pending group |
| SmartSplitter.CloseLastGroup | utils/smart_splitter.py:210-211 | closing the pending group after the last paragraph yields a well-formed grouping of all the paragraphs, with at least one chunk when there was a paragraph |
| SmartSplitter.GroupParagraphs | utils/smart_splitter.py:196-211 | the chunks come from consecutive groups that partition the paragraphs in order; each chunk is its group joined by a blank line; a group of two or more paragraphs fits the size; each group closed because the next paragraph overflowed it; at least one chunk when there is a paragraph |
| SmartSplitter.SplitByParagraph | utils/smart_splitter.py:195-211 | paragraph mode yields at least one chunk, the chunks group the `'\n\n'` paragraphs as above, and joining the chunks with `'\n\n'` gives back the text |
| SmartSplitter.EmitCodeParts | utils/smart_splitter.py:221-241 | when the odd parts open with a fence, the loop emits exactly the parts, empty ones included |
| SmartSplitter.SplitByCode | utils/smart_splitter.py:212-241 | code mode yields exactly the `re.split` parts: 2k+1 chunks for k blocks, concatenating to the text |
| SmartSplitter.AdjustedStrategy | utils/smart_splitter.py:171-180 | an adjusted strategy exists exactly when the analysis does not raise, i.e. the text is not blank |
| SmartSplitter.SplitText | utils/smart_splitter.py:161-243 | raises exactly on blank text; sentence mode hands the adjusted size and overlap to the library splitter; paragraph mode is lossless under `'\n\n'`; code mode is chosen exactly when a block exists and yields the `re.split` parts (at least 3) |
| SmartSplitter.GetSplitInfo | utils/smart_splitter.py:245-276 | raises exactly on blank text; otherwise reports the table strategy, the features, the strategy adjusted from those two, and the split itself: delegated in sentence mode, chunks that join back to the text in paragraph mode, exactly the `re.split` parts in code mode |
| ExerciseGenerator.PromptLayout | utils/exercise_generator.py:50 | the prompt is the template head, then the content unchanged, then the template tail |
| ExerciseGenerator.JsonSlice | utils/exercise_generator.py:95-102 | no slice exactly when the reply has no `{` (a missing `}` never takes that branch); the slice is empty exactly when the last `}` comes before the first `{`; otherwise it starts at the first `{` and runs to the last `}` inclusive |
| ExerciseGenerator.Cleaned | utils/exercise_generator.py:146 | the cleaned reply is a slice of the reply with its newlines turned into spaces, with only whitespace outside the slice and none at its ends; it holds no newline |
| ExerciseGenerator.IsValidExercise | utils/exercise_generator.py:120-131 | an item is kept when it is a dictionary with `question`, `type`, `answer` and `explanation`, and also `options` when its type is the multiple-choice tag |
| ExerciseGenerator.ExercisesOf | utils/exercise_generator.py:111 | `exercises_data.get("exercises", [])`: the stored value when the key is present, otherwise the empty list |
| JsonValue.Truthy | utils/exercise_generator.py:113 | Python truthiness of a decoded value, as `if not exercises` and `if exercises` test it: `None`, `False`, zero, the empty string, list and dictionary are false |
| ExerciseGenerator.FilterValid | utils/exercise_generator.py:118-133 | only valid items survive; an item survives exactly when it is in the list and valid; the result is never longer than the list |
| ExerciseGenerator.KeptIndices | utils/exercise_generator.py:119-133 | the positions of the surviving items are increasing, valid, and include every valid position |
| ExerciseGenerator.FilterKeepsPositions | utils/exercise_generator.py:118-133 | the validated list is the order-preserving subsequence of the items at the kept positions, each item unmodified |
| ExerciseGenerator.ValidateExercises | utils/exercise_generator.py:118-133 | the validation loop yields the filtered list |
| ExerciseGenerator.SampleItemsValidity | utils/exercise_generator.py:120-131 | an item without `explanation` is invalid; a choice question needs `options`, other types do not |
| ExerciseGenerator.ValidationDropsIncomplete | utils/exercise_generator.py:118-133 | in a sample batch, without `explanation` the item is dropped and the others are kept in order |
| ExerciseGenerator.ValidationNeedsOptionsForChoice | utils/exercise_generator.py:129-131 | a choice question without `options` is dropped and the next item kept |
| ExerciseGenerator.FromPayload | utils/exercise_generator.py:107-140 | the result is `[]` or a non-empty list of exactly the valid items of `exercises`; a non-dict payload, missing or empty `exercises`, or no item surviving gives `[]` |
| ExerciseGenerator.ExercisesFromPayload | utils/exercise_generator.py:107-140 | the payload checks plus the validation loop yield the payload's outcome |
| ExerciseGenerator.FromCleaned | utils/exercise_generator.py:146-162 | the reparse returns `[]` or a truthy value; a truthy `exercises` of a dict is returned as is |
| ExerciseGenerator.Outcome | utils/exercise_generator.py:39-172 | blank content, a raising call, a non-200 status or a reply without `{` yield `[]`; every result is `[]` or truthy, so a failure never looks like success |
| ExerciseGenerator.MainPathValidates | utils/exercise_generator.py:105-140 | when the slice decodes, the result is `FromPayload` of the decoded payload, so a list whose items are valid and taken unchanged from the decoded `exercises` |
| ExerciseGenerator.FallbackPath | utils/exercise_generator.py:142-148 | when the slice does not decode, the whole reply, cleaned of newlines, is reparsed |
| ExerciseGenerator.GenerateExercises | utils/exercise_generator.py:39-172 | the generator's control flow yields the outcome above and never raises |
| ExerciseGenerator.FallbackSkipsValidation | utils/exercise_generator.py:153-156 | with a decoder that rejects raw newlines, a reply whose slice holds a newline yields an item that validation would have rejected |
| QaChain.InstructionBlock | utils/qa_chain.py:111 | a known type gets its instruction block, an unknown type the `factual` block |
| QaChain.UnknownTypeUsesFactual | utils/qa_chain.py:111 | an unknown question type composes the same prompt as `"factual"` |
| QaChain.GetQaPrompt | utils/qa_chain.py:112-126 | the prompt holds the chosen block, then the literal `{context}`, then the literal `{question}`, at increasing offsets |
| QaChain.ToSource | utils/qa_chain.py:165-169 | content and metadata are copied from the document; the relevance score is `metadata["score"]` when present, else 0 |
| QaChain.PackageSources | utils/qa_chain.py:164-171 | one source per document, in order |
| QaChain.AnswerFrom | utils/qa_chain.py:153-178 | success exactly when the chain answered, with its answer and exactly the packaged sources of its documents, one per document; otherwise an error whose message is the fixed prefix followed by the exception text |
| QaChain.HistoryAfter | utils/qa_chain.py:158 | an answered question appends the exchange to memory; a raising chain leaves memory as it was |
| QaChain.Chain.constructor | utils/qa_chain.py:94-107 | a new chain holds the prompt it was built with |
| QaChain.QAChain.constructor | utils/qa_chain.py:15-32 | a new object records whether the knowledge base is loaded, has no chain and an empty memory |
| QaChain.QAChain.CreateQaChain | utils/qa_chain.py:89-107 | no chain without a knowledge base; otherwise a fresh chain with the `factual` prompt |
| QaChain.QAChain.AnswerQuestion | utils/qa_chain.py:128-178 | without a knowledge base: the empty-knowledge-base error and nothing created; otherwise the chain is reused if present, else created; its prompt is set for the question type; the answer and the new memory follow from the chain's run |
| QaChain.QAChain.ClearMemory | utils/qa_chain.py:180-183 | memory is emptied and the chain dropped, so the next answer rebuilds it |
| QaChain.ChainLifecycle | utils/qa_chain.py:145-151 | two answers in a row use the same chain object; after `clear_memory` a different one is created |
| QaChain.EmptyKnowledgeBase | utils/qa_chain.py:138-142 | with no knowledge base the answer is the empty-knowledge-base error and no chain is created |
| DocumentProcessor.Extension | utils/document_processor.py:20 | `splitext` yields "" or a suffix of the path that starts with its only dot and holds no slash |
| DocumentProcessor.LoadDocument | utils/document_processor.py:18-29 | exactly `.txt`, `.pdf` and `.docx` (after lowercasing) select the text, PDF and docx loaders; anything else is refused with the message naming the extension |
| DocumentProcessor.ExtensionToLower | utils/document_processor.py:20 | the extension of the lowercased path is the lowercased extension |
| DocumentProcessor.LowercasePathSameLoader | utils/document_processor.py:20-29 | a path and its lowercased form load alike, so `X.PDF` and `x.pdf` pick the same loader |
| DocumentProcessor.ExtensionOfAppended | utils/document_processor.py:20 | appending a single-dot suffix to a stem whose base name is not all dots makes that suffix the extension |
| DocumentProcessor.LastSuffixCounts | utils/document_processor.py:20 | of two appended suffixes only the last one counts |
| DocumentProcessor.DoubleSuffixExamples | utils/document_processor.py:20-29 | `….txt.bak` is refused, `….pdf.txt` loads as text |
| DocumentProcessor.SingleSuffixExamples | utils/document_processor.py:20-27 | `….PDF` and `….pdf` load as PDF, `….docx` as docx |
| DocumentProcessor.NoExtensionIsRefused | utils/document_processor.py:28-29 | a path without an extension is refused, with a message naming the empty extension |
| DocumentProcessor.NoDotIsRefused | utils/document_processor.py:28-29 | a path with no dot has no extension and is refused |
| DocumentProcessor.ExtensionOfAppendedToDots | utils/document_processor.py:20 | appending a suffix to a stem whose base name is empty or all dots gives no extension, since `splitext` skips leading dots |
| DocumentProcessor.DotsNameIsRefused | utils/document_processor.py:20-29 | such a path is refused with the empty extension in the message |
| DocumentProcessor.TopLevelDotsAreRefused | utils/document_processor.py:20-29 | a top-level base name of dots only plus a suffix, such as `.pdf` or `..txt`, is refused |
| DocumentProcessor.NestedDotsAreRefused | utils/document_processor.py:20-29 | a base name of dots only plus a suffix inside a directory, such as `a/...docx`, is refused |
| DocumentProcessor.HiddenFileIsRefused | utils/document_processor.py:20-29 | a hidden file such as `dir/.txt` has no extension and is refused |
| DocumentProcessor.DotInDirectoryIsRefused | utils/document_processor.py:20-29 | a dot in a directory name is not an extension of the file |
| IntentsToChatml.PatternRecord | train_material/jsonlto.py:12-15 | a record holds exactly two messages: the pattern as user content, the response as assistant content |
| IntentsToChatml.IntentRecords | train_material/jsonlto.py:10-16 | an intent that does not raise writes one record per pattern, in pattern order, each with its first response |
| IntentsToChatml.Conversion | train_material/jsonlto.py:9-16 | the script raises exactly when some intent has patterns but no responses; otherwise it writes as many records as there are patterns in total |
| IntentsToChatml.ConvertIntents | train_material/jsonlto.py:9-16 | the nested loop writes the conversion's records and raises when it does |
| IntentsToChatml.RecordPosition | train_material/jsonlto.py:9-16 | without a raise, pattern j of intent i sits at position (patterns before intent i) + j: intent order, then pattern order |
| IntentsToChatml.RaisedKeepsEarlierRecords | train_material/jsonlto.py:14 | after a raise, the file holds exactly the records of the intents before the first one that raises |
| IntentsToChatml.EmptyIntentWritesNothing | train_material/jsonlto.py:10 | an intent without patterns writes nothing and does not raise, even without responses |

## Left out

- Sentence-mode splitting: `RecursiveCharacterTextSplitter` is library code. `SplitText` returns the size and overlap it would be given, as `Delegated`.
- Sentence and paragraph statistics: `sent_tokenize`, numpy `mean`/`std`, `max` and `min` over floats are not modelled. The average sentence length is an input. Of the paragraph statistics, only the empty-list raise is kept. The sentence analyzer is assumed to find at least one sentence in non-blank text.
- Technical-term regexes (`\b`, `IGNORECASE`): the match count is an input to the density formula.
- Floating point: sizes and overlaps are reals. Python floats may differ in the last bit.
- `get_split_info`'s `chunks_count` and `avg_chunk_size`: not modelled. The count is the length of the split; the average is a float mean.
- The API keyword arguments of `Generation.call` (model, temperature and so on): not modelled.
- Taking the reply text out of the SDK response object (`choices[0]` or `str(output)`): not modelled. The reply text is part of the `api` parameter's answer; the empty-text return after it is modelled.
- `json.loads`: an oracle parameter. A non-array `exercises` on the main path yields `[]` (a string or dict iterates to non-dict items; a number or bool raises `TypeError`, which becomes `[]`).
- Logging, `preview_content`, the Streamlit calls: not modelled.
- The retrieval chain, the LLM, FAISS and `ConversationBufferMemory`: the chain's run is a parameter. Memory is a list of question/answer turns, appended only when the chain answers. The retriever's k and score threshold are not modelled.
- `QaChain.QAChain.AnswerQuestion`: `ConversationalRetrievalChain.from_llm` is taken to succeed. It runs inside `_create_qa_chain`, which `answer_question` calls before its `try` block, so a raise there would escape to the caller instead of becoming an error answer; the promise that `answer_question` never raises holds only under this assumption. Assigning a plain string as the chain's prompt is taken to succeed as well, though pydantic validation in the library might reject it.
- Knowledge-base management in `qa_chain.py` (adding and clearing documents, `get_stats`): `utils/knowledge_base.py` is not part of this model. Whether a knowledge base is loaded is a field set at construction.
- Text.ToLower: only ASCII letters are lowercased. No other character lowercases to a dot, a slash or a letter of `txt`, `pdf` or `docx`, so the loader choice is the same as with full Unicode lowercasing. The refusal message embeds the lowercased extension, so for an extension with a non-ASCII capital (such as `.PDFÄ`) the model's message keeps that capital where Python's would lowercase it.
- `DocumentProcessor.Extension`: follows POSIX `os.path.splitext`. Windows drive letters and backslashes are not modelled.
- `loader.load()` and `split_documents`: library code, not modelled.
- Reading `intents.json` and writing `outputml.jsonl`: not modelled. The records built are the sequence the loop writes, and `json.dumps` formatting is not modelled.
- `utils/vector_store.py`, `utils/knowledge_base.py`, `utils/collect_training_data.py` and `app.py` are not part of this model.
