# MyPDF document search, modelled in Dafny

MyPDF splits PDF and Word documents into small text files under `docs/`. It then answers
questions about those files by keyword search and a language-model prompt. This project
models the core of that pipeline:

- **text.py** (module `Text`): text sanitisation, language detection, and the two
  translator classes (`AutoTranslator`, `SanitizedTextTranslator`).
- **document_search_backend.py** (module `SearchBackend`, with `Ranking` for
  `heapq.nlargest`): stopword filtering, keyword extraction, loading the `.txt` files
  page by page into `Document` objects, detecting the corpus language, scoring,
  top-3 selection and the result records.
- **manipulator.py** (module `Manipulator`): cutting the document text into files of
  at most `max_word` words, checking the file type, and the command-line dispatch.
- **search_assistant.py** `prompt_template` (module `SearchAssistant`): the prompt
  text and the cut of the context to the model's word budget.

`Strings` and `Lists` give Python's string and list operations the meaning Python gives
them: `split(" ")`, `split()`, `strip()`, `//`, slices with negative bounds and
`posixpath.join`. `Wrappers` holds the option and result types. `posixpath.splitext` is
in `Manipulator`. `Strings.Lower` lower-cases ASCII letters only (see "Left out").

Code that works by changing state is imperative here:
- `Document` and `DocumentSearchBackend` are classes whose fields the methods update.
- The loops of `process_documents`, `detect_document_language`, `find_top_documents`,
  `search_documents`, `auto_translate_keywords` and `read_and_split` are methods. Each
  loop is proved against a specification function.

Foreign code is passed in as function values, so every property holds whatever that code
returns:
- `langid.classify` and googletrans' `translate` are `Text.Services`.
- `nltk.word_tokenize`, `stopwords.words` and BM25 are `SearchBackend.Nlp`.
- The directory listing, the page loader and `textwrap.fill` are parameters.

## Model

| member | source | states |
|---|---|---|
| Text.SanitizeText | text.py:25-26 | the result has only ASCII letters, digits and spaces, is no longer than the input, and is empty or starts and ends with a letter or digit |
| Text.SanitizeIsTrimmedSubstitution | text.py:26 | the sanitised text is the `re.sub` result with a run of spaces cut from each end and nothing else removed |
| Text.SanitizeIdempotent | text.py:25-26 | sanitising a sanitised text changes nothing |
| Text.TextLength | text.py:28-29 | `len(text.split(" "))` is the number of spaces plus one, so at least 1 even for "" |
| Text.BatchSanitizeText | text.py:31-32 | same length as the batch; item i is the sanitised item i |
| Text.BatchSanitizeIdempotent | text.py:31-32 | sanitising a batch twice equals sanitising it once |
| Text.DetectLanguage | text.py:18-23 | the code is the detector's answer for the sanitised text when `sanitize` is set, and for the text itself otherwise |
| Text.DetectSanitizedIgnoresNoise | text.py:18-23 | with `sanitize=True` a text and its sanitised form are always given the same language code |
| Text.TextTranslator | text.py:40-50 | for either class, the service gets the text the class sends, the target, and, when the source is "auto", the code detected on that same sent text |
| Text.SanitizedTranslatorIgnoresNoise | text.py:71-76 | the sanitising translator gives the same answer for a text and for its sanitised form |
| Text.AutoTranslateQuestion | text.py:51-55 | returns a translation exactly when the document language is "id" or "en", into that language; otherwise `None` |
| Text.TranslateEach | text.py:61-62 | one translation into "en" per keyword, keyword i's at position i |
| Text.AutoTranslateKeywords | text.py:57-64 | the empty list when the document language is "id"; otherwise as many results as keywords, result i being keyword i translated into "en" |
| SearchBackend.LanguageDict | document_search_backend.py:21 | "id" maps to "indonesian", "en" to "english", every other code to nothing |
| SearchBackend.DetectLanguage | document_search_backend.py:39-42 | the result is a full language name or `None`; "indonesian" exactly when the sanitised text is detected as "id", "english" exactly when it is "en" |
| SearchBackend.BackendAlwaysTranslates | document_search_backend.py:106 | with the full names the backend stores, every keyword is translated and the question translator returns `None` |
| SearchBackend.TokenizeWithoutStopwords | document_search_backend.py:84-89 | tokens kept in order; no stopword of the detected language kept; every other token kept as often as it occurs |
| SearchBackend.GetKeywords | document_search_backend.py:91-101 | no duplicates; a word is a keyword exactly when it is a token of the question, not a stopword of its language, and not one of `? ! . ,` |
| SearchBackend.GetTextFiles | document_search_backend.py:60-63 | the listing's names that end in `.txt`, in listing order, each as often as listed |
| SearchBackend.FirstStable | document_search_backend.py:73-78 | the first document whose token count c has 10 < c < 50, with none before it; `None` when there is none |
| SearchBackend.StableLanguage | document_search_backend.py:73-78 | with no stable document, the language held before the loop is kept; a full-name-or-None language stays one |
| SearchBackend.ResolveLanguage | document_search_backend.py:71-82 | fails exactly on an empty list with no language held; otherwise the language stays a full name or `None` |
| SearchBackend.PicksFirstStableDocument | document_search_backend.py:73-78 | the first stable document decides the language, whatever follows it, when its language is known |
| SearchBackend.FallsBackToFirstDocument | document_search_backend.py:80-82 | with no language after the loop, the first document decides |
| SearchBackend.Document.constructor | document_search_backend.py:26-29 | a new document has the given name and content and score 0 |
| SearchBackend.Assigned | document_search_backend.py:115-116 | after the `zip` loop, position i holds score i when the score list reaches it and its previous score otherwise |
| SearchBackend.TopRecords | document_search_backend.py:139-148 | the records of the positions `heapq.nlargest(3, ...)` picks: min(3, n) of them, located under `docs`, by descending score, none outscored by a page left out |
| SearchBackend.SearchScores | document_search_backend.py:106-116 | one score per page: BM25 of the page's tokens for the question's keywords as translated for the corpus language |
| SearchBackend.SearchTranslatesEveryKeyword | document_search_backend.py:106 | with a corpus language the backend can hold, the query is every keyword translated into English |
| SearchBackend.ReportedAreSearched | document_search_backend.py:128-148 | records ranked over the documents made from the pages are the records of the pages' search scores for the question |
| SearchBackend.BuildRecords | document_search_backend.py:140-148 | min(3, n) records in the order of the top documents, each with the name, its path under `docs` and the score; descending scores stay descending |
| SearchBackend.DocumentSearchBackend.constructor | document_search_backend.py:35-37 | an `AutoTranslator` and no corpus language |
| SearchBackend.DocumentSearchBackend.ProcessDocuments | document_search_backend.py:44-58 | one fresh, distinct document per page of each `.txt` file, in listing and page order, holding the page's tokens without stopwords and score 0 |
| SearchBackend.DocumentSearchBackend.AddPages | document_search_backend.py:53-56 | appends one fresh document per page of one file and keeps the earlier ones |
| SearchBackend.DocumentSearchBackend.DetectDocumentLanguage | document_search_backend.py:71-82 | sets the corpus language that `ResolveLanguage` gives; on `IndexError` nothing changes; the stored language stays a full name or `None`; the documents' contents and scores are untouched |
| SearchBackend.DocumentSearchBackend.ScanForStableDocument | document_search_backend.py:73-78 | after the loop the language is that of the first stable document, or unchanged when there is none |
| SearchBackend.DocumentSearchBackend.FindTopDocuments | document_search_backend.py:103-122 | contents untouched; document i gets BM25 score i of the translated keywords (`zip` stops at the shorter); returns min(3, n) distinct input documents in descending score, none outscored by one left out |
| SearchBackend.DocumentSearchBackend.AssignScores | document_search_backend.py:115-116 | documents before the end of the score list get their own score; the others and all contents are unchanged |
| SearchBackend.DocumentSearchBackend.Largest | document_search_backend.py:119 | the documents at the positions `NLargest(3, scores)` picks: min(3, n) of them, descending, and no document left out scores higher |
| SearchBackend.DocumentSearchBackend.SearchDocuments | document_search_backend.py:124-148 | with BM25 total, fails with `IndexError` exactly when no page is found and no corpus language is held, leaving the language unchanged; otherwise the language becomes the one the pages resolve to and the result is `TopRecords` of the pages' names and their `SearchScores` for the question, every keyword translated; names are `.txt` files of the listing |
| SearchBackend.DocumentSearchBackend.RankDocuments | document_search_backend.py:133-148 | the same outcome as `search_documents`, for documents already made from the pages |
| SearchBackend.DocumentSearchBackend.ReportTopDocuments | document_search_backend.py:137-148 | the records are `TopRecords` of the documents' names and their scores after BM25 for the translated keywords is assigned; names come from the documents' files |
| Ranking.NLargest | document_search_backend.py:119 | min(k, n) distinct positions in descending key order, ties in input order; every position left out comes after every one returned |
| Ranking.NLargestUnique | document_search_backend.py:119 | any list with those properties is `NLargest`, so the selection is fully determined |
| Lists.Filter | document_search_backend.py:89 | a subsequence holding exactly the kept elements, each as often as in the input |
| Lists.Distinct | document_search_backend.py:101 | no duplicates and the same elements as the input |
| Strings.SplitWhitespaceSeparates | manipulator.py:32 | `split()` cuts only at whitespace: the words put back between the whitespace runs give the text again, and the runs between two words are not empty |
| Manipulator.Words | manipulator.py:32 | the words are the maximal non-whitespace runs of the joined pages: each is non-empty without whitespace, and with the whitespace runs between them (non-empty between two words) they give the joined text back |
| Manipulator.FileCount | manipulator.py:35 | with a positive limit, `num_files` is never negative and is 0 exactly when there are no words |
| Manipulator.ChunkWords | manipulator.py:44-48 | file i's words are consecutive words of the list, at most m of them with a positive limit |
| Manipulator.ChunkText | manipulator.py:48-56 | file i's text holds no ASCII capital; without wrapping it is as long as its words joined by spaces |
| Manipulator.ReadAndSplit | manipulator.py:28-56 | `ZeroDivisionError` exactly when `max_word` is 0; otherwise `max(0, num_files)` texts, text i being words i*m up to min((i+1)*m, n) joined, optionally wrapped, lower-cased |
| Manipulator.WriteChunks | manipulator.py:35-56 | the loop writes `num_files` texts (none when negative), each the lower-cased chunk i |
| Manipulator.FileCountIsCeiling | manipulator.py:35 | with a positive limit, `num_files` is the ceiling of n/m: enough files for every word, and one fewer is not |
| Manipulator.ChunkShape | manipulator.py:44-48 | with a positive limit each file's slice is a plain slice, non-empty, at most m words, and exactly m unless it is the last |
| Manipulator.Chunks | manipulator.py:38-48 | there are `num_files` chunks |
| Manipulator.ChunksReproduceWords | manipulator.py:38-48 | the chunks laid end to end give back every word, in order: no word is lost or repeated |
| Manipulator.SplitExtRoundTrip | manipulator.py:94 | the two halves of `splitext` give back the path; a non-empty extension is a dot followed by no dot or `/` |
| Manipulator.CheckFileType | manipulator.py:93-103 | PDF exactly for `.pdf`, Word exactly for `.docx` or `.doc`, error exactly otherwise, ignoring letter case |
| Manipulator.ExtensionOfNamedFile | manipulator.py:94 | `stem.ext` splits into the stem and `.ext` |
| Manipulator.ProcessFile | manipulator.py:80-90 | an empty or missing location is reported; any other location is loaded as the given kind |
| Manipulator.Run | manipulator.py:68-78 | both document options is an error; otherwise PDF before Word before clean before "no valid input", each exactly when the earlier ones are absent |
| Manipulator.RunNeverMissesLocation | manipulator.py:68-90 | the missing-location message is never reached from `run`, and the file loaded is the one named on the command line |
| SearchAssistant.QueryLength | search_assistant.py:71-72 | the question's word count is at most its non-whitespace characters, and 0 exactly for a blank question |
| SearchAssistant.TotalLength | search_assistant.py:73 | the total is at least the context items plus 65, and equal to that exactly for a blank question |
| SearchAssistant.KeptContext | search_assistant.py:69-78 | the kept context is a prefix of the context; all of it when within budget; otherwise len(context) − (query words + 65) items, and a negative slice end counted from the end |
| SearchAssistant.PromptTemplate | search_assistant.py:69-85 | the prompt starts with the context header and the kept context, and ends with the question header, the question and the answer line |
| SearchAssistant.Prompt | search_assistant.py:80-85 | the head (header, context, blank line) is a prefix and the tail (question part) a suffix of the prompt |
| SearchAssistant.QuestionVerbatim | search_assistant.py:83-85 | the question can be read back unchanged from its place in the prompt |
| SearchAssistant.ContextTextIsPrefix | search_assistant.py:75-78 | the context text of the prompt is a prefix of the whole context joined |
| SearchAssistant.TruncationStillOverBudget | search_assistant.py:75-76 | when the context alone exceeds 4097 items, the cut context still leaves the total over 4097 |
| SearchAssistant.TruncationExample | search_assistant.py:75-76 | 5000 context items and the question "why" keep 4934 items, for a recounted total of 5000 |
| SearchAssistant.FittedContext | search_assistant.py:73-78 | the corrected cut: a prefix of the context, all of it when within budget, and the total fits 4097 whenever the question leaves room |
| SearchAssistant.FittedPromptTemplate | search_assistant.py:69-85 | the prompt with the corrected cut: same layout, its context text a prefix of all the context joined, and the count within 4097 whenever the question leaves room |
| SearchAssistant.FittedContextIsLargest | search_assistant.py:73-78 | an over-budget context is cut to exactly the room left, so the total is exactly 4097 |

## Left out

- BM25 (`rank_bm25`) is a foreign function whose scores are integers. Floating-point
  scores and NaN ordering are not modelled.
- SearchBackend.DocumentSearchBackend.SearchDocuments: BM25 is a total function here.
  `BM25Okapi` itself raises `ZeroDivisionError` on an empty corpus (no page, with a corpus
  language held from an earlier call) and when every page has no token left (its
  average IDF divides by the number of distinct tokens). The model returns records in
  those cases, so its "fails exactly when" covers the `IndexError` only.
- `langid`, `nltk.word_tokenize`, `stopwords.words` and googletrans are function inputs.
  Their behaviour, including network failures, is not modelled.
- File and directory I/O is left out: `os.listdir`, `TextLoader`, `open`/`write`, uuid
  file names, `remove_all_items`, `create_folder`. manipulator.py:6 imports
  `remove_all_items` from directory.py, which defines only `clean_directory`; as written
  that import fails before `read_and_split` can run. The listing and the per-file page texts
  are inputs. `textwrap.fill(width=70)` is the `fill` parameter.
- directory.py, main.py, document_search.py, `read_documents`, the HTTP payload to the
  language model, the loading-screen thread, signal handling, argparse and all printing
  or progress bars are not part of this model.
- Manipulator.ReadAndSplit: returns the texts of the files instead of writing them. It
  does not model emptying `docs/` first or the random file names.
- Manipulator.Run: returns what `run` would do (`Action`) instead of doing it. The
  loaders of `process_pdf` and `process_word`, and the `ValueError` they can raise, are
  not part of this model.
- SearchBackend.GetKeywords: `list(set(...))` has an order set by string hashing. The
  model fixes it to first occurrence. The contract states only the set of keywords and
  that none repeats, so it holds for any order.
- SearchBackend.DocumentSearchBackend.FindTopDocuments: requires the document objects to
  be distinct, as `process_documents` makes them. `find_top_documents` itself accepts a
  list holding one object twice; then the later score would win.
- SearchBackend.DocumentSearchBackend.ProcessDocuments: a document is constructed with
  the page's tokens directly. The source first stores the raw page text, then replaces
  it with the tokens in the next statement. No other code sees the raw text.
- Strings.Lower: ASCII only. Python's `str.lower` also maps non-ASCII letters. This is
  exact for the extension comparison in `check_file_type`, where only ASCII extensions
  can match.
- Manipulator.ReadAndSplit: the file texts are lower-cased ASCII only (through
  `Manipulator.ChunkText`). A page with non-ASCII capitals such as "É" is written
  lower-cased by the source and left as it is by the model.
- Facts about the code that the model keeps as they are:
  - A text whose language is not "id" or "en" gets `None` from the backend's
    `detect_language`, and `stopwords.words(None)` gives the stopwords of every language.
  - Tokens are compared with the stopwords as written, with no case folding.
  - `auto_translate_keywords` calls the translator even when the source and target
    languages are the same.
  - The backend stores full language names ("indonesian", "english") while the
    translator compares against the codes "id" and "en". So keywords are always
    translated and `auto_translate_question` returns `None` (`BackendAlwaysTranslates`).
- The docstring of `detect_document_language` (document_search_backend.py:72) says it
  uses the first non-empty text. The code uses the first document with more than 10 and
  fewer than 50 tokens, and the first document when there is none. The model follows the
  code.
- The helper methods `ScanForStableDocument`, `AssignScores`, `Largest`,
  `RankDocuments`, `ReportTopDocuments`, `AddPages` and `WriteChunks` are parts of a single source
  function. They are split out to keep each proof small. Together they do what that
  function does.

## Findings

| source | as written | input that shows it | evidently intended | confidence | as-written member | corrected member |
|---|---|---|---|---|---|---|
| search_assistant.py:75-76 | over budget, keeps `len(context) - (query_length + 65)` items, so the recounted total is `len(context)`, still over 4097 whenever the context alone exceeds 4097 | 5000 context items and the question "why": 4934 items kept, recounted total 5000 | keep `4097 - (query_length + 65)` items so the prompt fits the budget; the only caller (search_assistant.py:99-101) passes at most 3 whole document texts as items while the budget counts words, so this input arises only from a direct call | low, not executed | SearchAssistant.TruncationStillOverBudget | SearchAssistant.FittedPromptTemplate |
