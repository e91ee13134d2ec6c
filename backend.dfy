/** document_search_backend.py: corpus language detection, stopword filtering, keyword
    extraction, top-3 selection and result records. The tokenizer (`nltk.word_tokenize`),
    the stopword table (`stopwords.words`), the directory listing, the file loader and the
    BM25 scorer are foreign; they are function-valued inputs. */
module SearchBackend {
  import opened Wrappers
  import opened Strings
  import opened Lists
  import Text
  import Ranking

  /** `FOLDER_PATH` */
  const FolderPath: string := "docs"

  /** `LANGUAGE_DICT` */
  const LanguageTable: map<string, string> := map["id" := "indonesian", "en" := "english"]

  /** The exceptions the modelled code can raise. */
  datatype PyError = IndexError

  /** `LANGUAGE_DICT.get(code)`: "id" and "en" have stopword-language names; every other
      code has none. */
  function LanguageDict(code: string): (name: Option<string>)
    ensures code == "id" ==> name == Some("indonesian")
    ensures code == "en" ==> name == Some("english")
    ensures code != "id" && code != "en" ==> name == None
  {
    if code in LanguageTable then Some(LanguageTable[code]) else None
  }

  /** The values `detect_language` can return. */
  predicate IsLanguageName(lang: Option<string>) {
    lang == None || lang == Some("indonesian") || lang == Some("english")
  }

  /** The foreign text-processing calls: `nltk.word_tokenize`, `stopwords.words(language)`
      (given `None`, NLTK returns the stopwords of every language it has) and
      `BM25Okapi(corpus).get_scores(query)`, whose scores are abstracted to integers. */
  datatype Nlp = Nlp(
    tokenize: string -> seq<string>,
    stopwords: Option<string> -> seq<string>,
    bm25Scores: (seq<seq<string>>, seq<string>) -> seq<int>)

  /** `DocumentSearchBackend.detect_language`: the detector's code for the sanitised
      text, looked up in the language table. The result is always a full language name
      or `None`, never a short code. */
  function DetectLanguage(tr: Text.Translator, text: string): (lang: Option<string>)
    ensures IsLanguageName(lang)
    ensures lang == Some("indonesian") <==> Text.DetectLanguage(tr.services, text, true) == "id"
    ensures lang == Some("english") <==> Text.DetectLanguage(tr.services, text, true) == "en"
  {
    LanguageDict(Text.DetectLanguage(tr.services, text, true))
  }

  /** Because the backend stores full names, `auto_translate_keywords` never sees "id"
      and always translates every keyword, and `auto_translate_question` never sees "id"
      or "en" and always returns `None`. */
  lemma BackendAlwaysTranslates(tr: Text.Translator, keywords: seq<string>, question: string,
                                lang: Option<string>)
    requires IsLanguageName(lang)
    ensures Text.KeywordTranslations(tr, keywords, lang) == Text.TranslateEach(tr, keywords)
    ensures |Text.KeywordTranslations(tr, keywords, lang)| == |keywords|
    ensures Text.AutoTranslateQuestion(tr, question, lang) == None
  {
    assert lang != Some("id") && lang != Some("en") by {
      if lang.Some? {
        assert lang.value == "indonesian" || lang.value == "english";
        assert |lang.value| >= 7;
      }
    }
  }

  /** `tokenize_without_stopwords`: the tokenizer's output for the text, without the
      stopwords of the text's detected language. The tokens kept are a subsequence of the
      tokenizer's output (order kept), none is a stopword, and every other token keeps
      all of its occurrences. */
  function TokenizeWithoutStopwords(tr: Text.Translator, nlp: Nlp, text: string): (tokens: seq<string>)
    ensures IsSubsequence(tokens, nlp.tokenize(text))
    ensures forall i :: 0 <= i < |tokens| ==> tokens[i] !in nlp.stopwords(DetectLanguage(tr, text))
    ensures forall w :: w !in nlp.stopwords(DetectLanguage(tr, text)) ==>
      multiset(tokens)[w] == multiset(nlp.tokenize(text))[w]
  {
    var language := DetectLanguage(tr, text);
    var words := nlp.tokenize(text);
    var languageStopwords := nlp.stopwords(language);
    Filter(words, w => w !in languageStopwords)
  }

  /** The question punctuation `get_keywords` adds to the stopwords. */
  const CustomStopwords: seq<string> := ["?", "!", ".", ","]

  /** `get_keywords`: the distinct tokens of the question that are neither stopwords of
      its detected language nor question punctuation. */
  function GetKeywords(tr: Text.Translator, nlp: Nlp, question: string): (keywords: seq<string>)
    ensures NoDuplicates(keywords)
    ensures forall k :: k in keywords <==>
      k in nlp.tokenize(question)
      && k !in nlp.stopwords(DetectLanguage(tr, question))
      && k !in CustomStopwords
  {
    var language := DetectLanguage(tr, question);
    var stopwordsLanguage := nlp.stopwords(language) + CustomStopwords;
    var tokens := nlp.tokenize(question);
    var keywords := Filter(tokens, t => t !in stopwordsLanguage);
    assert forall k :: k in keywords <==> k in multiset(keywords);
    assert forall k :: k in tokens <==> k in multiset(tokens);
    Distinct(keywords)
  }

  /** `[file_name for file_name in os.listdir(FOLDER_PATH) if file_name.endswith('.txt')]`
      for a given directory listing. */
  function GetTextFiles(listing: seq<string>): (files: seq<string>)
    ensures IsSubsequence(files, listing)
    ensures forall i :: 0 <= i < |files| ==> EndsWith(files[i], ".txt")
    ensures forall f :: EndsWith(f, ".txt") ==> multiset(files)[f] == multiset(listing)[f]
  {
    Filter(listing, (f: string) => EndsWith(f, ".txt"))
  }

  /** The token count of a document makes it a stable detection sample: strictly between
      10 and 50. */
  predicate Stable(tokens: seq<string>) {
    10 < |tokens| < 50
  }

  /** The first position whose token list is a stable sample, if any. */
  function FirstStable(contents: seq<seq<string>>): (r: Option<nat>)
    ensures r.Some? ==> r.value < |contents| && Stable(contents[r.value])
                        && forall j :: 0 <= j < r.value ==> !Stable(contents[j])
    ensures r.None? ==> forall j :: 0 <= j < |contents| ==> !Stable(contents[j])
  {
    if contents == [] then None
    else if Stable(contents[0]) then Some(0)
    else match FirstStable(contents[1..])
      case None => None
      case Some(i) => Some(i + 1)
  }

  /** A stable position with no stable one before it is the first stable position. */
  lemma FirstStableAt(contents: seq<seq<string>>, i: nat)
    requires i < |contents| && Stable(contents[i])
    requires forall j :: 0 <= j < i ==> !Stable(contents[j])
    ensures FirstStable(contents) == Some(i)
  {
    var f := FirstStable(contents);
    assert f.Some?;
    assert !(f.value < i) && !(i < f.value);
  }

  /** The language held after the scanning loop of `detect_document_language`: that
      of the first stable document, or the language held before when there is none. */
  function StableLanguage(tr: Text.Translator, previous: Option<string>, contents: seq<seq<string>>)
    : (r: Option<string>)
    ensures FirstStable(contents).None? ==> r == previous
    ensures IsLanguageName(previous) ==> IsLanguageName(r)
  {
    match FirstStable(contents)
    case Some(i) => DetectLanguage(tr, Join(contents[i], " "))
    case None => previous
  }

  /** The corpus language `detect_document_language` leaves behind, from the language
      held before the call and the documents' token lists: the language of the first
      stable document; if there is none, the language held before; if that is `None`,
      the language of the first document, which fails with `IndexError` on an empty list. */
  function ResolveLanguage(tr: Text.Translator, previous: Option<string>, contents: seq<seq<string>>)
    : (r: Result<Option<string>, PyError>)
    ensures r.Err? <==> contents == [] && previous == None
    ensures r.Ok? && IsLanguageName(previous) ==> IsLanguageName(r.value)
  {
    var afterLoop := StableLanguage(tr, previous, contents);
    if afterLoop != None then Ok(afterLoop)
    else if |contents| == 0 then Err(IndexError)
    else Ok(DetectLanguage(tr, Join(contents[0], " ")))
  }

  /** Detection looks at documents in order and takes the first one whose token count c
      satisfies 10 < c < 50, whatever comes after it, provided its language is known. */
  lemma PicksFirstStableDocument(tr: Text.Translator, previous: Option<string>,
                                 contents: seq<seq<string>>, i: nat)
    requires i < |contents| && 10 < |contents[i]| < 50
    requires forall j :: 0 <= j < i ==> !(10 < |contents[j]| < 50)
    requires DetectLanguage(tr, Join(contents[i], " ")) != None
    ensures ResolveLanguage(tr, previous, contents) == Ok(DetectLanguage(tr, Join(contents[i], " ")))
  {
    FirstStableAt(contents, i);
  }

  /** With no stable document and no earlier language, or when the stable document's
      language is unknown, the language comes from the first document. */
  lemma FallsBackToFirstDocument(tr: Text.Translator, previous: Option<string>,
                                 contents: seq<seq<string>>)
    requires contents != []
    requires match FirstStable(contents)
             case None => previous == None
             case Some(i) => DetectLanguage(tr, Join(contents[i], " ")) == None
    ensures ResolveLanguage(tr, previous, contents) == Ok(DetectLanguage(tr, Join(contents[0], " ")))
  {
  }

  /** A document: its file name, its token list and its relevance score. */
  class Document {
    const name: string
    var content: seq<string>
    var score: int

    constructor (name: string, content: seq<string>)
      ensures this.name == name && this.content == content && score == 0
    {
      this.name := name;
      this.content := content;
      score := 0;
    }
  }

  /** The token lists of the documents, in order. */
  function ContentsOf(documents: seq<Document>): (contents: seq<seq<string>>)
    reads documents
    ensures |contents| == |documents|
    ensures forall i :: 0 <= i < |documents| ==> contents[i] == documents[i].content
  {
    seq(|documents|, i reads documents requires 0 <= i < |documents| => documents[i].content)
  }

  /** The scores of the documents, in order. */
  function ScoresOf(documents: seq<Document>): (scores: seq<int>)
    reads documents
    ensures |scores| == |documents|
    ensures forall i :: 0 <= i < |documents| ==> scores[i] == documents[i].score
  {
    seq(|documents|, i reads documents requires 0 <= i < |documents| => documents[i].score)
  }

  /** No document object occurs twice. */
  predicate Distinctive(documents: seq<Document>) {
    forall i, j :: 0 <= i < j < |documents| ==> documents[i] != documents[j]
  }

  lemma DistinctiveSnoc(documents: seq<Document>, d: Document)
    requires Distinctive(documents) && d !in documents
    ensures Distinctive(documents + [d])
  {
  }

  /** Extending a prefix by one element appends that element. */
  lemma PrefixSnoc<T>(before: seq<T>, s: seq<T>, j: nat)
    requires j < |s|
    ensures before + s[..j + 1] == (before + s[..j]) + [s[j]]
  {
    assert s[..j + 1] == s[..j] + [s[j]];
  }

  /** The (file name, page text) pairs of the text files, file by file, page by page. */
  function Entries(files: seq<string>, load: string -> seq<string>): seq<(string, string)> {
    if files == [] then []
    else
      var last := files[|files| - 1];
      Entries(files[..|files| - 1], load) + Pages(last, load(last))
  }

  /** The entries of one more file are those of the files before it and its pages. */
  lemma EntriesSnoc(files: seq<string>, i: nat, load: string -> seq<string>)
    requires i < |files|
    ensures Entries(files[..i + 1], load) == Entries(files[..i], load) + Pages(files[i], load(files[i]))
  {
    assert files[..i + 1][..i] == files[..i];
  }

  /** Every entry names one of the files it comes from. */
  lemma {:induction false} EntriesNameFiles(files: seq<string>, load: string -> seq<string>)
    ensures forall k :: 0 <= k < |Entries(files, load)| ==> Entries(files, load)[k].0 in files
  {
    if files != [] {
      var init := files[..|files| - 1];
      EntriesNameFiles(init, load);
      assert forall f :: f in init ==> f in files;
    }
  }

  function Pages(file: string, texts: seq<string>): (r: seq<(string, string)>)
    ensures |r| == |texts|
    ensures forall j :: 0 <= j < |texts| ==> r[j] == (file, texts[j])
  {
    seq(|texts|, j requires 0 <= j < |texts| => (file, texts[j]))
  }

  /** One record of the search result. */
  datatype Record = Record(name: string, location: string, score: int)

  /** The score list after `for document, score in zip(documents, scores)`: position i
      takes score i when there is one and keeps its previous score otherwise. */
  function Assigned(scores: seq<int>, previous: seq<int>): (r: seq<int>)
    ensures |r| == |previous|
    ensures forall i :: 0 <= i < |previous| ==> r[i] == if i < |scores| then scores[i] else previous[i]
  {
    seq(|previous|, i requires 0 <= i < |previous| => if i < |scores| then scores[i] else previous[i])
  }

  /** The names of the documents, in order. */
  function NamesOf(documents: seq<Document>): (names: seq<string>)
    ensures |names| == |documents|
    ensures forall i :: 0 <= i < |documents| ==> names[i] == documents[i].name
  {
    seq(|documents|, i requires 0 <= i < |documents| => documents[i].name)
  }

  /** The records `search_documents` returns for documents with these names and scores:
      those of `heapq.nlargest(3, ...)`, best first. There are min(3, n) of them, each
      located under `FOLDER_PATH`, by descending score, and no document left out has a
      higher score than a record. */
  function TopRecords(names: seq<string>, scores: seq<int>): (records: seq<Record>)
    requires |names| == |scores|
    ensures |records| == Ranking.Min(3, |names|)
    ensures forall t :: 0 <= t < |records| ==> records[t].location == PathJoin(FolderPath, records[t].name)
    ensures forall p, q :: 0 <= p < q < |records| ==> records[p].score >= records[q].score
    ensures forall t, j :: 0 <= t < |records| && 0 <= j < |scores| && j !in Ranking.NLargest(3, scores) ==>
      records[t].score >= scores[j]
  {
    var picked := Ranking.NLargest(3, scores);
    var records := seq(|picked|, t requires 0 <= t < |picked| =>
      Record(names[picked[t]], PathJoin(FolderPath, names[picked[t]]), scores[picked[t]]));
    assert forall p, q :: 0 <= p < q < |records| ==> Ranking.Before(scores, picked[p], picked[q]);
    records
  }

  /** The token lists of the pages, in order. */
  function PageTokens(tr: Text.Translator, nlp: Nlp, entries: seq<(string, string)>)
    : (contents: seq<seq<string>>)
    ensures |contents| == |entries|
    ensures forall k :: 0 <= k < |entries| ==> contents[k] == TokenizeWithoutStopwords(tr, nlp, entries[k].1)
  {
    seq(|entries|, k requires 0 <= k < |entries| => TokenizeWithoutStopwords(tr, nlp, entries[k].1))
  }

  /** The file names of the pages, in order. */
  function EntryNames(entries: seq<(string, string)>): (names: seq<string>)
    ensures |names| == |entries|
    ensures forall k :: 0 <= k < |entries| ==> names[k] == entries[k].0
  {
    seq(|entries|, k requires 0 <= k < |entries| => entries[k].0)
  }

  /** Score 0 for each of `n` new documents. */
  function Zeros(n: nat): (z: seq<int>)
    ensures |z| == n && forall i :: 0 <= i < n ==> z[i] == 0
  {
    seq(n, i => 0)
  }

  /** The scores of the pages for a question, given the corpus language: BM25 over the
      pages' tokens for the translated keywords of the question, assigned page by page
      (`zip`), 0 for pages past the end of the score list. */
  function SearchScores(tr: Text.Translator, nlp: Nlp, question: string,
                        entries: seq<(string, string)>, lang: Option<string>): (scores: seq<int>)
    ensures |scores| == |entries|
  {
    var query := Text.KeywordTranslations(tr, GetKeywords(tr, nlp, question), lang);
    Assigned(nlp.bm25Scores(PageTokens(tr, nlp, entries), query), Zeros(|entries|))
  }

  /** The corpus languages the backend can hold make the query every keyword of the
      question translated into English. */
  lemma SearchTranslatesEveryKeyword(tr: Text.Translator, nlp: Nlp, question: string,
                                     entries: seq<(string, string)>, lang: Option<string>)
    requires IsLanguageName(lang)
    ensures SearchScores(tr, nlp, question, entries, lang)
         == Assigned(nlp.bm25Scores(PageTokens(tr, nlp, entries),
                                    Text.TranslateEach(tr, GetKeywords(tr, nlp, question))),
                     Zeros(|entries|))
  {
    BackendAlwaysTranslates(tr, GetKeywords(tr, nlp, question), question, lang);
  }

  /** The records reported over the documents made from `entries` are the records of
      the pages' search scores for the question; with a corpus language the backend can
      hold, the query is every keyword translated. */
  lemma ReportedAreSearched(tr: Text.Translator, nlp: Nlp, question: string, keywords: seq<string>,
                            entries: seq<(string, string)>, lang: Option<string>,
                            contents: seq<seq<string>>, zeros: seq<int>, names: seq<string>)
    requires keywords == GetKeywords(tr, nlp, question)
    requires contents == PageTokens(tr, nlp, entries)
    requires zeros == Zeros(|entries|)
    requires names == EntryNames(entries)
    ensures TopRecords(names, Assigned(nlp.bm25Scores(contents, Text.KeywordTranslations(tr, keywords, lang)), zeros))
         == TopRecords(EntryNames(entries), SearchScores(tr, nlp, question, entries, lang))
    ensures IsLanguageName(lang) ==>
      TopRecords(names, Assigned(nlp.bm25Scores(contents, Text.KeywordTranslations(tr, keywords, lang)), zeros))
      == TopRecords(names, Assigned(nlp.bm25Scores(contents, Text.TranslateEach(tr, keywords)), zeros))
  {
    if IsLanguageName(lang) {
      SearchTranslatesEveryKeyword(tr, nlp, question, entries, lang);
    }
  }

  /** The record building of `search_documents`: one record per top document, in order,
      with the file name, its path under `FOLDER_PATH` and the score; `result[:3]` keeps
      at most three. */
  method BuildRecords(top: seq<Document>) returns (result: seq<Record>)
    ensures |result| == Ranking.Min(|top|, 3)
    ensures forall t :: 0 <= t < |result| ==>
      result[t] == Record(top[t].name, PathJoin(FolderPath, top[t].name), top[t].score)
    ensures (forall p, q :: 0 <= p < q < |top| ==> top[p].score >= top[q].score) ==>
      forall p, q :: 0 <= p < q < |result| ==> result[p].score >= result[q].score
  {
    var all: seq<Record> := [];
    for t := 0 to |top|
      invariant |all| == t
      invariant forall s :: 0 <= s < t ==>
        all[s] == Record(top[s].name, PathJoin(FolderPath, top[s].name), top[s].score)
    {
      var document := top[t];
      all := all + [Record(document.name, PathJoin(FolderPath, document.name), document.score)];
    }
    result := all[..Ranking.Min(|top|, 3)];
  }

  /** `DocumentSearchBackend`: the translator it detects with and the corpus language
      it keeps between calls. */
  class DocumentSearchBackend {
    const translator: Text.Translator
    const nlp: Nlp
    var documentLanguage: Option<string>

    /** The stored corpus language is a full name or `None`. */
    ghost predicate Valid()
      reads this
    {
      IsLanguageName(documentLanguage)
    }

    constructor (services: Text.Services, nlp: Nlp)
      ensures translator == Text.AutoTranslator(services) && this.nlp == nlp
      ensures documentLanguage == None && Valid()
    {
      translator := Text.AutoTranslator(services);
      this.nlp := nlp;
      documentLanguage := None;
    }

    /** Document k is made from entry k: its file name, the page's tokens without
        stopwords, and a zero score. */
    ghost predicate MadeFrom(documents: seq<Document>, entries: seq<(string, string)>)
      reads documents
    {
      && |documents| == |entries|
      && forall k :: 0 <= k < |documents| ==>
           && documents[k].name == entries[k].0
           && documents[k].content == TokenizeWithoutStopwords(translator, nlp, entries[k].1)
           && documents[k].score == 0
    }

    lemma MadeFromSnoc(documents: seq<Document>, entries: seq<(string, string)>,
                       d: Document, e: (string, string))
      requires MadeFrom(documents, entries)
      requires d.name == e.0 && d.content == TokenizeWithoutStopwords(translator, nlp, e.1) && d.score == 0
      ensures MadeFrom(documents + [d], entries + [e])
    {
    }

    /** Documents made from entries of some files carry names of those files. */
    lemma NamesFromEntries(documents: seq<Document>, entries: seq<(string, string)>, files: seq<string>)
      requires MadeFrom(documents, entries)
      requires forall k :: 0 <= k < |entries| ==> entries[k].0 in files
      ensures forall d :: d in documents ==> d.name in files
    {
      forall d | d in documents ensures d.name in files {
        var k :| 0 <= k < |documents| && documents[k] == d;
      }
    }

    /** `process_documents`: one fresh document per page of each text file of the listing,
        in order, holding the page's tokens without stopwords and a zero score. */
    method ProcessDocuments(listing: seq<string>, load: string -> seq<string>)
      returns (documents: seq<Document>)
      ensures MadeFrom(documents, Entries(GetTextFiles(listing), load))
      ensures forall k :: 0 <= k < |documents| ==> fresh(documents[k])
      ensures Distinctive(documents)
    {
      var fileList := GetTextFiles(listing);
      documents := [];
      for i := 0 to |fileList|
        invariant MadeFrom(documents, Entries(fileList[..i], load))
        invariant forall k :: 0 <= k < |documents| ==> fresh(documents[k])
        invariant Distinctive(documents)
      {
        var fileName := fileList[i];
        var texts := load(fileName);
        EntriesSnoc(fileList, i, load);
        documents := AddPages(documents, fileName, texts, Entries(fileList[..i], load));
      }
      assert fileList[..|fileList|] == fileList;
    }

    /** The inner loop of `process_documents`: one new document per page of one file. */
    method AddPages(documents: seq<Document>, fileName: string, texts: seq<string>,
                    ghost before: seq<(string, string)>)
      returns (documents': seq<Document>)
      requires MadeFrom(documents, before) && Distinctive(documents)
      ensures MadeFrom(documents', before + Pages(fileName, texts))
      ensures documents' [..|documents|] == documents
      ensures forall k :: |documents| <= k < |documents'| ==> fresh(documents'[k])
      ensures Distinctive(documents')
    {
      ghost var pages := Pages(fileName, texts);
      documents' := documents;
      for j := 0 to |texts|
        invariant MadeFrom(documents', before + pages[..j])
        invariant documents'[..|documents|] == documents
        invariant forall k :: |documents| <= k < |documents'| ==> fresh(documents'[k])
        invariant Distinctive(documents')
      {
        var document := new Document(fileName, TokenizeWithoutStopwords(translator, nlp, texts[j]));
        PrefixSnoc(before, pages, j);
        MadeFromSnoc(documents', before + pages[..j], document, pages[j]);
        DistinctiveSnoc(documents', document);
        documents' := documents' + [document];
      }
      assert pages[..|texts|] == pages;
    }

    /** `detect_document_language`: sets the corpus language as `ResolveLanguage` says;
        on an empty list with no language held it raises `IndexError` (`ok` false) and
        changes nothing. */
    method DetectDocumentLanguage(documents: seq<Document>) returns (ok: bool)
      modifies this
      ensures var resolved := ResolveLanguage(translator, old(documentLanguage), old(ContentsOf(documents)));
        && ok == resolved.Ok?
        && documentLanguage == (if ok then resolved.value else old(documentLanguage))
      ensures old(Valid()) ==> Valid()
      ensures ContentsOf(documents) == old(ContentsOf(documents)) && ScoresOf(documents) == old(ScoresOf(documents))
    {
      ghost var contents := ContentsOf(documents);
      ScanForStableDocument(documents);
      if documentLanguage == None {
        if |documents| == 0 {
          return false;
        }
        assert documents[0].content == contents[0];
        documentLanguage := DetectLanguage(translator, Join(documents[0].content, " "));
      }
      ok := true;
    }

    /** The loop of `detect_document_language`: the first document with a stable
        token count sets the corpus language, and the scan stops there. */
    method ScanForStableDocument(documents: seq<Document>)
      modifies this
      ensures documentLanguage == StableLanguage(translator, old(documentLanguage), old(ContentsOf(documents)))
    {
      ghost var contents := ContentsOf(documents);
      for i := 0 to |documents|
        invariant forall j :: 0 <= j < i ==> !Stable(contents[j])
        invariant documentLanguage == old(documentLanguage)
      {
        var wordCount := |documents[i].content|;
        if 10 < wordCount && wordCount < 50 {
          documentLanguage := DetectLanguage(translator, Join(documents[i].content, " "));
          FirstStableAt(contents, i);
          return;
        }
      }
    }

    /** `find_top_documents`: translates the keywords for the corpus language, gives
        each document the score at its own position (`zip` stops at the shorter list),
        and returns `heapq.nlargest(3, ...)` of the documents by score: at most three
        distinct documents of the input, by descending score, ties in input order. */
    method FindTopDocuments(keywords: seq<string>, documents: seq<Document>) returns (top: seq<Document>)
      requires Distinctive(documents)
      modifies documents
      ensures forall i :: 0 <= i < |documents| ==> documents[i].content == old(documents[i].content)
      ensures var scores := nlp.bm25Scores(old(ContentsOf(documents)),
                                           Text.KeywordTranslations(translator, keywords, documentLanguage));
        forall i :: 0 <= i < |documents| ==>
          documents[i].score == if i < |scores| then scores[i] else old(documents[i].score)
      ensures var picked := Ranking.NLargest(3, ScoresOf(documents));
        |top| == |picked| && forall t :: 0 <= t < |top| ==> top[t] == documents[picked[t]]
      ensures |top| == Ranking.Min(3, |documents|)
      ensures forall t :: 0 <= t < |top| ==> top[t] in documents
      ensures forall p, q :: 0 <= p < q < |top| ==> top[p].score >= top[q].score
      ensures forall t, d :: 0 <= t < |top| && d in documents && d !in top ==> top[t].score >= d.score
    {
      var translatedKeywords := Text.AutoTranslateKeywords(translator, keywords, documentLanguage);
      var docScores := nlp.bm25Scores(ContentsOf(documents), translatedKeywords);
      AssignScores(documents, docScores);
      top := Largest(documents);
    }

    /** `for document, score in zip(documents, doc_scores): document.score = score`. */
    static method AssignScores(documents: seq<Document>, docScores: seq<int>)
      requires Distinctive(documents)
      modifies documents
      ensures forall j :: 0 <= j < |documents| ==> documents[j].content == old(documents[j].content)
      ensures forall j :: 0 <= j < |documents| ==>
        documents[j].score == if j < |docScores| then docScores[j] else old(documents[j].score)
    {
      var i := 0;
      while i < |documents| && i < |docScores|
        invariant 0 <= i <= |documents| && i <= |docScores|
        invariant forall j :: 0 <= j < |documents| ==> documents[j].content == old(documents[j].content)
        invariant forall j :: 0 <= j < |documents| ==>
          documents[j].score == if j < i then docScores[j] else old(documents[j].score)
      {
        documents[i].score := docScores[i];
        i := i + 1;
      }
    }

    /** `heapq.nlargest(3, documents, key=lambda x: x.score)`: at most three documents of
        the list, by descending score, none of them outscored by a document left out. */
    static method Largest(documents: seq<Document>) returns (top: seq<Document>)
      ensures var picked := Ranking.NLargest(3, ScoresOf(documents));
        |top| == |picked| && forall t :: 0 <= t < |top| ==> top[t] == documents[picked[t]]
      ensures |top| == Ranking.Min(3, |documents|)
      ensures forall t :: 0 <= t < |top| ==> top[t] in documents
      ensures forall p, q :: 0 <= p < q < |top| ==> top[p].score >= top[q].score
      ensures forall t, d :: 0 <= t < |top| && d in documents && d !in top ==> top[t].score >= d.score
    {
      var keys := ScoresOf(documents);
      var picked := Ranking.NLargest(3, keys);
      top := seq(|picked|, t requires 0 <= t < |picked| => documents[picked[t]]);
      forall p, q | 0 <= p < q < |top| ensures top[p].score >= top[q].score {
        assert Ranking.Before(keys, picked[p], picked[q]);
      }
      forall t, d | 0 <= t < |top| && d in documents && d !in top ensures top[t].score >= d.score {
        var j :| 0 <= j < |documents| && documents[j] == d;
        assert j !in picked by {
          forall s | 0 <= s < |picked| ensures picked[s] != j { assert top[s] == documents[picked[s]]; }
        }
        assert Ranking.Before(keys, picked[t], j);
      }
    }

    /** Documents made from entries show the entries' names, the pages' tokens without
        stopwords, and zero scores. */
    lemma MadeFromViews(documents: seq<Document>, entries: seq<(string, string)>)
      requires MadeFrom(documents, entries)
      ensures ContentsOf(documents) == PageTokens(translator, nlp, entries)
      ensures ScoresOf(documents) == Zeros(|entries|)
      ensures NamesOf(documents) == EntryNames(entries)
    {
    }

    /** `search_documents`: keywords of the question, documents of the folder, corpus
        language, top documents, records. With BM25 as a total function, it fails
        (`IndexError`) exactly when the folder holds no page and no corpus language is
        held from an earlier call, and then the corpus language is unchanged. Otherwise the corpus language becomes the one
        `ResolveLanguage` gives for the pages, and the records are the top three pages
        for the question: BM25 scores of the pages for the question's keywords, as
        translated for that language, ranked as `heapq.nlargest` ranks them. Since the
        backend only ever holds full language names, every keyword is translated. */
    method SearchDocuments(question: string, listing: seq<string>, load: string -> seq<string>)
      returns (result: Result<seq<Record>, PyError>)
      modifies this
      ensures result.Err? <==> Entries(GetTextFiles(listing), load) == [] && old(documentLanguage) == None
      ensures old(Valid()) ==> Valid()
      ensures var entries := Entries(GetTextFiles(listing), load);
        var resolved := ResolveLanguage(translator, old(documentLanguage), PageTokens(translator, nlp, entries));
        documentLanguage == if resolved.Ok? then resolved.value else old(documentLanguage)
      ensures result.Ok? ==>
        var entries := Entries(GetTextFiles(listing), load);
        result.value == TopRecords(EntryNames(entries),
                                   SearchScores(translator, nlp, question, entries, documentLanguage))
      ensures result.Ok? && old(Valid()) ==>
        var entries := Entries(GetTextFiles(listing), load);
        var query := Text.TranslateEach(translator, GetKeywords(translator, nlp, question));
        result.value == TopRecords(EntryNames(entries),
                                   Assigned(nlp.bm25Scores(PageTokens(translator, nlp, entries), query),
                                            Zeros(|entries|)))
      ensures result.Ok? ==> forall t :: 0 <= t < |result.value| ==>
        result.value[t].name in GetTextFiles(listing)
    {
      var keywords := GetKeywords(translator, nlp, question);
      var documents := ProcessDocuments(listing, load);
      ghost var files := GetTextFiles(listing);
      ghost var entries := Entries(files, load);
      EntriesNameFiles(files, load);
      NamesFromEntries(documents, entries, files);
      MadeFromViews(documents, entries);
      result := RankDocuments(question, keywords, documents, entries, files);
    }

    /** The part of `search_documents` after the documents are made: the corpus
        language is detected from the pages, then the top three pages for the question
        are reported; `IndexError` when there is neither a page nor an earlier language. */
    method RankDocuments(question: string, keywords: seq<string>, documents: seq<Document>,
                         ghost entries: seq<(string, string)>, ghost files: seq<string>)
      returns (result: Result<seq<Record>, PyError>)
      requires keywords == GetKeywords(translator, nlp, question)
      requires ContentsOf(documents) == PageTokens(translator, nlp, entries)
      requires ScoresOf(documents) == Zeros(|entries|)
      requires NamesOf(documents) == EntryNames(entries)
      requires Distinctive(documents)
      requires forall d :: d in documents ==> d.name in files
      modifies this, documents
      ensures result.Err? <==> entries == [] && old(documentLanguage) == None
      ensures old(Valid()) ==> Valid()
      ensures var resolved := ResolveLanguage(translator, old(documentLanguage), PageTokens(translator, nlp, entries));
        documentLanguage == if resolved.Ok? then resolved.value else old(documentLanguage)
      ensures result.Ok? ==>
        result.value == TopRecords(EntryNames(entries),
                                   SearchScores(translator, nlp, question, entries, documentLanguage))
      ensures result.Ok? && old(Valid()) ==>
        var query := Text.TranslateEach(translator, GetKeywords(translator, nlp, question));
        result.value == TopRecords(EntryNames(entries),
                                   Assigned(nlp.bm25Scores(PageTokens(translator, nlp, entries), query),
                                            Zeros(|entries|)))
      ensures result.Ok? ==> forall t :: 0 <= t < |result.value| ==> result.value[t].name in files
    {
      ghost var contents, zeros := ContentsOf(documents), ScoresOf(documents);
      var ok := DetectDocumentLanguage(documents);
      if !ok {
        return Err(IndexError);
      }
      ghost var names := NamesOf(documents);
      var records := ReportTopDocuments(keywords, documents, files);
      ReportedAreSearched(translator, nlp, question, keywords, entries, documentLanguage, contents, zeros, names);
      return Ok(records);
    }

    /** The end of `search_documents`: scores the documents for the keywords and gives
        the records of the top three, best first, named after the documents' files. */
    method ReportTopDocuments(keywords: seq<string>, documents: seq<Document>, ghost files: seq<string>)
      returns (records: seq<Record>)
      requires Distinctive(documents)
      requires forall d :: d in documents ==> d.name in files
      modifies documents
      ensures var query := Text.KeywordTranslations(translator, keywords, documentLanguage);
        records == TopRecords(NamesOf(documents),
                              Assigned(nlp.bm25Scores(old(ContentsOf(documents)), query), old(ScoresOf(documents))))
      ensures forall t :: 0 <= t < |records| ==> records[t].name in files
    {
      ghost var query := Text.KeywordTranslations(translator, keywords, documentLanguage);
      ghost var expected := Assigned(nlp.bm25Scores(ContentsOf(documents), query), ScoresOf(documents));
      var top := FindTopDocuments(keywords, documents);
      assert ScoresOf(documents) == expected;
      records := BuildRecords(top);
      ghost var picked := Ranking.NLargest(3, expected);
      assert |records| == |picked|;
      forall t | 0 <= t < |records|
        ensures records[t] == Record(NamesOf(documents)[picked[t]], PathJoin(FolderPath, NamesOf(documents)[picked[t]]),
                                     expected[picked[t]])
      {
        assert top[t] == documents[picked[t]];
      }
    }
  }
}
