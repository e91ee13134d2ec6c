/** text.py: text sanitisation, language detection and the translator classes.
    The language detector (`langid.classify`) and the network translator (`googletrans`)
    are foreign; they are fields of `Services`, so every property below holds whatever
    they return. */
module Text {
  import opened Wrappers
  import opened Strings

  /** A character the pattern `[a-zA-Z0-9]` matches. */
  predicate IsAsciiAlnum(c: char) {
    'a' <= c <= 'z' || 'A' <= c <= 'Z' || '0' <= c <= '9'
  }

  /** `re.sub(r"[^a-zA-Z0-9]", " ", text)`: one character for one character. */
  function Substitute(s: string): (r: string)
    ensures |r| == |s|
    ensures forall i :: 0 <= i < |s| ==> r[i] == if IsAsciiAlnum(s[i]) then s[i] else ' '
  {
    seq(|s|, i requires 0 <= i < |s| => if IsAsciiAlnum(s[i]) then s[i] else ' ')
  }

  /** `Text.sanitize_text`: non-alphanumerics become spaces, then the ends are stripped.
      The result holds only ASCII letters, digits and spaces, is no longer than the input,
      and is empty or starts and ends with a letter or digit. */
  function SanitizeText(s: string): (r: string)
    ensures |r| <= |s|
    ensures forall i :: 0 <= i < |r| ==> IsAsciiAlnum(r[i]) || r[i] == ' '
    ensures r == [] || (IsAsciiAlnum(r[0]) && IsAsciiAlnum(r[|r| - 1]))
  {
    Strip(Substitute(s))
  }

  /** Letters and digits are not whitespace. */
  lemma AlnumIsNotSpace(c: char)
    requires IsAsciiAlnum(c)
    ensures !IsSpace(c)
  {
  }

  /** The sanitised text is the substituted text with a run of spaces cut from each end. */
  lemma SanitizeIsTrimmedSubstitution(s: string)
    ensures exists i, j :: (0 <= i <= j <= |s|
      && SanitizeText(s) == Substitute(s)[i..j]
      && (forall k :: 0 <= k < i ==> Substitute(s)[k] == ' ')
      && (forall k :: j <= k < |s| ==> Substitute(s)[k] == ' '))
  {
    var t := Substitute(s);
    var i := SpaceLength(t);
    var u := t[i..];
    var j := i + |u| - TrailingSpaceLength(u);
    assert SanitizeText(s) == t[i..j];
    forall k | 0 <= k < i ensures t[k] == ' ' {
      SubstitutedSpace(s, k);
    }
    forall k | j <= k < |s| ensures t[k] == ' ' {
      assert u[k - i] == t[k];
      SubstitutedSpace(s, k);
    }
  }

  /** The only whitespace a substitution leaves is the plain space. */
  lemma SubstitutedSpace(s: string, k: int)
    requires 0 <= k < |s| && IsSpace(Substitute(s)[k])
    ensures Substitute(s)[k] == ' '
  {
    if IsAsciiAlnum(s[k]) { AlnumIsNotSpace(s[k]); }
  }

  /** Sanitising is idempotent: a sanitised text is its own sanitisation. */
  lemma SanitizeIdempotent(s: string)
    ensures SanitizeText(SanitizeText(s)) == SanitizeText(s)
  {
    var r := SanitizeText(s);
    assert Substitute(r) == r;
    if r != [] {
      AlnumIsNotSpace(r[0]);
      AlnumIsNotSpace(r[|r| - 1]);
    }
    StripUnchanged(r);
  }

  /** `Text.text_length`: the number of pieces of `text.split(" ")`, one more than the
      number of spaces, so at least 1 even for the empty text. */
  function TextLength(text: string): (n: int)
    ensures n == multiset(text)[' '] + 1
    ensures n >= 1
  {
    SplitCount(text, ' ');
    |Split(text, ' ')|
  }

  /** `Text.batch_sanitize_text`: each text of the batch sanitised, in order. */
  function BatchSanitizeText(batch: seq<string>): (r: seq<string>)
    ensures |r| == |batch|
    ensures forall i :: 0 <= i < |batch| ==> r[i] == SanitizeText(batch[i])
  {
    if batch == [] then [] else [SanitizeText(batch[0])] + BatchSanitizeText(batch[1..])
  }

  /** Sanitising a batch twice is the same as sanitising it once. */
  lemma BatchSanitizeIdempotent(batch: seq<string>)
    ensures BatchSanitizeText(BatchSanitizeText(batch)) == BatchSanitizeText(batch)
  {
    var once := BatchSanitizeText(batch);
    forall i | 0 <= i < |batch| ensures BatchSanitizeText(once)[i] == once[i] {
      SanitizeIdempotent(batch[i]);
    }
  }

  /** The foreign services text.py uses: `langid.classify` (of whose result only the
      language code is used) and googletrans' `Translator.translate(text, dest, src)`
      (of whose result only `.text` is used). */
  datatype Services = Services(
    classify: string -> string,
    translate: (string, string, string) -> string)

  /** The translator classes: `AutoTranslator`, and `SanitizedTextTranslator`, which
      overrides `text_translator` to sanitise the text before delegating. */
  datatype Translator =
    | AutoTranslator(services: Services)
    | SanitizedTextTranslator(services: Services)

  /** `Text.detect_language(text, sanitize)`: the code the detector gives for the text,
      sanitised first when asked to. */
  function DetectLanguage(services: Services, text: string, sanitize: bool): (code: string)
    ensures sanitize ==> code == services.classify(SanitizeText(text))
    ensures !sanitize ==> code == services.classify(text)
  {
    services.classify(if sanitize then SanitizeText(text) else text)
  }

  /** Detection with sanitising sees only the sanitised text: a text and its sanitised
      form are always given the same code. */
  lemma DetectSanitizedIgnoresNoise(services: Services, text: string)
    ensures DetectLanguage(services, SanitizeText(text), true) == DetectLanguage(services, text, true)
  {
    SanitizeIdempotent(text);
  }

  /** The text a translator hands to the network service. */
  function SentText(tr: Translator, text: string): string {
    if tr.SanitizedTextTranslator? then SanitizeText(text) else text
  }

  /** `AutoTranslator.text_translator(text, target, source)`: a source of "auto" is
      replaced by the detected language of the text before the service is called. */
  function AutoTextTranslator(services: Services, text: string, target: string, source: string): string {
    var src := if source == "auto" then DetectLanguage(services, text, false) else source;
    services.translate(text, target, src)
  }

  /** `text_translator(text, target, source)`, dispatched on the translator class
      (`SanitizedTextTranslator.text_translator` sanitises, then calls the inherited one).
      Whatever the class, the service receives the text the class sends, the requested
      target and, when the source is "auto", the language detected on that same sent text. */
  function TextTranslator(tr: Translator, text: string, target: string, source: string): (r: string)
    ensures var sent := SentText(tr, text);
      r == tr.services.translate(sent, target,
                                 if source == "auto" then tr.services.classify(sent) else source)
  {
    match tr
    case AutoTranslator(services) => AutoTextTranslator(services, text, target, source)
    case SanitizedTextTranslator(services) => AutoTextTranslator(services, SanitizeText(text), target, source)
  }

  /** The sanitising translator gives the same answer for a text and for its sanitised form. */
  lemma SanitizedTranslatorIgnoresNoise(services: Services, text: string, target: string, source: string)
    ensures TextTranslator(SanitizedTextTranslator(services), SanitizeText(text), target, source)
         == TextTranslator(SanitizedTextTranslator(services), text, target, source)
  {
    SanitizeIdempotent(text);
  }

  /** `AutoTranslator.auto_translate_question`: translates the question into the document
      language when that is "id" or "en"; otherwise the Python method falls off its end
      and returns `None`. */
  function AutoTranslateQuestion(tr: Translator, question: string, documentLanguage: Option<string>)
    : (r: Option<string>)
    ensures r.Some? <==> documentLanguage == Some("id") || documentLanguage == Some("en")
    ensures r.Some? ==> r.value == TextTranslator(tr, question, documentLanguage.value, "auto")
  {
    if documentLanguage == Some("id") then Some(TextTranslator(tr, question, "id", "auto"))
    else if documentLanguage == Some("en") then Some(TextTranslator(tr, question, "en", "auto"))
    else None
  }

  /** Each keyword translated into English with the source detected, in order. */
  function TranslateEach(tr: Translator, keywords: seq<string>): (r: seq<string>)
    ensures |r| == |keywords|
    ensures forall i :: 0 <= i < |keywords| ==> r[i] == TextTranslator(tr, keywords[i], "en", "auto")
  {
    if keywords == [] then []
    else TranslateEach(tr, keywords[..|keywords| - 1])
           + [TextTranslator(tr, keywords[|keywords| - 1], "en", "auto")]
  }

  /** What `auto_translate_keywords` returns: nothing when the document language is "id",
      otherwise every keyword translated. */
  function KeywordTranslations(tr: Translator, keywords: seq<string>, documentLanguage: Option<string>)
    : seq<string>
  {
    if documentLanguage == Some("id") then [] else TranslateEach(tr, keywords)
  }

  /** `AutoTranslator.auto_translate_keywords`: the empty list when the document language
      is "id"; otherwise one translation per keyword, keyword i's at position i. */
  method AutoTranslateKeywords(tr: Translator, keywords: seq<string>, documentLanguage: Option<string>)
    returns (translated: seq<string>)
    ensures translated == KeywordTranslations(tr, keywords, documentLanguage)
    ensures documentLanguage == Some("id") ==> translated == []
    ensures documentLanguage != Some("id") ==>
      |translated| == |keywords|
      && forall i :: 0 <= i < |keywords| ==> translated[i] == TextTranslator(tr, keywords[i], "en", "auto")
  {
    translated := [];
    if documentLanguage != Some("id") {
      for i := 0 to |keywords|
        invariant translated == TranslateEach(tr, keywords[..i])
      {
        assert keywords[..i + 1][..i] == keywords[..i];
        translated := translated + [TextTranslator(tr, keywords[i], "en", "auto")];
      }
      assert keywords[..|keywords|] == keywords;
    }
  }
}
