/** The prompt the search assistant sends to the language model: the retrieved context
    and the user's question, with the context cut down when the total word budget
    of the model is exceeded. */
module SearchAssistant {
  import opened Strings
  import opened Lists

  /** Words the fixed parts of the prompt are counted as. */
  const PromptLength := 65

  /** The budget the total is compared against. */
  const TokenLimit := 4097

  const ContextHeader := "\n**Context:**\n"
  const QuestionHeader := "**Question:** "
  /** The line break after the question and the closing line. */
  const AnswerFooter := "\n**Helpful Answer:**"

  /** `len(question.split())`: at most one word per non-whitespace character, and no
      words exactly when the question is blank. */
  function QueryLength(question: string): (n: nat)
    ensures n <= |NonSpace(question)|
    ensures n == 0 <==> NonSpace(question) == []
  {
    SplitWhitespaceKeepsText(question);
    ConcatOfWords(SplitWhitespace(question));
    |SplitWhitespace(question)|
  }

  /** The budget count: question words, context items and the fixed prompt. It is
      never below the context plus the fixed prompt, and equal to that exactly for a
      blank question. */
  function TotalLength(context: seq<string>, question: string): (n: nat)
    ensures n >= |context| + PromptLength
    ensures n == |context| + PromptLength <==> NonSpace(question) == []
  {
    QueryLength(question) + |context| + PromptLength
  }

  /** `a` is a prefix of `b`. */
  predicate IsPrefix<T(==)>(a: seq<T>, b: seq<T>) {
    |a| <= |b| && b[..|a|] == a
  }

  /** The context items the prompt keeps, as written: everything when the total is
      within budget, otherwise `context[:len(context) - (query_length + prompt_length)]`.
      The slice end may be negative, and then Python counts it from the end. */
  function KeptContext(context: seq<string>, question: string): (kept: seq<string>)
    ensures IsPrefix(kept, context)
    ensures TotalLength(context, question) <= TokenLimit ==> kept == context
    ensures TotalLength(context, question) > TokenLimit && |context| >= QueryLength(question) + PromptLength ==>
      |kept| == |context| - (QueryLength(question) + PromptLength)
    ensures TotalLength(context, question) > TokenLimit && |context| < QueryLength(question) + PromptLength ==>
      |kept| == (if 2 * |context| >= QueryLength(question) + PromptLength
                 then 2 * |context| - (QueryLength(question) + PromptLength) else 0)
  {
    if TotalLength(context, question) > TokenLimit then
      PySlice(context, 0, |context| - (QueryLength(question) + PromptLength))
    else context
  }

  /** The prompt text around a given context text. */
  function Prompt(contextText: string, question: string): (prompt: string)
    ensures IsPrefix(ContextHeader + contextText + "\n\n", prompt)
    ensures |prompt| >= |QuestionHeader + question + AnswerFooter|
    ensures prompt[|prompt| - |QuestionHeader + question + AnswerFooter|..]
            == QuestionHeader + question + AnswerFooter
  {
    var head := ContextHeader + contextText + "\n\n";
    var tail := QuestionHeader + question + AnswerFooter;
    ConcatParts(head, tail);
    head + tail
  }

  /** `prompt_template(context, question)`. */
  function PromptTemplate(context: seq<string>, question: string): (prompt: string)
    ensures IsPrefix(ContextHeader, prompt)
    ensures IsPrefix(ContextHeader + Join(KeptContext(context, question), " ") + "\n\n", prompt)
    ensures |prompt| >= |QuestionHeader + question + AnswerFooter|
    ensures prompt[|prompt| - |QuestionHeader + question + AnswerFooter|..]
            == QuestionHeader + question + AnswerFooter
  {
    var head := ContextHeader + Join(KeptContext(context, question), " ") + "\n\n";
    var prompt := Prompt(Join(KeptContext(context, question), " "), question);
    assert prompt[..|ContextHeader|] == head[..|ContextHeader|] == ContextHeader;
    prompt
  }

  /** A concatenation starts with its first part and ends with its second. */
  lemma ConcatParts<T>(a: seq<T>, b: seq<T>)
    ensures (a + b)[..|a|] == a && (a + b)[|a|..] == b
  {
  }

  /** The question can be read back from the end of the prompt, unchanged, right
      after the question header. */
  lemma QuestionVerbatim(context: seq<string>, question: string)
    ensures var prompt := PromptTemplate(context, question);
      var end := |prompt| - |AnswerFooter|;
      end - |question| >= |QuestionHeader| &&
      prompt[end - |question| - |QuestionHeader| .. end - |question|] == QuestionHeader &&
      prompt[end - |question| .. end] == question
  {
    SuffixParts(PromptTemplate(context, question), QuestionHeader, question, AnswerFooter);
  }

  /** The parts of a suffix `a + b + c` sit at the expected places from the end. */
  lemma SuffixParts<T>(p: seq<T>, a: seq<T>, b: seq<T>, c: seq<T>)
    requires |p| >= |a + b + c| && p[|p| - |a + b + c|..] == a + b + c
    ensures |p| - |c| - |b| >= |a|
    ensures p[|p| - |c| - |b| - |a| .. |p| - |c| - |b|] == a
    ensures p[|p| - |c| - |b| .. |p| - |c|] == b
  {
    var s := |p| - |a + b + c|;
    assert p[s .. s + |a|] == (a + b + c)[..|a|];
    assert p[s + |a| .. s + |a| + |b|] == (a + b + c)[|a| .. |a| + |b|];
  }

  /** Joining a prefix of the parts gives a prefix of the joined text. */
  lemma {:induction false} JoinPrefix(parts: seq<string>, k: nat, sep: string)
    requires k <= |parts|
    ensures IsPrefix(Join(parts[..k], sep), Join(parts, sep))
  {
    if k == 0 {
      assert parts[..0] == [];
    } else if |parts| > 1 {
      assert Join(parts, sep) == parts[0] + sep + Join(parts[1..], sep);
      if k > 1 {
        JoinPrefix(parts[1..], k - 1, sep);
        assert parts[..k][1..] == parts[1..][..k - 1];
        assert Join(parts[..k], sep) == parts[0] + sep + Join(parts[1..][..k - 1], sep);
      } else {
        assert parts[..k] == [parts[0]];
      }
    } else {
      assert parts[..k] == parts;
    }
  }

  /** Cutting the context only ever drops text from its end: the context text of the
      prompt is a prefix of all the context joined together. */
  lemma ContextTextIsPrefix(context: seq<string>, question: string)
    ensures IsPrefix(Join(KeptContext(context, question), " "), Join(context, " "))
  {
    var kept := KeptContext(context, question);
    assert kept == context[..|kept|];
    JoinPrefix(context, |kept|, " ");
  }

  /** As written, the cut keeps `len(context) - (query_length + prompt_length)` items,
      so the recounted total is exactly `len(context)`: whenever the context alone has
      more than 4097 items, the prompt still exceeds the budget after the cut. */
  lemma TruncationStillOverBudget(context: seq<string>, question: string)
    requires |context| > TokenLimit
    ensures TotalLength(context, question) > TokenLimit
    ensures |context| >= QueryLength(question) + PromptLength ==>
      TotalLength(KeptContext(context, question), question) == |context|
    ensures TotalLength(KeptContext(context, question), question) > TokenLimit
  {
  }

  /** A concrete instance: 5000 context items and a one-word question keep 4934 items,
      for a recounted total of 5000. */
  lemma TruncationExample()
    ensures |KeptContext(seq(5000, i => "w"), "why")| == 4934
    ensures TotalLength(KeptContext(seq(5000, i => "w"), "why"), "why") == 5000
  {
    SplitWhitespaceOfWord("why");
  }

  /** The evidently intended cut: keep as many leading items as the budget has room
      for after the question and the fixed prompt, and all of them when they fit. */
  function FittedContext(context: seq<string>, question: string): (kept: seq<string>)
    ensures IsPrefix(kept, context)
    ensures TotalLength(context, question) <= TokenLimit ==> kept == context
    ensures QueryLength(question) + PromptLength <= TokenLimit ==>
      TotalLength(kept, question) <= TokenLimit
  {
    var room := TokenLimit - (QueryLength(question) + PromptLength);
    if TotalLength(context, question) <= TokenLimit then context
    else if room <= 0 then []
    else context[..room]
  }

  /** The cut is as small as it can be: an over-budget context is cut to exactly the
      room left, so one more item would break the budget. */
  lemma FittedContextIsLargest(context: seq<string>, question: string)
    requires TotalLength(context, question) > TokenLimit
    requires QueryLength(question) + PromptLength <= TokenLimit
    ensures TotalLength(FittedContext(context, question), question) == TokenLimit
  {
  }

  /** The prompt built around the corrected cut: the same layout, with a context text
      that is a prefix of all the context joined and that keeps the count in budget. */
  function FittedPromptTemplate(context: seq<string>, question: string): (prompt: string)
    ensures IsPrefix(ContextHeader + Join(FittedContext(context, question), " ") + "\n\n", prompt)
    ensures IsPrefix(Join(FittedContext(context, question), " "), Join(context, " "))
    ensures QueryLength(question) + PromptLength <= TokenLimit ==>
      TotalLength(FittedContext(context, question), question) <= TokenLimit
    ensures |prompt| >= |QuestionHeader + question + AnswerFooter|
    ensures prompt[|prompt| - |QuestionHeader + question + AnswerFooter|..]
            == QuestionHeader + question + AnswerFooter
  {
    var kept := FittedContext(context, question);
    assert kept == context[..|kept|];
    JoinPrefix(context, |kept|, " ");
    Prompt(Join(kept, " "), question)
  }
}
