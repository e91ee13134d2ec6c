/** The document splitter: the text of a loaded PDF or Word document is cut into
    files of at most `max_word` words each, and the command line chooses what to do. */
module Manipulator {
  import opened Wrappers
  import opened Strings
  import opened Lists

  /** The exception `read_and_split` raises on its own: `// 0` with `max_word == 0`. */
  datatype SplitError = ZeroDivisionError

  /** All words of all pages: the page texts joined with a space, then `split()`.
      The words are the maximal whitespace-free runs of the joined text: each is a
      non-empty run without whitespace, and put back between the whitespace runs of
      the text (non-empty between two words) they give the joined text again. */
  function Words(pages: seq<string>): (words: seq<string>)
    ensures forall i :: 0 <= i < |words| ==> IsWord(words[i])
    ensures var gaps := Gaps(Join(pages, " "));
      && |gaps| == |words| + 1
      && (forall i :: 0 <= i < |gaps| ==> AllSpace(gaps[i]))
      && (forall i :: 0 < i < |words| ==> gaps[i] != [])
      && Interleave(gaps, words) == Join(pages, " ")
    ensures Concat(words) == NonSpace(Join(pages, " "))
  {
    SplitWhitespaceKeepsText(Join(pages, " "));
    SplitWhitespaceSeparates(Join(pages, " "));
    SplitWhitespace(Join(pages, " "))
  }

  /** `(n + m - 1) // m`: the number of files the loop writes (none when negative).
      With a positive limit it is never negative, and it is 0 exactly when there are
      no words. */
  function FileCount(n: nat, m: int): (c: int)
    requires m != 0
    ensures m > 0 ==> c >= 0
    ensures m > 0 ==> (c == 0 <==> n == 0)
  {
    FloorDiv(n + m - 1, m)
  }

  /** The words of file `i`: `words[i*m : min((i+1)*m, len(words))]` with Python's
      slicing rules, which also give a meaning to a negative `m`. Whatever the bounds,
      they are consecutive words of the list, and with a positive limit and a file
      number that is not negative there are at most `m` of them. */
  function ChunkWords(words: seq<string>, m: int, i: int): (chunk: seq<string>)
    ensures exists a, b :: 0 <= a <= b <= |words| && chunk == words[a..b]
    ensures m > 0 && i >= 0 ==> |chunk| <= m
  {
    var stop := if (i + 1) * m < |words| then (i + 1) * m else |words|;
    var a := SliceBound(|words|, i * m);
    var b := SliceBound(|words|, stop);
    assert PySlice(words, i * m, stop) == if a < b then words[a..b] else words[0..0];
    assert m > 0 && i >= 0 ==> b - a <= m by {
      if m > 0 && i >= 0 {
        assert (i + 1) * m == i * m + m;
        MulMonotone(0, i, m);
      }
    }
    PySlice(words, i * m, stop)
  }

  /** The text written to file `i`: its words joined by single spaces, optionally
      passed through the paragraph wrapper, then lower-cased, so it holds no ASCII
      capital; without wrapping it is exactly as long as the joined words. */
  function ChunkText(words: seq<string>, m: int, i: int, wrap: bool, fill: string -> string)
    : (text: string)
    ensures forall j :: 0 <= j < |text| ==> !('A' <= text[j] <= 'Z')
    ensures !wrap ==> |text| == |Join(ChunkWords(words, m, i), " ")|
  {
    var joined := Join(ChunkWords(words, m, i), " ");
    Lower(if wrap then fill(joined) else joined)
  }

  /** `read_and_split`: the texts of the files written, in the order they are written.
      `fill` stands for `textwrap.fill(_, width=70)`. */
  method ReadAndSplit(pages: seq<string>, maxWords: int, wrap: bool, fill: string -> string)
      returns (r: Result<seq<string>, SplitError>)
    ensures r.Err? <==> maxWords == 0
    ensures r.Ok? ==> |r.value| == (if FileCount(|Words(pages)|, maxWords) < 0 then 0
                                    else FileCount(|Words(pages)|, maxWords))
    ensures r.Ok? ==> forall i :: 0 <= i < |r.value| ==>
      r.value[i] == ChunkText(Words(pages), maxWords, i, wrap, fill)
  {
    var words := SplitWhitespace(Join(pages, " "));
    if maxWords == 0 {
      return Err(ZeroDivisionError);
    }
    var written := WriteChunks(words, maxWords, wrap, fill);
    return Ok(written);
  }

  /** The writing loop of `read_and_split`: one text per file, `num_files` of them. */
  method WriteChunks(words: seq<string>, maxWords: int, wrap: bool, fill: string -> string)
      returns (written: seq<string>)
    requires maxWords != 0
    ensures |written| == if FileCount(|words|, maxWords) < 0 then 0 else FileCount(|words|, maxWords)
    ensures forall i :: 0 <= i < |written| ==> written[i] == ChunkText(words, maxWords, i, wrap, fill)
  {
    var numFiles := FloorDiv(|words| + maxWords - 1, maxWords);
    written := [];
    // `range(num_files)` is empty when `num_files` is negative.
    for i := 0 to if numFiles < 0 then 0 else numFiles
      invariant |written| == i
      invariant forall j :: 0 <= j < i ==> written[j] == ChunkText(words, maxWords, j, wrap, fill)
    {
      var startIndex := i * maxWords;
      var endIndex := if (i + 1) * maxWords < |words| then (i + 1) * maxWords else |words|;
      var textPart := Join(PySlice(words, startIndex, endIndex), " ");
      assert textPart == Join(ChunkWords(words, maxWords, i), " ");
      var output := if wrap then fill(textPart) else textPart;
      written := written + [Lower(output)];
    }
  }

  /** With a positive limit the file count is the ceiling of `n / m`: enough files
      for every word, and one fewer would not be. */
  lemma FileCountIsCeiling(n: nat, m: int)
    requires m > 0
    ensures (FileCount(n, m) - 1) * m < n <= FileCount(n, m) * m
  {
  }

  /** With a positive limit, file `i` holds the plain slice `words[i*m .. min((i+1)*m, n)]`;
      it is never empty, never longer than `m`, and exactly `m` long unless it is the last. */
  lemma ChunkShape(words: seq<string>, m: int, i: int)
    requires m > 0 && 0 <= i < FileCount(|words|, m)
    ensures 0 <= i * m < |words|
    ensures ChunkWords(words, m, i) == words[i * m .. if (i + 1) * m < |words| then (i + 1) * m else |words|]
    ensures 0 < |ChunkWords(words, m, i)| <= m
    ensures i < FileCount(|words|, m) - 1 ==> |ChunkWords(words, m, i)| == m
  {
    var c := FileCount(|words|, m);
    FileCountIsCeiling(|words|, m);
    MulMonotone(i, c - 1, m);
    MulMonotone(0, i, m);
    var start := i * m;
    var next := (i + 1) * m;
    assert next == start + m;
    if i < c - 1 {
      MulMonotone(i + 1, c - 1, m);
    }
  }

  /** Multiplying by a positive number keeps the order. */
  lemma MulMonotone(a: int, b: int, m: int)
    requires a <= b && m > 0
    ensures a * m <= b * m
  {
    assert b * m - a * m == (b - a) * m;
  }

  /** All chunks of the word list, in file order (positive limit). */
  function Chunks(words: seq<string>, m: int): (chunks: seq<seq<string>>)
    requires m > 0
    ensures |chunks| == FileCount(|words|, m)
  {
    FileCountIsCeiling(|words|, m);
    seq(FileCount(|words|, m), i requires 0 <= i < FileCount(|words|, m) => ChunkWords(words, m, i))
  }

  /** The sequences of `chunks` laid end to end. */
  function Flatten<T>(chunks: seq<seq<T>>): seq<T> {
    if chunks == [] then [] else Flatten(chunks[..|chunks| - 1]) + chunks[|chunks| - 1]
  }

  /** The first `k` chunks together are exactly the first `k * m` words (or all of them). */
  lemma {:induction false} FlattenChunksPrefix(words: seq<string>, m: int, k: nat)
    requires m > 0 && k <= FileCount(|words|, m)
    ensures Flatten(Chunks(words, m)[..k]) == words[..if k * m < |words| then k * m else |words|]
  {
    if k > 0 {
      var chunks := Chunks(words, m);
      FlattenChunksPrefix(words, m, k - 1);
      ChunkShape(words, m, k - 1);
      assert chunks[..k] == chunks[..k - 1] + [chunks[k - 1]];
      FlattenSnoc(chunks[..k - 1], chunks[k - 1], words, (k - 1) * m, if k * m < |words| then k * m else |words|);
    }
  }

  /** Appending the slice that starts where the flattened prefix ends extends the prefix. */
  lemma FlattenSnoc<T>(prefix: seq<seq<T>>, chunk: seq<T>, words: seq<T>, start: int, stop: int)
    requires 0 <= start <= stop <= |words|
    requires Flatten(prefix) == words[..start] && chunk == words[start..stop]
    ensures Flatten(prefix + [chunk]) == words[..stop]
  {
    assert (prefix + [chunk])[..|prefix|] == prefix;
    assert words[..stop] == words[..start] + words[start..stop];
  }

  /** The files are contiguous, do not overlap and together hold every word in order. */
  lemma ChunksReproduceWords(words: seq<string>, m: int)
    requires m > 0
    ensures Flatten(Chunks(words, m)) == words
  {
    var c := FileCount(|words|, m);
    FileCountIsCeiling(|words|, m);
    FlattenChunksPrefix(words, m, c);
    assert Chunks(words, m)[..c] == Chunks(words, m);
  }

  /** The two supported kinds of input document. */
  datatype FileType = Pdf | Word

  /** The `ValueError` for an extension other than `.pdf`, `.docx` and `.doc`. */
  datatype FileTypeError = UnsupportedFileType

  /** Index of the last occurrence of `c` in `s`, or -1 (`str.rfind`). */
  function RFind(s: string, c: char): (k: int)
    ensures -1 <= k < |s|
    ensures k >= 0 ==> s[k] == c
    ensures forall j :: k < j < |s| ==> s[j] != c
  {
    if s == [] then -1
    else if s[|s| - 1] == c then |s| - 1
    else RFind(s[..|s| - 1], c)
  }

  /** Where the extension of `p` starts under `os.path.splitext` (POSIX), or `|p|` when
      there is none: the last dot of the final path component, provided some character
      other than a dot comes before it in that component (leading dots do not count). */
  function ExtensionStart(p: string): (k: nat)
    ensures k <= |p|
  {
    var sep := RFind(p, '/');
    var dot := RFind(p, '.');
    if dot > sep && exists j :: sep + 1 <= j < dot && p[j] != '.' then dot else |p|
  }

  /** `os.path.splitext(p)`. */
  function SplitExt(p: string): (string, string) {
    var k := ExtensionStart(p);
    (p[..k], p[k..])
  }

  /** The two halves of `splitext` put back together give the path, and a non-empty
      extension is a dot followed by no further dot or `/`. */
  lemma SplitExtRoundTrip(p: string)
    ensures SplitExt(p).0 + SplitExt(p).1 == p
    ensures SplitExt(p).1 != [] ==> SplitExt(p).1[0] == '.'
    ensures forall j :: 0 < j < |SplitExt(p).1| ==> SplitExt(p).1[j] != '.' && SplitExt(p).1[j] != '/'
  {
    assert p[..ExtensionStart(p)] + p[ExtensionStart(p)..] == p;
  }

  /** `check_file_type`: the lower-cased extension decides, `.pdf` for a PDF and
      `.docx` or `.doc` for a Word document; anything else is rejected. */
  function CheckFileType(path: string): (r: Result<FileType, FileTypeError>)
    ensures r == Ok(Pdf) <==> Lower(SplitExt(path).1) == ".pdf"
    ensures r == Ok(Word) <==> Lower(SplitExt(path).1) in {".docx", ".doc"}
    ensures r.Err? <==> Lower(SplitExt(path).1) !in {".pdf", ".docx", ".doc"}
  {
    var ext := Lower(SplitExt(path).1);
    if ext !in {".pdf", ".docx", ".doc"} then Err(UnsupportedFileType)
    else if ext == ".pdf" then Ok(Pdf)
    else Ok(Word)
  }

  /** A file name made of a stem (not empty, not all dots, no dot or `/`) and an
      extension has that extension, whatever the case of its letters. */
  lemma ExtensionOfNamedFile(stem: string, ext: string)
    requires stem != [] && forall j :: 0 <= j < |stem| ==> stem[j] != '.' && stem[j] != '/'
    requires forall j :: 0 <= j < |ext| ==> ext[j] != '.' && ext[j] != '/'
    ensures SplitExt(stem + "." + ext) == (stem, "." + ext)
  {
    var p := stem + "." + ext;
    assert p[|stem|] == '.';
    assert forall j :: 0 <= j < |p| ==> p[j] != '/' by {
      forall j | 0 <= j < |p|
        ensures p[j] != '/'
      {
        if j < |stem| {
          assert p[j] == stem[j];
        } else if j > |stem| {
          assert p[j] == ext[j - |stem| - 1];
        }
      }
    }
    assert forall j :: |stem| < j < |p| ==> p[j] != '.' by {
      forall j | |stem| < j < |p|
        ensures p[j] != '.'
      {
        assert p[j] == ext[j - |stem| - 1];
      }
    }
    assert RFind(p, '.') == |stem|;
    assert RFind(p, '/') == -1;
    assert p[0] == stem[0] && p[0] != '.';
    assert ExtensionStart(p) == |stem|;
    assert p[..|stem|] == stem;
    assert p[|stem|..] == "." + ext;
  }

  /** The command-line options `run` looks at; a missing string option is `None`. */
  datatype Args = Args(pdf: Option<string>, word: Option<string>, clean: bool, wrap: bool, maxWord: int)

  /** Python truth value of an optional string: present and not empty. */
  predicate Given(o: Option<string>) {
    o.Some? && o.value != ""
  }

  /** What `process_file` does with a location and a document kind. */
  datatype FileStep = MissingLocation(kind: FileType) | Load(kind: FileType, location: string)

  /** What `run` does. */
  datatype Action =
    | BothGivenError
    | Process(step: FileStep)
    | CleanDocs
    | NoValidInput

  /** `process_file`: an empty location is reported, any other one is loaded. */
  function ProcessFile(location: Option<string>, kind: FileType): (step: FileStep)
    ensures step.MissingLocation? <==> !Given(location)
    ensures step.kind == kind
    ensures step.Load? ==> step.location == location.value
  {
    if !Given(location) then MissingLocation(kind) else Load(kind, location.value)
  }

  /** `run`: both document options at once is an error; otherwise a PDF takes
      precedence over a Word document, which takes precedence over cleaning. */
  function Run(args: Args): (a: Action)
    ensures a == BothGivenError <==> Given(args.pdf) && Given(args.word)
    ensures a.Process? && a.step.kind == Pdf <==> Given(args.pdf) && !Given(args.word)
    ensures a.Process? && a.step.kind == Word <==> !Given(args.pdf) && Given(args.word)
    ensures a == CleanDocs <==> !Given(args.pdf) && !Given(args.word) && args.clean
    ensures a == NoValidInput <==> !Given(args.pdf) && !Given(args.word) && !args.clean
  {
    if Given(args.pdf) && Given(args.word) then BothGivenError
    else if Given(args.pdf) then Process(ProcessFile(args.pdf, Pdf))
    else if Given(args.word) then Process(ProcessFile(args.word, Word))
    else if args.clean then CleanDocs
    else NoValidInput
  }

  /** `run` only hands `process_file` a location it has already found non-empty, so
      the missing-location message of `process_file` is never reached from `run`, and
      the file loaded is the one named on the command line. */
  lemma RunNeverMissesLocation(args: Args)
    ensures Run(args).Process? ==> Run(args).step.Load?
    ensures Run(args).Process? && Run(args).step.kind == Pdf ==> Run(args).step.location == args.pdf.value
    ensures Run(args).Process? && Run(args).step.kind == Word ==> Run(args).step.location == args.word.value
  {
  }
}
