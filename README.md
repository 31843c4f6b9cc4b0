# vrot — a Dafny model of the vocabulary quiz

vrot is a vocabulary quiz with two front ends. The terminal build loads one or more TOML
vocabulary files and asks about random words one at a time. The browser build runs the same
quiz in a web page through WebAssembly. This project models both quiz cores and proves what
they do.

- `vocabulary.dfy` (module `Vocabulary`) holds the records both builds deserialise.
  `Voca` is a list of `Word`s. Each word has senses (`WordInfo`); a sense has a meaning,
  optional synonyms and an optional example.
- `strings.dfy` (module `Strings`) holds the text building blocks:
  - joining with and without a trailing separator;
  - Rust's `split(char::is_whitespace)`;
  - decimal numbers and repeated characters;
  - a filter for the lines that start with a label.
- `cli.dfy` (module `Cli`) is the terminal build:
  - the reply classification and the banner;
  - `join_string` and `show_answer`;
  - loading the files;
  - the quiz loop and `cli_main`.

  Output is the list of lines written to standard output. Input is a list of readline
  results. The random generator is a list of raw draws. The file system is a map from file
  name to contents, and the TOML deserialiser is a function parameter.
- `wasm_voca.dfy` (module `WasmVoca`) holds the WebAssembly helpers. `usize` is 32 bits wide
  on wasm32. `HashSet` is a class over a set field. `Rand` is the remainder of a raw draw.
- `web_quiz.dfy` (module `WebQuiz`) is the browser page:
  - each button handler as a step function on the closure state and the page;
  - `QuizPage`, a class whose methods update those fields in place as the handlers do;
  - the text concatenation loop and the set-up in `main`.

Behaviour the model follows from the code:

- The senses are counted from 0: "  Info 0", "  Info 1", and so on.
- A newline follows every file's contents, the last file's included. This holds in both
  builds.
- The banner pads a short word to 48 characters with the smaller half on the left. A longer
  word is printed whole, so that line is then wider than the rules.
- `synos = Some([])` prints the bare line "  Synonyms: ", because popping an empty string
  leaves it empty.
- A readline error other than Ctrl-C or end of input ends the loop with
  `RustylineInternalErr`. Any line other than "q", "quit", "y" and "Y" reveals the answer;
  this includes the empty line and "N".
- An empty vocabulary makes `gen_range(0..0)` panic. In the browser, `rand(0)` is a remainder
  by zero. The model reports both as a separate outcome.
- In the browser, `showAnswer` decides whether synonyms are shown from sense 0. It reads
  their text from the sense on display. When sense 0 has synonyms and that sense has none,
  `undefined.join` throws a TypeError part way through. The meaning has changed and the
  synonym elements are shown. The synonym text, the example and the answer's visibility stay
  as they were, so after prev or next an answer already on screen stays there with the new
  meaning. A missing sense (a word without senses)
  throws before anything changes. The handlers model a throw as a `threw` result and skip the
  steps that come after it in the source. `HandlersDoNotThrow` gives the conditions under
  which no handler throws.

## Model

| member | source | states |
|---|---|---|
| Strings.Joined | src/cli/mod.rs:88 | the reference definition of a join, shared by itertools' `join(" ")` and, at src/index.ts:94, `Array.join(", ")`: the items with the separator between neighbours and none after the last; `JoinString`, `SplitJoined` and `JoinedLength` are proved against it |
| Strings.SplitWhitespace | src/cli/mod.rs:138 | the file list splits into one more piece than it has whitespace characters, and no piece contains whitespace |
| Strings.SplitJoined | src/cli/mod.rs:84-88 | non-empty, whitespace-free command-line paths joined with " " split back into exactly the same list |
| Strings.JoinedSplit | src/cli/mod.rs:138 | a typed line whose only whitespace is ' ' is the join of its pieces with " " |
| Strings.Suffixed | src/cli/mod.rs:139-143 | the reference definition of the append-then-newline loops, here and at src/index.ts:23-26: every item followed by the separator, the last one included; `ReadToStringFromFiles`, `ConcatTexts`, `CliMain` and `Launch` are proved against it, and `SuffixedAppend` and `SuffixedIsJoinedPlusSep` state its properties |
| Strings.SuffixedAppend | src/index.ts:22-26 | concatenating two lists of file texts concatenates the loaded texts; no file is transformed on its own |
| Strings.JoinedLength | src/cli/mod.rs:189-199 | a joined text is the total length of the items plus one separator per gap |
| Strings.SuffixedIsJoinedPlusSep | src/cli/mod.rs:191-196 | a separator after every item is the joined text plus one trailing separator; two pops remove it |
| Cli.ClassifyReply | src/cli/mod.rs:121-125 | the reply quits exactly on "q" or "quit", skips exactly on "y" or "Y", and otherwise reveals |
| Cli.Banner | src/cli/mod.rs:149-168 | `display_voca_word` writes three lines, and the word line is two characters wider than max(48, length of word), so 50 exactly when the word fits |
| Cli.Center | src/cli/mod.rs:160 | the centred word is max(48, length of word) characters long |
| Cli.BannerLayout | src/cli/mod.rs:156-164 | three lines: bold plus a 50-dash rule, "\|" + left pad + word + right pad + "\|" with the right pad equal to the left or one more and the padding filling up to 48, and the rule plus reset |
| Cli.JoinString | src/cli/mod.rs:189-199 | the loop's result is the items joined by ", " with no trailing separator |
| Cli.JoinedSynonymsLength | src/cli/mod.rs:189-199 | no synonyms join to ""; otherwise the joined text is as long as the items plus 2·(n−1) |
| Cli.SenseLines | src/cli/mod.rs:173-183 | the reference definition of one sense's block, in the order the loop body writes it; `SenseLinesShape` states its layout |
| Cli.SenseLinesShape | src/cli/mod.rs:173-183 | one sense prints the counter, the meaning, then the synonyms line (right after the meaning) exactly when there are synonyms, then the example line (right before the blank line) exactly when there is an example, then a blank line |
| Cli.Answer | src/cli/mod.rs:170-187 | the reference definition of what `show_answer` writes: the blocks of all senses in order, counted from 0; `AnswerCounters` and `AnswerMeanings` state its order |
| Cli.EmptySynonymsLine | src/cli/mod.rs:176-177 | `Some([])` synonyms still print "  Synonyms: " with nothing after the label |
| Cli.AnswerCounters | src/cli/mod.rs:173-174 | the counter lines of an answer are "  Info 0" … "  Info k−1", in order |
| Cli.AnswerMeanings | src/cli/mod.rs:173-175 | the meaning lines of an answer are the senses' meanings, in order |
| Cli.ShowAnswer | src/cli/mod.rs:170-187 | the loop writes exactly the answer blocks of the word's senses, in order |
| Cli.FirstMissing | src/cli/mod.rs:139-140 | every name before the first missing one opens, and that one does not |
| Cli.AdjacentWhitespaceFails | src/cli/mod.rs:138-140 | two whitespace characters in a row give an empty name, so loading fails |
| Cli.ReadToStringFromFiles | src/cli/mod.rs:137-146 | succeeds exactly when every name opens; the buffer gains each opened file's contents and a newline, in order, up to the first missing name; failure is `IOErr` |
| Cli.GenRange | src/cli/mod.rs:116 | every drawn index is below the vocabulary size, and every index below it can be drawn |
| Cli.Stop | src/cli/mod.rs:120-131 | the loop consumes every reply before the first one that does not continue, and not that one |
| Cli.Run | src/cli/mod.rs:115-132 | the loop makes one round per consumed reply plus one, each with an index in range |
| Cli.RunRound | src/cli/mod.rs:115-125 | round j shows the word drawn by draw j and reveals its answer exactly when reply j is consumed and is a revealing line |
| Cli.RunOutcome | src/cli/mod.rs:120-134 | the loop ends with `RustylineInternalErr` exactly when the reply that ends it is an editor error; otherwise with `Ok` |
| Cli.KnownSkipsAnswer | src/cli/mod.rs:123-124 | a consumed "y" or "Y" shows no answer; any other consumed line does |
| Cli.RoundLines | src/cli/mod.rs:116-124 | the reference definition of what one pass of the loop writes: the drawn word's banner, the blank line after the reply, and the word's answer exactly when the round revealed it; `AskRound` is proved against it |
| Cli.Render | src/cli/mod.rs:115-132 | the reference definition of the loop's whole output: the rounds' lines in the order the rounds happen; `CliLoop` and `CliMain` are proved against it, with `RunRound` and `RunOutcome` stating which rounds there are |
| Cli.AskRound | src/cli/mod.rs:116-131 | one pass prints the drawn word's banner, a blank line and the answer exactly when the reply reveals; it ends the loop exactly when the reply does not continue |
| Cli.CliLoop | src/cli/mod.rs:115-134 | the loop's output and outcome are those of `Run` rendered round by round |
| Cli.FilenameLine | src/cli/mod.rs:81-89 | a file list exists exactly when paths were given or a line was typed at the prompt, and with no paths it is the typed line |
| Cli.CliMain | src/cli/mod.rs:58-134 | each early error in order: first editor, filename prompt, missing file, TOML error, second editor, empty vocabulary; otherwise the loop on the parsed vocabulary |
| WebQuiz.ShowAnswerStep | src/index.ts:81-112 | `showAnswer` never touches the word or the prev and next arrows; `ShowAnswerRule` states what it does change |
| WebQuiz.Initial | src/index.ts:40-44 | set-up draws a word in range, takes its sense count, starts at sense 0 and changes only the word on the page |
| WebQuiz.KnownStep | src/index.ts:46-52 | "known" changes only the word and the answer's visibility on the page; `KnownResets` states the new values |
| WebQuiz.UnknownStep | src/index.ts:54-58 | "unknown" keeps the drawn word, its index and its sense count |
| WebQuiz.PrevStep | src/index.ts:60-68 | prev keeps the drawn word, its index and its sense count, and never makes idx negative |
| WebQuiz.NextStep | src/index.ts:70-78 | next keeps the drawn word, its index and its sense count, and never lowers idx |
| WebQuiz.ShowAnswerRule | src/index.ts:81-112 | `showAnswer` throws exactly on a missing sense or on synonyms in sense 0 but not in the shown sense; otherwise it shows the answer with that sense's meaning and example, and shows synonyms exactly when sense 0 has them; on the synonyms throw, only the meaning and the synonym elements' visibility have changed, and the answer's visibility is kept |
| WebQuiz.HandlersKeepConsistent | src/index.ts:40-78 | set-up and all four handlers keep the word index in range, the sense count equal to that word's, and the sense index in range |
| WebQuiz.IndexInRange | src/index.ts:42-78 | when every word has a sense, 0 ≤ idx < infoLen holds in every consistent state |
| WebQuiz.KnownResets | src/index.ts:46-52 | "known" draws a word in range, resets idx to 0, sets infoLen to the new word's sense count, hides the answer and shows the new word |
| WebQuiz.UnknownKeepsPosition | src/index.ts:54-58 | "unknown" keeps the word and the sense, hides prev, shows next exactly when there is more than one sense, and shows the answer unless it throws |
| WebQuiz.PrevVisibility | src/index.ts:60-68 | prev lowers idx by one unless it is 0; it hides prev at sense 0 and shows next when a later sense exists; otherwise the elements are left as they were |
| WebQuiz.NextVisibility | src/index.ts:70-78 | next raises idx by one unless at the last sense, so idx never reaches infoLen; it shows prev past sense 0 and hides next at the last sense |
| WebQuiz.NextThenPrev | src/index.ts:60-78 | when next moves forward, prev comes back to the same sense |
| WebQuiz.HandlersDoNotThrow | src/index.ts:88-109 | with a sense for every word and the same synonym presence in every sense of a word, no handler throws |
| WebQuiz.QuizPage.constructor | src/index.ts:40-44 | set-up draws a word, stores its sense count, starts at sense 0 and shows the word |
| WebQuiz.QuizPage.ShowAnswer | src/index.ts:81-112 | the in-place page update is the `showAnswer` step, throw included |
| WebQuiz.QuizPage.OnKnown | src/index.ts:46-52 | the in-place handler is the "known" step and keeps the state consistent |
| WebQuiz.QuizPage.OnUnknown | src/index.ts:54-58 | the in-place handler is the "unknown" step and keeps the state consistent |
| WebQuiz.QuizPage.OnPrev | src/index.ts:60-68 | the in-place handler is the prev step and keeps the state consistent |
| WebQuiz.QuizPage.OnNext | src/index.ts:70-78 | the in-place handler is the next step and keeps the state consistent |
| WebQuiz.ConcatTexts | src/index.ts:22-26 | the loaded text is each file's text followed by "\n", in array order |
| WebQuiz.Launch | src/index.ts:21-44 | a TOML error stops with no page state; an empty vocabulary traps; otherwise a fresh, consistent page in its initial state |
| WasmVoca.HashSet.Contains | src/wasm/voca.rs:71-73 | the membership query, a function that only reads the set: it changes nothing, and the contracts of `new`, `insert` and `clear` are stated through it |
| WasmVoca.HashSet.constructor | src/wasm/voca.rs:61-65 | a new set contains no index |
| WasmVoca.HashSet.Insert | src/wasm/voca.rs:67-69 | afterwards the item is contained, every other index is as before, and inserting an index already there changes nothing |
| WasmVoca.HashSet.Clear | src/wasm/voca.rs:75-77 | afterwards no index is contained |
| WasmVoca.Rand | src/wasm/voca.rs:81-83 | for a positive limit the result is below the limit and at most the raw draw, and equals the draw when the draw is below the limit |

## Left out

- Command-line flag parsing, the `--cycle` completion setting, the editor configuration and filename completion: the two editors are reduced to whether they could be created. Arguments are taken as text; the lossy conversion of non-UTF-8 paths (`to_string_lossy`, src/cli/mod.rs:87) is not modelled.
- The terminal output that does not go through the program's own writes: the line editor writes the filename prompt and, every round, `MAIN_PROMPT` between the banner and the blank line, and echoes what the reader types. `lines` leaves out the prompts and the echo. The screen clear before the first word and the messages printed to standard error are left out too.
- I/O errors while writing or flushing standard output, and read errors on a file that opened (invalid UTF-8, for example): the model's writes always succeed and an opened file always reads.
- `writeln!` on a headword, meaning, synonym or example that itself contains a newline: the model keeps such text as one line. A headword with a newline makes the banner's word line two terminal lines, so `Cli.Banner` and `Cli.BannerLayout` then describe the written text but not the lines on the terminal.
- TOML deserialisation (`toml::from_str` and `Voca.new` with `serde_wasm_bindgen`) is a function parameter.
- The two `alert`s in `Voca.new` are not modelled: the one on a TOML error and the one on a failed conversion. Both cases are the parse parameter returning nothing.
- The random number generators' algorithms and their uniformity: draws are parameters.
- `Cli.CliMain` and `Cli.CliLoop` ask for at least as many draws as the loop consumes, because the generator never runs out.
- `WebQuiz.Launch` asks that every parsed vocabulary have fewer than 2^32 words, the wasm32 width of the length passed to `rand`.
- Choosing files again runs `main` again. That adds a second set of handlers, with their own closure state, over the same page elements, and the old handlers are never removed. After a second load every click runs both sets, and the set that runs last decides what the page shows. The model covers one `main`; `WebQuiz.KnownResets` and the other handler lemmas describe the page only while a single set of handlers is attached.
- `console.log`, the `FileReader` promises that read the chosen files, and the unused `Idx` class: the page state starts from a given page, and the files' texts arrive as a list.
- Hashing is not modelled.
- Error payloads: `Cli.VrotErr.IOErr` carries no `io::Error`, although the source's `IOErr` wraps one whose text src/main.rs prints to standard error. The payloads are dropped together with standard error.
- src/wasm/app.rs, src/wasm/mod.rs, src/main.rs and src/cli/error.rs are not part of this model, except that the error enum becomes `Cli.VrotErr`.
