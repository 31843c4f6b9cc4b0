/**
 * The terminal quiz: load the vocabulary files, then repeatedly draw a word, show its
 * banner, read one reply and either move on, reveal the answer or stop.
 * Output is the sequence of lines written to standard output; the reader's input is a
 * sequence of readline results and the random generator a sequence of raw draws.
 */
module Cli {
  import opened Vocabulary
  import opened Strings

  /** The error enum of the terminal build. */
  datatype VrotErr = IOErr | RustylineInitFailed | RustylineInternalErr | TomlParseFailed

  /** How a run ends: `Ok(())`, `Err(e)`, or a panic of the random range on an empty vocabulary. */
  datatype Outcome = Ok | Err(err: VrotErr) | Panicked

  /** One result of `readline`: a line, Ctrl-C, end of input, or any other editor error. */
  datatype Input = Line(text: string) | Interrupted | Eof | ReadFailed

  datatype Reply = Quit | Known | Reveal

  /** The reply `match` of the quiz loop; the comparison is exact and case-sensitive. */
  function ClassifyReply(line: string): (r: Reply)
    ensures r == Quit <==> (line == "q" || line == "quit")
    ensures r == Known <==> (line == "y" || line == "Y")
  {
    if line == "q" || line == "quit" then Quit
    else if line == "y" || line == "Y" then Known
    else Reveal
  }

  // ---------------------------------------------------------------- the banner

  const Bold: string := "\U{1B}[1m"
  const Reset: string := "\U{1B}[0m"
  const Rule: string := Repeat('-', 50)
  const BannerWidth: nat := 48

  /** Rust's `{:^width}`: pad with spaces, the smaller half on the left; never truncate. */
  function Center(s: string, width: nat): (r: string)
    ensures |r| == Max(width, |s|)
  {
    var padding := if |s| < width then width - |s| else 0;
    Spaces(padding / 2) + s + Spaces(padding - padding / 2)
  }

  /** The three lines `display_voca_word` writes for a word. */
  function Banner(word: string): (lines: seq<string>)
    ensures |lines| == 3 && |lines[1]| == Max(BannerWidth, |word|) + 2
  {
    [Bold + Rule, "|" + Center(word, BannerWidth) + "|", Rule + Reset]
  }

  lemma BannerLayout(word: string)
    ensures |Banner(word)| == 3
    ensures |Rule| == 50 && forall k :: 0 <= k < |Rule| ==> Rule[k] == '-'
    ensures Banner(word)[0] == Bold + Rule && Banner(word)[2] == Rule + Reset
    ensures exists left: nat, right: nat ::
              left <= right <= left + 1 && left + |word| + right == Max(BannerWidth, |word|)
              && Banner(word)[1] == "|" + Spaces(left) + word + Spaces(right) + "|"
  {
    var padding := if |word| < BannerWidth then BannerWidth - |word| else 0;
    var left, right := padding / 2, padding - padding / 2;
    assert Banner(word)[1] == "|" + Spaces(left) + word + Spaces(right) + "|";
  }

  // ---------------------------------------------------------------- the answer

  /** `join_string`: every item followed by ", ", then the last two characters popped. */
  method JoinString(strings: seq<string>) returns (output: string)
    ensures output == Joined(strings, ", ")
  {
    output := "";
    for i := 0 to |strings|
      invariant output == Suffixed(strings[..i], ", ")
    {
      SuffixedSnoc(strings[..i], strings[i], ", ");
      TakeOneMore(strings, i);
      output := output + strings[i];
      output := output + ", ";
    }
    assert strings[..|strings|] == strings;
    if |strings| > 0 {
      SuffixedIsJoinedPlusSep(strings, ", ");
    }
    // String::pop removes the last character, and does nothing on an empty string
    if |output| > 0 { output := output[..|output| - 1]; }
    if |output| > 0 { output := output[..|output| - 1]; }
  }

  /** No synonyms join to ""; otherwise the text is the items plus two characters per gap. */
  lemma JoinedSynonymsLength(strings: seq<string>)
    ensures strings == [] ==> Joined(strings, ", ") == ""
    ensures |strings| > 0 ==> |Joined(strings, ", ")| == TotalLength(strings) + 2 * (|strings| - 1)
  {
    if |strings| > 0 {
      JoinedLength(strings, ", ");
      assert |", "| == 2;
    }
  }

  /** The lines written for the sense with counter `i`. */
  function SenseLines(i: nat, info: WordInfo): seq<string>
  {
    [InfoLabel + Decimal(i), MeaningLabel + info.meaning]
    + OptionalLine(SynonymsLabel, JoinedSynonyms(info.synos))
    + OptionalLine(ExampleLabel, info.example)
    + [""]
  }

  /** The lines for the first `k` senses. */
  function AnswerPrefix(infos: seq<WordInfo>, k: nat): seq<string>
    requires k <= |infos|
  {
    if k == 0 then [] else AnswerPrefix(infos, k - 1) + SenseLines(k - 1, infos[k - 1])
  }

  /** What `show_answer` writes for a word's senses. */
  function Answer(infos: seq<WordInfo>): seq<string>
  {
    AnswerPrefix(infos, |infos|)
  }

  const InfoLabel: string := "  Info "
  const MeaningLabel: string := "  Meaning: "
  const SynonymsLabel: string := "  Synonyms: "
  const ExampleLabel: string := "  Example: "

  /** Two labels that differ at their third character never both start a line. */
  lemma LabelsDiffer(p: string, q: string, t: string)
    requires |p| > 2 && |q| > 2 && p[2] != q[2]
    ensures !(p <= q + t)
  {
  }

  predicate IsLabel(p: string)
  {
    p == InfoLabel || p == MeaningLabel || p == SynonymsLabel || p == ExampleLabel
  }

  /** A line made of a label and text starts with a label exactly when it is that label. */
  lemma LabelStarts(prefix: string, tag: string, t: string)
    requires IsLabel(prefix) && IsLabel(tag)
    ensures (prefix <= tag + t) <==> prefix == tag
  {
    if prefix != tag {
      LabelsDiffer(prefix, tag, t);
    } else {
      assert (tag + t)[..|tag|] == tag;
    }
  }

  /** The line `label + t` if `prefix` is that label, else nothing. */
  function Tagged(prefix: string, tag: string, t: string): seq<string>
  {
    if prefix == tag then [tag + t] else []
  }

  lemma LabelledOne(line: string, prefix: string)
    ensures Labelled([line], prefix) == if prefix <= line then [line] else []
  {
    assert [line][1..] == [];
  }

  /** A labelled line passes the filter for `prefix` exactly when its label is `prefix`. */
  lemma TaggedLine(prefix: string, tag: string, t: string)
    requires IsLabel(prefix) && IsLabel(tag)
    ensures Labelled([tag + t], prefix) == Tagged(prefix, tag, t)
  {
    LabelStarts(prefix, tag, t);
    LabelledOne(tag + t, prefix);
  }

  /** The optional line for `tag`, as `show_answer` writes it when the field is present. */
  function OptionalLine(tag: string, t: Option<string>): seq<string>
  {
    match t
    case Some(text) => [tag + text]
    case None => []
  }

  lemma OptionalLabelled(prefix: string, tag: string, t: Option<string>)
    requires IsLabel(prefix) && IsLabel(tag)
    ensures Labelled(OptionalLine(tag, t), prefix)
            == (if t.Some? then Tagged(prefix, tag, t.value) else [])
  {
    if t.Some? {
      TaggedLine(prefix, tag, t.value);
    }
  }

  function JoinedSynonyms(synos: Option<seq<string>>): Option<string>
  {
    match synos
    case Some(s) => Some(Joined(s, ", "))
    case None => None
  }

  lemma SenseLabelled(i: nat, info: WordInfo, prefix: string)
    requires IsLabel(prefix)
    ensures Labelled(SenseLines(i, info), prefix)
            == Tagged(prefix, InfoLabel, Decimal(i)) + Tagged(prefix, MeaningLabel, info.meaning)
               + (if info.synos.Some? then Tagged(prefix, SynonymsLabel, Joined(info.synos.value, ", ")) else [])
               + (if info.example.Some? then Tagged(prefix, ExampleLabel, info.example.value) else [])
  {
    var syn := OptionalLine(SynonymsLabel, JoinedSynonyms(info.synos));
    var ex := OptionalLine(ExampleLabel, info.example);
    var infoLine, meaningLine := InfoLabel + Decimal(i), MeaningLabel + info.meaning;
    assert [infoLine, meaningLine] == [infoLine] + [meaningLine];
    LabelledAppend([infoLine] + [meaningLine] + syn + ex, [""], prefix);
    LabelledAppend([infoLine] + [meaningLine] + syn, ex, prefix);
    LabelledAppend([infoLine] + [meaningLine], syn, prefix);
    LabelledAppend([infoLine], [meaningLine], prefix);
    TaggedLine(prefix, InfoLabel, Decimal(i));
    TaggedLine(prefix, MeaningLabel, info.meaning);
    LabelledOne("", prefix);
    OptionalLabelled(prefix, SynonymsLabel, JoinedSynonyms(info.synos));
    OptionalLabelled(prefix, ExampleLabel, info.example);
  }

  /**
   * One sense block: a label with the counter, the meaning, a synonyms line exactly when
   * there are synonyms, an example line exactly when there is an example, a blank line.
   */
  lemma SenseLinesShape(i: nat, info: WordInfo)
    ensures var lines := SenseLines(i, info);
      && |lines| == 3 + (if info.synos.Some? then 1 else 0) + (if info.example.Some? then 1 else 0)
      && lines[0] == InfoLabel + Decimal(i)
      && lines[1] == MeaningLabel + info.meaning
      && (info.synos.Some? ==> lines[2] == SynonymsLabel + Joined(info.synos.value, ", "))
      && (info.example.Some? ==> lines[|lines| - 2] == ExampleLabel + info.example.value)
      && lines[|lines| - 1] == ""
      && Labelled(lines, InfoLabel) == [InfoLabel + Decimal(i)]
      && Labelled(lines, MeaningLabel) == [MeaningLabel + info.meaning]
      && Labelled(lines, SynonymsLabel)
         == (if info.synos.Some? then [SynonymsLabel + Joined(info.synos.value, ", ")] else [])
      && Labelled(lines, ExampleLabel)
         == (if info.example.Some? then [ExampleLabel + info.example.value] else [])
  {
    SenseLabelled(i, info, InfoLabel);
    SenseLabelled(i, info, MeaningLabel);
    SenseLabelled(i, info, SynonymsLabel);
    SenseLabelled(i, info, ExampleLabel);
  }

  /** `synos = Some([])` still prints a synonyms line, with nothing after the label. */
  lemma EmptySynonymsLine(i: nat, info: WordInfo)
    requires info.synos == Some([])
    ensures SenseLines(i, info)[2] == "  Synonyms: "
  {
  }

  /** The counter lines "  Info 0" up to "  Info k-1". */
  function Counters(k: nat): (r: seq<string>)
    ensures |r| == k
    ensures forall i :: 0 <= i < k ==> r[i] == InfoLabel + Decimal(i)
  {
    if k == 0 then [] else Counters(k - 1) + [InfoLabel + Decimal(k - 1)]
  }

  lemma SenseCounter(i: nat, info: WordInfo)
    ensures Labelled(SenseLines(i, info), InfoLabel) == [InfoLabel + Decimal(i)]
  {
    SenseLabelled(i, info, InfoLabel);
  }

  lemma SenseMeaning(i: nat, info: WordInfo)
    ensures Labelled(SenseLines(i, info), MeaningLabel) == [MeaningLabel + info.meaning]
  {
    SenseLabelled(i, info, MeaningLabel);
  }

  /** The answer labels the senses 0, 1, 2, ... in order. */
  lemma {:induction false} AnswerCounters(infos: seq<WordInfo>, k: nat)
    requires k <= |infos|
    ensures Labelled(AnswerPrefix(infos, k), InfoLabel) == Counters(k)
  {
    if k > 0 {
      AnswerCounters(infos, k - 1);
      SenseCounter(k - 1, infos[k - 1]);
      LabelledAppend(AnswerPrefix(infos, k - 1), SenseLines(k - 1, infos[k - 1]), InfoLabel);
    }
  }

  /** The answer lists the meanings of the senses in their order. */
  lemma {:induction false} AnswerMeanings(infos: seq<WordInfo>, k: nat)
    requires k <= |infos|
    ensures Labelled(AnswerPrefix(infos, k), MeaningLabel)
            == seq(k, i requires 0 <= i < k => MeaningLabel + infos[i].meaning)
  {
    if k > 0 {
      AnswerMeanings(infos, k - 1);
      SenseMeaning(k - 1, infos[k - 1]);
      LabelledAppend(AnswerPrefix(infos, k - 1), SenseLines(k - 1, infos[k - 1]), MeaningLabel);
      assert seq(k, i requires 0 <= i < k => MeaningLabel + infos[i].meaning)
             == seq(k - 1, i requires 0 <= i < k - 1 => MeaningLabel + infos[i].meaning)
                + [MeaningLabel + infos[k - 1].meaning];
    }
  }

  /** `show_answer`: one block per sense of the word at `idx`, in order, counted from 0. */
  method ShowAnswer(voca: Voca, idx: nat) returns (lines: seq<string>)
    requires idx < |voca.voca|
    ensures lines == Answer(voca.voca[idx].info)
  {
    var infos := voca.voca[idx].info;
    lines := [];
    for i := 0 to |infos|
      invariant lines == AnswerPrefix(infos, i)
    {
      var info := infos[i];
      var block := [InfoLabel + Decimal(i), MeaningLabel + info.meaning];
      match info.synos {
        case Some(synos) =>
          var joined := JoinString(synos);
          block := block + [SynonymsLabel + joined];
        case None =>
      }
      match info.example {
        case Some(example) =>
          block := block + [ExampleLabel + example];
        case None =>
      }
      block := block + [""];
      lines := lines + block;
    }
  }

  // ---------------------------------------------------------------- loading the files

  predicate AllPresent(names: seq<string>, fs: map<string, string>)
  {
    forall k :: 0 <= k < |names| ==> names[k] in fs
  }

  /** The contents of the named files, in order. */
  function Lookup(names: seq<string>, fs: map<string, string>): (texts: seq<string>)
    requires AllPresent(names, fs)
    ensures |texts| == |names| && forall k :: 0 <= k < |names| ==> texts[k] == fs[names[k]]
  {
    seq(|names|, k requires 0 <= k < |names| => fs[names[k]])
  }

  /** The position of the first name that does not open, or the number of names. */
  function FirstMissing(names: seq<string>, fs: map<string, string>): (k: nat)
    ensures k <= |names|
    ensures AllPresent(names[..k], fs)
    ensures k < |names| ==> names[k] !in fs
  {
    if |names| == 0 || names[0] !in fs then 0
    else
      var k := 1 + FirstMissing(names[1..], fs);
      assert names[..k] == [names[0]] + names[1..][..k - 1];
      k
  }

  /** The first name that does not open is the one after a run of names that all open. */
  lemma FirstMissingAt(names: seq<string>, fs: map<string, string>, i: nat)
    requires i <= |names| && AllPresent(names[..i], fs)
    requires i < |names| ==> names[i] !in fs
    ensures FirstMissing(names, fs) == i
  {
  }

  lemma LookupSnoc(names: seq<string>, fs: map<string, string>, i: nat)
    requires i < |names| && AllPresent(names[..i + 1], fs)
    ensures AllPresent(names[..i], fs)
    ensures Lookup(names[..i + 1], fs) == Lookup(names[..i], fs) + [fs[names[i]]]
  {
    TakeOneMore(names, i);
  }

  /**
   * Two whitespace characters in a row leave an empty name between them, and "" names no
   * file, so loading fails.
   */
  lemma AdjacentWhitespaceFails(files: string, fs: map<string, string>, k: nat)
    requires "" !in fs
    requires k + 1 < |files| && IsWhitespace(files[k]) && IsWhitespace(files[k + 1])
    ensures !AllPresent(SplitWhitespace(files), fs)
  {
    var a, w, w2, b := files[..k], files[k], files[k + 1], files[k + 2..];
    var tail := [w2] + b;
    assert files == a + [w] + tail;
    SplitAround(a, w, tail);
    SplitLeading(w2, b);
    var pieces := SplitWhitespace(files);
    assert pieces == SplitWhitespace(a) + ([""] + SplitWhitespace(b));
    assert pieces[|SplitWhitespace(a)|] == "";
  }

  /**
   * `read_to_string_from_files`: open every name the text splits into (at each whitespace
   * character) and append its contents and a newline to `buf`; the first name that does not
   * open stops the loop with an I/O error, keeping what was appended before it.
   */
  method ReadToStringFromFiles(buf: string, files: string, fs: map<string, string>)
    returns (buf': string, res: Outcome)
    ensures res == Ok || res == Err(IOErr)
    ensures res == Ok <==> AllPresent(SplitWhitespace(files), fs)
    ensures var names := SplitWhitespace(files);
            var k := FirstMissing(names, fs);
            buf' == buf + Suffixed(Lookup(names[..k], fs), "\n")
  {
    var names := SplitWhitespace(files);
    buf' := buf;
    for i := 0 to |names|
      invariant AllPresent(names[..i], fs)
      invariant buf' == buf + Suffixed(Lookup(names[..i], fs), "\n")
    {
      var filename := names[i];
      if filename !in fs {
        FirstMissingAt(names, fs, i);
        return buf', Err(IOErr);
      }
      TakeOneMore(names, i);
      LookupSnoc(names, fs, i);
      SuffixedSnoc(Lookup(names[..i], fs), fs[filename], "\n");
      buf' := buf' + fs[filename];
      buf' := buf' + "\n";
    }
    assert names[..|names|] == names;
    FirstMissingAt(names, fs, |names|);
    res := Ok;
  }

  // ---------------------------------------------------------------- the quiz loop

  /** `gen_range(0..n)` on a raw draw; every index below `n` is the image of some draw. */
  function GenRange(raw: nat, n: nat): (k: nat)
    requires n > 0
    ensures k < n
    ensures raw < n ==> k == raw
  {
    raw % n
  }

  /** A reply after which the loop draws again. */
  predicate Continues(e: Input)
  {
    e.Line? && ClassifyReply(e.text) != Quit
  }

  /** The number of readline results the loop consumes before the one that ends it. */
  function Stop(events: seq<Input>): (k: nat)
    ensures k <= |events|
    ensures forall j :: 0 <= j < k ==> Continues(events[j])
    ensures k < |events| ==> !Continues(events[k])
  {
    if |events| == 0 || !Continues(events[0]) then 0 else 1 + Stop(events[1..])
  }

  /** One pass of the loop: the drawn index, and whether the answer was shown. */
  datatype Round = Round(idx: nat, revealed: bool)

  datatype Trace = Trace(rounds: seq<Round>, outcome: Outcome)

  /** How a reply that ends the loop is reported. */
  function Ending(readline: Input): Outcome
  {
    if readline.ReadFailed? then Err(RustylineInternalErr) else Ok
  }

  /** How the loop ends on the reply that stops it (or on end of input). */
  function EndOutcome(events: seq<Input>): Outcome
  {
    if |events| > 0 then Ending(events[0]) else Ok
  }

  /**
   * The loop over a vocabulary of `n` words. Once `events` is used up, readline reports end
   * of input, as it does on a closed standard input.
   */
  function Run(n: nat, events: seq<Input>, draws: seq<nat>): (t: Trace)
    requires n > 0 && Stop(events) < |draws|
    ensures |t.rounds| == Stop(events) + 1
    ensures forall j :: 0 <= j < |t.rounds| ==> t.rounds[j].idx < n
    decreases |events|
  {
    var idx := GenRange(draws[0], n);
    if |events| == 0 || !Continues(events[0]) then Trace([Round(idx, false)], EndOutcome(events))
    else
      var t := Run(n, events[1..], draws[1..]);
      Trace([Round(idx, ClassifyReply(events[0].text) == Reveal)] + t.rounds, t.outcome)
  }

  /**
   * The loop makes one round per consumed reply plus one for the reply that ends it; round
   * `j` shows the word drawn by `draws[j]`, and reveals its answer exactly when reply `j` is a
   * line other than "q", "quit", "y" and "Y".
   */
  lemma {:induction false} RunRound(n: nat, events: seq<Input>, draws: seq<nat>, j: nat)
    requires n > 0 && Stop(events) < |draws| && j <= Stop(events)
    ensures Run(n, events, draws).rounds[j].idx == GenRange(draws[j], n)
    ensures Run(n, events, draws).rounds[j].revealed
            <==> j < Stop(events) && ClassifyReply(events[j].text) == Reveal
    decreases j
  {
    if j > 0 {
      RunRound(n, events[1..], draws[1..], j - 1);
      assert draws[1..][j - 1] == draws[j];
      if j < |events| {
        assert events[1..][j - 1] == events[j];
      }
    }
  }

  /** The loop fails exactly when the reply that ends it is an editor error. */
  lemma {:induction false} RunOutcome(n: nat, events: seq<Input>, draws: seq<nat>)
    requires n > 0 && Stop(events) < |draws|
    ensures Run(n, events, draws).outcome
            == if Stop(events) < |events| && events[Stop(events)].ReadFailed?
               then Err(RustylineInternalErr) else Ok
    decreases |events|
  {
    if |events| > 0 && Continues(events[0]) {
      RunOutcome(n, events[1..], draws[1..]);
      assert Stop(events) < |events| ==> events[Stop(events)] == events[1..][Stop(events[1..])];
    }
  }

  /** A "y" or "Y" never reveals; any other line that does not quit, "" included, does. */
  lemma KnownSkipsAnswer(n: nat, events: seq<Input>, draws: seq<nat>, j: nat)
    requires n > 0 && Stop(events) < |draws| && j < Stop(events)
    ensures events[j] in {Line("y"), Line("Y")} ==> !Run(n, events, draws).rounds[j].revealed
    ensures !(events[j] in {Line("y"), Line("Y")}) ==> Run(n, events, draws).rounds[j].revealed
  {
    RunRound(n, events, draws, j);
  }

  /** The lines of one round: the banner, the blank line after the reply, maybe the answer. */
  function RoundLines(voca: Voca, r: Round): seq<string>
    requires r.idx < |voca.voca|
  {
    Banner(voca.voca[r.idx].word) + [""]
    + (if r.revealed then Answer(voca.voca[r.idx].info) else [])
  }

  function Render(voca: Voca, rounds: seq<Round>): seq<string>
    requires forall j :: 0 <= j < |rounds| ==> rounds[j].idx < |voca.voca|
  {
    if |rounds| == 0 then []
    else Render(voca, rounds[..|rounds| - 1]) + RoundLines(voca, rounds[|rounds| - 1])
  }

  lemma RenderSnoc(voca: Voca, rounds: seq<Round>, r: Round)
    requires forall j :: 0 <= j < |rounds| ==> rounds[j].idx < |voca.voca|
    requires r.idx < |voca.voca|
    ensures Render(voca, rounds + [r]) == Render(voca, rounds) + RoundLines(voca, r)
  {
    assert (rounds + [r])[..|rounds|] == rounds;
  }

  /**
   * One pass of the loop: draw an index, print its banner, read a reply and act on it.
   * `ends` says the loop returns after this pass, and then with `outcome`.
   */
  method AskRound(voca: Voca, draw: nat, readline: Input)
    returns (block: seq<string>, round: Round, ends: bool, outcome: Outcome)
    requires |voca.voca| > 0
    ensures round.idx == GenRange(draw, |voca.voca|)
    ensures ends <==> !Continues(readline)
    ensures round.revealed <==> Continues(readline) && ClassifyReply(readline.text) == Reveal
    ensures block == RoundLines(voca, round)
    ensures ends ==> outcome == Ending(readline)
  {
    var idx := GenRange(draw, |voca.voca|);
    block := Banner(voca.voca[idx].word);
    block := block + [""];
    ends := true;
    round := Round(idx, false);
    outcome := Ok;
    match readline {
      case Line(val) =>
        var reply := ClassifyReply(val);
        if reply == Quit {
          outcome := Ok;
        } else if reply == Known {
          ends := false;
        } else {
          var answer := ShowAnswer(voca, idx);
          block := block + answer;
          round := Round(idx, true);
          ends := false;
        }
      case Interrupted =>
        outcome := Ok;
      case Eof =>
        outcome := Ok;
      case ReadFailed =>
        outcome := Err(RustylineInternalErr);
    }
  }

  /** Below `Stop`, the loop consumes the reply; at `Stop`, that reply (or end of input) ends it. */
  lemma StopAt(events: seq<Input>, k: nat)
    requires k <= Stop(events)
    ensures k < Stop(events) <==> k < |events| && Continues(events[k])
  {
  }

  /** The `loop` of `cli_main`, from the first draw to `Ok(())` or the editor error. */
  method CliLoop(voca: Voca, events: seq<Input>, draws: seq<nat>)
    returns (lines: seq<string>, outcome: Outcome)
    requires |voca.voca| > 0 && Stop(events) < |draws|
    ensures var t := Run(|voca.voca|, events, draws);
            lines == Render(voca, t.rounds) && outcome == t.outcome
  {
    var n := |voca.voca|;
    ghost var whole := Run(n, events, draws).rounds;
    ghost var rounds: seq<Round> := [];
    lines := [];
    var k := 0;
    while true
      invariant k <= Stop(events)
      invariant rounds == whole[..k]
      invariant lines == Render(voca, rounds)
      decreases |events| - k
    {
      var readline := if k < |events| then events[k] else Eof;
      var block, round, ends;
      block, round, ends, outcome := AskRound(voca, draws[k], readline);
      StopAt(events, k);
      RunRound(n, events, draws, k);
      assert whole[k] == round;
      TakeOneMore(whole, k);
      RenderSnoc(voca, rounds, round);
      lines := lines + block;
      rounds := rounds + [round];
      if ends {
        assert k == Stop(events);
        assert |whole| == k + 1;
        assert whole[..k + 1] == whole;
        RunOutcome(n, events, draws);
        return;
      }
      k := k + 1;
    }
  }

  // ---------------------------------------------------------------- the whole program

  /** The file list: the arguments joined with " ", or the line typed at the prompt. */
  function FilenameLine(args: seq<string>, typed: Input): (r: Option<string>)
    ensures r.Some? <==> |args| > 0 || typed.Line?
    ensures |args| == 0 && typed.Line? ==> r == Some(typed.text)
  {
    if |args| > 0 then Some(Joined(args, " "))
    else if typed.Line? then Some(typed.text)
    else None
  }

  /**
   * `cli_main` after flag parsing. `fileEditorOk` and `mainEditorOk` say whether the two line
   * editors could be created, `typed` is the answer to the filename prompt, `fs` the readable
   * files, and `parse` the TOML deserialiser.
   */
  method CliMain(args: seq<string>, fileEditorOk: bool, typed: Input, fs: map<string, string>,
                 parse: string -> Option<Voca>, mainEditorOk: bool,
                 events: seq<Input>, draws: seq<nat>)
    returns (lines: seq<string>, outcome: Outcome)
    requires Stop(events) < |draws|
    ensures !fileEditorOk ==> outcome == Err(RustylineInitFailed) && lines == []
    ensures fileEditorOk && FilenameLine(args, typed).None? ==>
              lines == [] && outcome == (if typed.ReadFailed? then Err(RustylineInternalErr) else Ok)
    ensures fileEditorOk && FilenameLine(args, typed).Some? ==>
      var names := SplitWhitespace(FilenameLine(args, typed).value);
      && (!AllPresent(names, fs) ==> outcome == Err(IOErr) && lines == [])
      && (AllPresent(names, fs) ==>
            var parsed := parse(Suffixed(Lookup(names, fs), "\n"));
            && (parsed.None? ==> outcome == Err(TomlParseFailed) && lines == [])
            && (parsed.Some? && !mainEditorOk ==> outcome == Err(RustylineInitFailed) && lines == [])
            && (parsed.Some? && mainEditorOk && |parsed.value.voca| == 0 ==>
                  outcome == Panicked && lines == [])
            && (parsed.Some? && mainEditorOk && |parsed.value.voca| > 0 ==>
                  var t := Run(|parsed.value.voca|, events, draws);
                  lines == Render(parsed.value, t.rounds) && outcome == t.outcome))
  {
    lines := [];
    if !fileEditorOk {
      return [], Err(RustylineInitFailed);
    }
    var filenames: string;
    if |args| > 0 {
      filenames := Joined(args, " ");
    } else {
      match typed {
        case Line(text) => filenames := text;
        case Interrupted => return [], Ok;
        case Eof => return [], Ok;
        case ReadFailed => return [], Err(RustylineInternalErr);
      }
    }
    var buf, res := ReadToStringFromFiles("", filenames, fs);
    if res != Ok {
      return [], res;
    }
    ghost var names := SplitWhitespace(filenames);
    assert names[..FirstMissing(names, fs)] == names;
    assert buf == Suffixed(Lookup(names, fs), "\n");
    var parsed := parse(buf);
    if parsed.None? {
      return [], Err(TomlParseFailed);
    }
    var voca := parsed.value;
    if !mainEditorOk {
      return [], Err(RustylineInitFailed);
    }
    if |voca.voca| == 0 {
      // gen_range(0..0) panics before anything is written
      return [], Panicked;
    }
    lines, outcome := CliLoop(voca, events, draws);
  }
}
