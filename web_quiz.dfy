/**
 * The browser quiz: the state `main` keeps in its closure (the drawn word, its number of
 * senses and the sense on display) and the page elements its four button handlers change.
 * Each handler is a step function on that state, and the class `QuizPage` updates its fields
 * in place as the handlers do.
 */
module WebQuiz {
  import opened Vocabulary
  import opened Strings
  import opened WasmVoca

  /** The page as the handlers see it: texts and whether each element is displayed. */
  datatype Dom = Dom(
    word: string,           // #main-voca text
    answerShown: bool,      // #voca-answer
    prevShown: bool,        // #prev-answer
    nextShown: bool,        // #next-answer
    meaning: string,        // #voca-meaning text
    synosShown: bool,       // every .synos element
    synosText: string,      // #voca-synos text
    exampleShown: bool,     // every .example element
    exampleText: string)    // #voca-example text

  /** The closure variables of `main` together with the page. */
  datatype Nav = Nav(vocaIdx: int, infoLen: int, idx: int, dom: Dom)

  /** A page update and whether it stopped with a TypeError part way. */
  datatype Shown = Shown(dom: Dom, threw: bool)

  datatype Handled = Handled(nav: Nav, threw: bool)

  /**
   * `showAnswer`. Reading a sense past the end of the list yields `undefined`, so reading
   * its meaning throws before anything changes. Whether synonyms are shown is decided by
   * sense 0 while their text is read from sense `idx`: when sense 0 has synonyms and sense
   * `idx` has none, `undefined.join` throws after the meaning and the synonym elements
   * were already updated.
   */
  function ShowAnswerStep(info: seq<WordInfo>, idx: int, d: Dom): (r: Shown)
    ensures r.dom.word == d.word && r.dom.prevShown == d.prevShown && r.dom.nextShown == d.nextShown
  {
    if !(0 <= idx < |info|) then Shown(d, true)
    else
      var d1 := d.(meaning := info[idx].meaning);
      var d2 :=
        if info[0].synos.None? then d1.(synosShown := false)
        else if info[idx].synos.None? then d1.(synosShown := true)
        else d1.(synosShown := true, synosText := Joined(info[idx].synos.value, ", "));
      if info[0].synos.Some? && info[idx].synos.None? then Shown(d2, true)
      else
        var d3 :=
          match info[idx].example
          case Some(example) => d2.(exampleShown := true, exampleText := example)
          case None => d2.(exampleShown := false);
        Shown(d3.(answerShown := true), false)
  }

  /** The state after `main`'s set-up: a random word, its first sense. */
  function Initial(vocas: seq<Word>, random: usize, page: Dom): (s: Nav)
    requires 0 < |vocas| < 0x1_0000_0000
    ensures 0 <= s.vocaIdx < |vocas| && s.infoLen == |vocas[s.vocaIdx].info| && s.idx == 0
    ensures s.dom.word == vocas[s.vocaIdx].word && s.dom.(word := page.word) == page
  {
    var v := Rand(|vocas| as usize, random) as int;
    Nav(v, |vocas[v].info|, 0, page.(word := vocas[v].word))
  }

  /** The "known" button: hide the answer and draw a new word. */
  function KnownStep(vocas: seq<Word>, s: Nav, random: usize): (t: Nav)
    requires 0 < |vocas| < 0x1_0000_0000
    ensures t.dom.(word := s.dom.word, answerShown := s.dom.answerShown) == s.dom
  {
    var v := Rand(|vocas| as usize, random) as int;
    Nav(v, |vocas[v].info|, 0, s.dom.(answerShown := false, word := vocas[v].word))
  }

  /** The word on display, its index and its sense count stay as they were. */
  predicate Unmoved(s: Nav, t: Nav)
  {
    t.vocaIdx == s.vocaIdx && t.infoLen == s.infoLen && t.dom.word == s.dom.word
  }

  /** The "unknown" button: hide prev, show next when there is a second sense, show the answer. */
  function UnknownStep(vocas: seq<Word>, s: Nav): (h: Handled)
    requires 0 <= s.vocaIdx < |vocas|
    ensures Unmoved(s, h.nav)
  {
    var d := s.dom.(prevShown := false, nextShown := !(s.infoLen <= 1));
    var r := ShowAnswerStep(vocas[s.vocaIdx].info, s.idx, d);
    Handled(s.(dom := r.dom), r.threw)
  }

  /** The prev button: step back unless at sense 0, show that sense, then fix the arrows. */
  function PrevStep(vocas: seq<Word>, s: Nav): (h: Handled)
    requires 0 <= s.vocaIdx < |vocas|
    ensures Unmoved(s, h.nav)
    ensures 0 <= s.idx ==> 0 <= h.nav.idx
  {
    var i := if s.idx > 0 then s.idx - 1 else s.idx;
    var r := ShowAnswerStep(vocas[s.vocaIdx].info, i, s.dom);
    if r.threw then Handled(s.(idx := i, dom := r.dom), true)
    else
      var d1 := if i <= 0 then r.dom.(prevShown := false) else r.dom;
      var d2 := if i + 1 < s.infoLen then d1.(nextShown := true) else d1;
      Handled(s.(idx := i, dom := d2), false)
  }

  /** The next button: step forward unless at the last sense, show it, then fix the arrows. */
  function NextStep(vocas: seq<Word>, s: Nav): (h: Handled)
    requires 0 <= s.vocaIdx < |vocas|
    ensures Unmoved(s, h.nav)
    ensures s.idx <= h.nav.idx
  {
    var i := if s.idx + 1 < s.infoLen then s.idx + 1 else s.idx;
    var r := ShowAnswerStep(vocas[s.vocaIdx].info, i, s.dom);
    if r.threw then Handled(s.(idx := i, dom := r.dom), true)
    else
      var d1 := if i > 0 then r.dom.(prevShown := true) else r.dom;
      var d2 := if i + 1 >= s.infoLen then d1.(nextShown := false) else d1;
      Handled(s.(idx := i, dom := d2), false)
  }

  /**
   * What the handlers keep: the word index is in range, the sense count is that word's, and
   * the sense index is in range (or 0 for a word without senses).
   */
  predicate Consistent(vocas: seq<Word>, s: Nav)
  {
    && 0 < |vocas| < 0x1_0000_0000
    && 0 <= s.vocaIdx < |vocas|
    && s.infoLen == |vocas[s.vocaIdx].info|
    && 0 <= s.idx
    && (s.idx < s.infoLen || s.idx == 0)
  }

  predicate AllHaveSenses(vocas: seq<Word>)
  {
    forall w :: 0 <= w < |vocas| ==> |vocas[w].info| > 0
  }

  /** Set-up and all four handlers keep the state consistent, whether or not they throw. */
  lemma HandlersKeepConsistent(vocas: seq<Word>, s: Nav, random: usize, page: Dom)
    requires 0 < |vocas| < 0x1_0000_0000
    ensures Consistent(vocas, Initial(vocas, random, page))
    ensures Consistent(vocas, s) ==>
      && Consistent(vocas, KnownStep(vocas, s, random))
      && Consistent(vocas, UnknownStep(vocas, s).nav)
      && Consistent(vocas, PrevStep(vocas, s).nav)
      && Consistent(vocas, NextStep(vocas, s).nav)
  {
  }

  /** When every word has a sense, the sense on display is always one of the word's senses. */
  lemma IndexInRange(vocas: seq<Word>, s: Nav)
    requires AllHaveSenses(vocas) && Consistent(vocas, s)
    ensures 0 <= s.idx < s.infoLen
  {
  }

  /** "Known" restarts at sense 0 of the newly drawn word, with the answer hidden. */
  lemma KnownResets(vocas: seq<Word>, s: Nav, random: usize)
    requires 0 < |vocas| < 0x1_0000_0000
    ensures var t := KnownStep(vocas, s, random);
      && 0 <= t.vocaIdx < |vocas|
      && (random as int < |vocas| ==> t.vocaIdx == random as int)
      && t.idx == 0 && t.infoLen == |vocas[t.vocaIdx].info|
      && !t.dom.answerShown && t.dom.word == vocas[t.vocaIdx].word
  {
  }

  /**
   * "Unknown" keeps the word and the sense, hides prev, shows next exactly when the word
   * has more than one sense, and shows the answer unless it throws.
   */
  lemma UnknownKeepsPosition(vocas: seq<Word>, s: Nav)
    requires Consistent(vocas, s)
    ensures var h := UnknownStep(vocas, s);
      && h.nav.vocaIdx == s.vocaIdx && h.nav.idx == s.idx && h.nav.infoLen == s.infoLen
      && !h.nav.dom.prevShown
      && (h.nav.dom.nextShown <==> s.infoLen > 1)
      && (h.nav.dom.answerShown <==> !h.threw || s.dom.answerShown)
  {
  }

  /**
   * After prev: the index dropped by one unless it was 0; prev is hidden at sense 0 and
   * otherwise left alone; next is shown when a later sense exists and otherwise left alone.
   */
  lemma PrevVisibility(vocas: seq<Word>, s: Nav)
    requires Consistent(vocas, s)
    ensures var h := PrevStep(vocas, s);
      && h.nav.idx == (if s.idx > 0 then s.idx - 1 else 0)
      && (!h.threw ==>
            && h.nav.dom.prevShown == (h.nav.idx > 0 && s.dom.prevShown)
            && h.nav.dom.nextShown == (h.nav.idx + 1 < s.infoLen || s.dom.nextShown))
  {
  }

  /**
   * After next: the index rose by one unless it was at the last sense; prev is shown past
   * sense 0 and otherwise left alone; next is hidden at the last sense and otherwise left alone.
   */
  lemma NextVisibility(vocas: seq<Word>, s: Nav)
    requires Consistent(vocas, s)
    ensures var h := NextStep(vocas, s);
      && h.nav.idx == (if s.idx + 1 < s.infoLen then s.idx + 1 else s.idx)
      && (h.nav.idx < s.infoLen || h.nav.idx == 0)
      && (!h.threw ==>
            && h.nav.dom.prevShown == (h.nav.idx > 0 || s.dom.prevShown)
            && h.nav.dom.nextShown == (h.nav.idx + 1 < s.infoLen && s.dom.nextShown))
  {
  }

  /** Next followed by prev comes back to the same sense, when next moved. */
  lemma NextThenPrev(vocas: seq<Word>, s: Nav)
    requires Consistent(vocas, s) && s.idx + 1 < s.infoLen
    ensures PrevStep(vocas, NextStep(vocas, s).nav).nav.idx == s.idx
  {
  }

  /**
   * `showAnswer` throws exactly when the sense is missing or when sense 0 has synonyms and
   * the shown sense has none. Otherwise it shows the answer with that sense's meaning and
   * example, and shows synonyms exactly when sense 0 has them.
   */
  lemma ShowAnswerRule(info: seq<WordInfo>, idx: int, d: Dom)
    ensures var r := ShowAnswerStep(info, idx, d);
      && (r.threw <==> !(0 <= idx < |info|) || (info[0].synos.Some? && info[idx].synos.None?))
      && (!(0 <= idx < |info|) ==> r.dom == d)
      && (0 <= idx < |info| && info[0].synos.Some? && info[idx].synos.None? ==>
            r.dom == d.(meaning := info[idx].meaning, synosShown := true))
      && (!r.threw ==>
            && r.dom.answerShown
            && r.dom.meaning == info[idx].meaning
            && (r.dom.synosShown <==> info[0].synos.Some?)
            && (info[0].synos.Some? ==> r.dom.synosText == Joined(info[idx].synos.value, ", "))
            && (r.dom.exampleShown <==> info[idx].example.Some?)
            && (info[idx].example.Some? ==> r.dom.exampleText == info[idx].example.value))
  {
  }

  /** Every sense of every word agrees with the word's first sense on having synonyms. */
  predicate UniformSynonyms(vocas: seq<Word>)
  {
    forall w, i :: 0 <= w < |vocas| && 0 <= i < |vocas[w].info| ==>
      vocas[w].info[i].synos.Some? == vocas[w].info[0].synos.Some?
  }

  /** With a sense for every word and uniform synonyms, no handler throws. */
  lemma HandlersDoNotThrow(vocas: seq<Word>, s: Nav)
    requires AllHaveSenses(vocas) && UniformSynonyms(vocas) && Consistent(vocas, s)
    ensures !UnknownStep(vocas, s).threw && !PrevStep(vocas, s).threw && !NextStep(vocas, s).threw
  {
    var info := vocas[s.vocaIdx].info;
    var back := if s.idx > 0 then s.idx - 1 else s.idx;
    var ahead := if s.idx + 1 < s.infoLen then s.idx + 1 else s.idx;
    ShowAnswerRule(info, s.idx, s.dom.(prevShown := false, nextShown := !(s.infoLen <= 1)));
    ShowAnswerRule(info, back, s.dom);
    ShowAnswerRule(info, ahead, s.dom);
  }

  /** The closure of `main`, with one method per button handler. */
  class QuizPage {
    const vocas: seq<Word>
    var vocaIdx: int
    var infoLen: int
    var idx: int
    var dom: Dom

    function State(): Nav
      reads this
    {
      Nav(vocaIdx, infoLen, idx, dom)
    }

    ghost predicate Valid()
      reads this
    {
      Consistent(vocas, State())
    }

    /** `main` after parsing: draw a word and show it; `page` is the page as loaded. */
    constructor (vocas: seq<Word>, random: usize, page: Dom)
      requires 0 < |vocas| < 0x1_0000_0000
      ensures this.vocas == vocas && Valid() && State() == Initial(vocas, random, page)
    {
      this.vocas := vocas;
      var v := Rand(|vocas| as usize, random) as int;
      vocaIdx := v;
      infoLen := |vocas[v].info|;
      idx := 0;
      dom := page.(word := vocas[v].word);
    }

    method ShowAnswer() returns (threw: bool)
      requires Valid()
      modifies this`dom
      ensures Valid()
      ensures Shown(dom, threw) == ShowAnswerStep(vocas[vocaIdx].info, idx, old(dom))
    {
      var info := vocas[vocaIdx].info;
      if !(0 <= idx < |info|) {
        return true;
      }
      dom := dom.(meaning := info[idx].meaning);
      if info[0].synos.Some? {
        dom := dom.(synosShown := true);
        match info[idx].synos {
          case None =>
            return true;
          case Some(synos) =>
            dom := dom.(synosText := Joined(synos, ", "));
        }
      } else {
        dom := dom.(synosShown := false);
      }
      match info[idx].example {
        case Some(example) =>
          dom := dom.(exampleShown := true, exampleText := example);
        case None =>
          dom := dom.(exampleShown := false);
      }
      dom := dom.(answerShown := true);
      threw := false;
    }

    method OnKnown(random: usize)
      requires Valid()
      modifies this
      ensures Valid() && State() == KnownStep(vocas, old(State()), random)
    {
      dom := dom.(answerShown := false);
      vocaIdx := Rand(|vocas| as usize, random) as int;
      dom := dom.(word := vocas[vocaIdx].word);
      infoLen := |vocas[vocaIdx].info|;
      idx := 0;
    }

    method OnUnknown() returns (threw: bool)
      requires Valid()
      modifies this
      ensures Valid() && Handled(State(), threw) == UnknownStep(vocas, old(State()))
    {
      dom := dom.(prevShown := false);
      dom := dom.(nextShown := !(infoLen <= 1));
      threw := ShowAnswer();
    }

    method OnPrev() returns (threw: bool)
      requires Valid()
      modifies this
      ensures Valid() && Handled(State(), threw) == PrevStep(vocas, old(State()))
    {
      if idx > 0 {
        idx := idx - 1;
      }
      threw := ShowAnswer();
      if threw {
        return;
      }
      if idx <= 0 {
        dom := dom.(prevShown := false);
      }
      if idx + 1 < infoLen {
        dom := dom.(nextShown := true);
      }
    }

    method OnNext() returns (threw: bool)
      requires Valid()
      modifies this
      ensures Valid() && Handled(State(), threw) == NextStep(vocas, old(State()))
    {
      if idx + 1 < infoLen {
        idx := idx + 1;
      }
      threw := ShowAnswer();
      if threw {
        return;
      }
      if idx > 0 {
        dom := dom.(prevShown := true);
      }
      if idx + 1 >= infoLen {
        dom := dom.(nextShown := false);
      }
    }
  }

  /** The `tomlStr` loop: every file's text followed by a newline, in the order given. */
  method ConcatTexts(values: seq<string>) returns (tomlStr: string)
    ensures tomlStr == Suffixed(values, "\n")
  {
    tomlStr := "";
    for i := 0 to |values|
      invariant tomlStr == Suffixed(values[..i], "\n")
    {
      SuffixedSnoc(values[..i], values[i], "\n");
      TakeOneMore(values, i);
      tomlStr := tomlStr + values[i];
      tomlStr := tomlStr + "\n";
    }
    assert values[..|values|] == values;
  }

  /**
   * `main`: concatenate the texts, parse them (`parse` stands for `Voca.new`, which yields
   * null on a TOML error), stop on null, trap in `rand` on an empty list, else set up the page.
   */
  method Launch(values: seq<string>, parse: string -> Option<Voca>, random: usize, page: Dom)
    returns (quiz: QuizPage?, trapped: bool)
    requires forall text :: parse(text).Some? ==> |parse(text).value.voca| < 0x1_0000_0000
    ensures var parsed := parse(Suffixed(values, "\n"));
      && (parsed.None? ==> quiz == null && !trapped)
      && (parsed.Some? && |parsed.value.voca| == 0 ==> quiz == null && trapped)
      && (parsed.Some? && |parsed.value.voca| > 0 ==>
            && !trapped && quiz != null && fresh(quiz) && quiz.Valid()
            && quiz.vocas == parsed.value.voca
            && quiz.State() == Initial(parsed.value.voca, random, page))
  {
    var tomlStr := ConcatTexts(values);
    var voca := parse(tomlStr);
    if voca.None? {
      return null, false;
    }
    var vocas := voca.value.voca;
    if |vocas| == 0 {
      // rand(0) is a remainder by zero
      return null, true;
    }
    quiz := new QuizPage(vocas, random, page);
    trapped := false;
  }
}
