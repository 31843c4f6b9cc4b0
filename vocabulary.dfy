/**
 * The vocabulary as the TOML files describe it: one `Voca` holds the words, each word has
 * one or more senses (`info`), each sense a meaning and optional synonyms and example.
 * The terminal and the browser builds declare the same three records.
 */
module Vocabulary {

  datatype Option<+T> = None | Some(value: T)

  datatype WordInfo = WordInfo(meaning: string, synos: Option<seq<string>>, example: Option<string>)

  datatype Word = Word(word: string, info: seq<WordInfo>)

  datatype Voca = Voca(voca: seq<Word>)
}
