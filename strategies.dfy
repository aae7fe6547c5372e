/**
 * ChunkingStrategyInterface as a sum of the eight streaming strategies, each
 * with its configuration and its state as values: process and reset
 * dispatch to the strategy's own model.
 */
module Strategies {
  import opened Wrappers
  import opened Chunks
  import Paragraph
  import Sentence
  import FixedSize
  import WordCount
  import Line
  import Regex
  import Dialogue
  import Markdown

  datatype Strategy =
    | ByParagraph(paragraph: Paragraph.State)
    | BySentence(sentence: Sentence.State)
    | ByFixedSize(chunkSize: nat, fixedSize: FixedSize.State)
    | ByWordCount(wordCount: nat, words: WordCount.State)
    | ByLine(linesPerChunk: nat, lines: Line.State)
    | ByRegex(pattern: Regex.Pattern, mode: Regex.DelimiterPosition, regex: Regex.State)
    | ByDialogue(config: Dialogue.Config, dialogue: Dialogue.State)
    | ByMarkdown(minLevel: int, maxLevel: int, split: Markdown.Splitter, markdown: Markdown.State)

  /** What each constructor accepts. */
  predicate Valid(st: Strategy) {
    match st
    case ByFixedSize(n, _) => n > 0
    case ByWordCount(n, _) => n > 0
    case ByLine(n, _) => n > 0
    case ByRegex(p, _, _) => p.valid
    case ByMarkdown(lo, hi, _, _) => Markdown.ValidLevels(lo, hi)
    case _ => true
  }

  /** reset(): the configuration is kept and the state is the initial one. */
  function Reset(st: Strategy): Strategy {
    match st
    case ByParagraph(_) => ByParagraph(Paragraph.Initial)
    case BySentence(_) => BySentence(Sentence.Initial)
    case ByFixedSize(n, _) => ByFixedSize(n, FixedSize.Initial)
    case ByWordCount(n, _) => ByWordCount(n, WordCount.Initial)
    case ByLine(n, _) => ByLine(n, Line.Initial)
    case ByRegex(p, m, _) => ByRegex(p, m, Regex.Initial)
    case ByDialogue(c, _) => ByDialogue(c, Dialogue.Initial)
    case ByMarkdown(lo, hi, f, _) => ByMarkdown(lo, hi, f, Markdown.Initial)
  }

  /** process(data, isEnd): the chunks and the strategy with its new state. */
  function Process(st: Strategy, data: string, isEnd: bool): (seq<Chunk>, Strategy)
    requires Valid(st)
  {
    match st
    case ByParagraph(s) =>
      var r := Paragraph.Step(s, data, isEnd);
      (r.0, ByParagraph(r.1))
    case BySentence(s) =>
      var r := Sentence.Step(s, data, isEnd);
      (r.0, BySentence(r.1))
    case ByFixedSize(n, s) =>
      var r := FixedSize.Step(s, n, data, isEnd);
      (r.0, ByFixedSize(n, r.1))
    case ByWordCount(n, s) =>
      var r := WordCount.Step(s, n, data, isEnd);
      (r.0, ByWordCount(n, r.1))
    case ByLine(n, s) =>
      var r := Line.Step(s, n, data, isEnd);
      (r.0, ByLine(n, r.1))
    case ByRegex(p, m, s) =>
      var r := Regex.Step(s, p, m, data, isEnd);
      (r.0, ByRegex(p, m, r.1))
    case ByDialogue(c, s) =>
      var r := Dialogue.Step(s, c, data, isEnd);
      (r.0, ByDialogue(c, r.1))
    case ByMarkdown(lo, hi, f, s) =>
      var r := Markdown.Step(s, lo, hi, f, data, isEnd);
      (r.0, ByMarkdown(lo, hi, f, r.1))
  }

  /** Processing changes only the state: the configuration, hence validity and the reset strategy, stay. */
  lemma ProcessKeepsConfig(st: Strategy, data: string, isEnd: bool)
    requires Valid(st)
    ensures Valid(Process(st, data, isEnd).1)
    ensures Reset(Process(st, data, isEnd).1) == Reset(st)
  {
  }

  /** Reset keeps validity, and resetting twice is resetting once. */
  lemma ResetKeepsConfig(st: Strategy)
    ensures Valid(Reset(st)) == Valid(st)
    ensures Reset(Reset(st)) == Reset(st)
  {
  }
}
