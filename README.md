# PHPTextChunker in Dafny

A model of the core of PHPTextChunker, a PHP library that cuts a text or a file into
chunks while streaming it.

The library has two main parts.

- **Strategies** (`ChunkingStrategyInterface`) take one block of data at a time, together
  with an end-of-stream flag. They yield the chunks that are complete so far and keep the
  rest in a buffer.
- **Post-processors** (`ChunkPostProcessorInterface`) take the whole sequence of chunks
  and return a new one.

`TextChunker` ties the two together:

1. It resets the strategy.
2. It feeds the strategy either the text, as one final block, or the file's successive
   8192-character reads.
3. It merges the global metadata into every chunk.
4. It runs the post-processors in the order they were added.

## How the model is built

- **Chunk** is the datatype `Chunks.Chunk`. Metadata is a map from string keys to a
  small sum of PHP values.
- **Each streaming strategy** has three parts:
  - a value `State` holding the object's mutable fields;
  - a pure `Step(state, config, data, isEnd)` that returns the chunks and the new state;
  - a `class` with the library's fields.

  The class's `Process` method follows the PHP loops statement by statement. Its contract
  is proved equal to `Step`. The properties of the strategy are lemmas about `Step`.
- **Strategies.Strategy** is the sum of the eight streaming strategies (paragraph,
  sentence, fixed size, word count, line, regex, dialogue, markdown). Each carries its
  configuration and state. `Recursive` keeps a list of those. `TextChunking.AnyStrategy`
  adds the recursive strategy.
- **Each post-processor** is a pure function `Apply`, with a method `Process` where the
  PHP code loops. The deduplicator is a class, because its `seen` set is a field.
  `PostProcessors.PostProcessor` is their sum, and `ApplyAll` runs a list of them.
- **TextChunking.TextChunker** is a class with the chunker's four fields. The function
  `Chunked` states what `chunk()` returns.
  - The file system is a parameter. `SetFile` is told whether the path exists and is
    readable. `Chunk` receives the file's contents, or `None` when `fopen` fails.
  - Exceptions become `Error` values.
- **Regular expressions** other than the fixed ones the strategies write out are
  parameters. This covers the user's pattern in the regex strategy and the heading split
  in the markdown strategy. `preg_split` is a function value that returns
  `None` for `false`.
- **md5** in the deduplicator is a hash function parameter.
- **Whitespace** for `mb_trim` and PCRE `\s` is the set space, `\t`, `\n`, `\v`, `\f`,
  `\r`. Strings are sequences of characters, so `mb_strlen` is the sequence length.

Where the library has a quirk, the model keeps it, and a lemma states it with a concrete
input. Examples:

- A remainder of `"0"` is dropped, because it is falsy.
- The word-count strategy can re-emit a word after a run of two spaces.
- The regex strategy in prefix mode can lose a delimiter.
- The markdown strategy can read a lone `#` line as a heading marker.
- The dialogue strategy drops the line `"0"` from its size count.

## Model

| member | source | states |
|---|---|---|
| Chunks.Chunk.Length | src/ValueObject/Chunk.php:37-40 | getLength is the number of characters of the text |
| Chunks.Chunk.WithMetadata | src/ValueObject/Chunk.php:45-48 | withMetadata keeps text and position; the keys are the union, a new key's value wins and an old key not overridden keeps its value (array_merge) |
| Chunks.ChunkDefaults | src/ValueObject/Chunk.php:12-17 | the constructor's defaults are position 0 and no metadata |
| Chunks.WithMetadataTwice | src/ValueObject/Chunk.php:45-48 | merging m1 then m2 is merging m1 + m2 once, m2 winning |
| Chunks.NonBlankShape | src/Strategy/ParagraphChunkingStrategy.php:33-38 | trimming the parts and skipping the blank ones leaves no more texts than parts, each non-empty and trimmed |
| Chunks.NonBlankAppend | src/Strategy/ParagraphChunkingStrategy.php:33-50 | the trim-and-skip pass over two part lists end to end is the two passes end to end |
| Chunks.NonBlankKeeps | src/Strategy/ParagraphChunkingStrategy.php:33-38 | any property of every trimmed part holds of every surviving text |
| Chunks.NonBlankOfTrimmed | src/Strategy/ParagraphChunkingStrategy.php:33-38 | parts that are already trimmed and non-empty all survive unchanged |
| Chunks.NonBlankSingle | src/Strategy/ParagraphChunkingStrategy.php:34-38 | one part survives exactly when its trim is non-empty, and then as its trim |
| Chunks.TrimmedChunksShape | src/Strategy/ParagraphChunkingStrategy.php:33-50 | the foreach loop's chunks are the non-blank trimmed parts in order, numbered on from the position, each tagged with the strategy name and its length |
| Chunks.TrimmedChunksKeep | src/Strategy/ParagraphChunkingStrategy.php:33-50 | any property of every trimmed part holds of every emitted chunk text |
| Chunks.EmitTrimmedParts | src/Strategy/ParagraphChunkingStrategy.php:33-50 | the yield loop (trim, skip blank, number from the current position) computes exactly the specified chunks |
| Chunks.ConsecutiveAppend | src/Strategy/ParagraphChunkingStrategy.php:40-49 | positions that go on by one in each of two batches go on by one across both |
| TextUtil.OrEmpty | src/Strategy/ParagraphChunkingStrategy.php:28 | `$s ?: ''` is s itself, except that "0" becomes '' |
| TextUtil.TrimShape | src/Strategy/ParagraphChunkingStrategy.php:34 | mb_trim's result has no whitespace at either end, is no longer than the input, and is empty exactly when the input is all whitespace |
| TextUtil.TrimLength | src/Strategy/ParagraphChunkingStrategy.php:34 | mb_trim never lengthens a text |
| TextUtil.TrimmedIsFixed | src/Strategy/ParagraphChunkingStrategy.php:34 | a text with no whitespace at either end is its own trim |
| TextUtil.TrimIdempotent | src/PostProcessor/ChunkFilterPostProcessor.php:23 | trimming twice is trimming once |
| TextUtil.JoinSplit | src/Strategy/ParagraphChunkingStrategy.php:25 | implode(sep, explode(sep, s)) == s: explode loses and adds nothing |
| TextUtil.SplitPiecesAvoidSeparator | src/Strategy/ParagraphChunkingStrategy.php:25 | no piece of explode(sep, s) contains sep |
| TextUtil.SplitFirstIsPrefix | src/Strategy/ParagraphChunkingStrategy.php:25 | the first piece of explode is a prefix of the input |
| TextUtil.SplitFreePiece | src/Strategy/ParagraphChunkingStrategy.php:25 | a text without the separator's first character explodes into itself alone |
| TextUtil.SplitAfterFreePiece | src/Strategy/ParagraphChunkingStrategy.php:25 | such a text followed by the separator is the first piece, the rest explodes on its own |
| TextUtil.SplitCharPieces | src/Strategy/LineChunkingStrategy.php:36 | no piece of explode on one character contains that character |
| TextUtil.SplitCharAppend | src/Strategy/LineChunkingStrategy.php:36-37 | explode on one character of x + y is the complete pieces of x followed by the pieces of x's last piece + y, which is why a line splitter can be fed in any blocks |
| TextUtil.WordsAreWords | src/Strategy/WordCountChunkingStrategy.php:34 | every element of preg_split('/\s+/', s, NO_EMPTY) is a non-empty run without whitespace |
| TextUtil.WordsOfJoin | src/Strategy/WordCountChunkingStrategy.php:45 | words joined by single spaces split back into the same words |
| TextUtil.FirstWordAt | src/Strategy/WordCountChunkingStrategy.php:49 | the first word of a text starts right after its leading whitespace |
| TextUtil.JoinOfWordsIsTrimmed | src/Strategy/WordCountChunkingStrategy.php:45 | words joined by single spaces have no whitespace at either end |
| TextUtil.JoinOfWordsEmpty | src/Strategy/WordCountChunkingStrategy.php:45 | words joined by spaces are empty only when there are no words |
| TextUtil.IndexOfFromSpec | src/Strategy/WordCountChunkingStrategy.php:49 | the search from i finds the first occurrence at or after i, and fails only when there is none |
| TextUtil.IndexOfSpec | src/Strategy/WordCountChunkingStrategy.php:49 | mb_strpos finds the first occurrence and returns false exactly when there is none |
| TextUtil.LastIndexOfChar | src/Strategy/MarkdownChunkingStrategy.php:42 | mb_strrpos of one character finds an occurrence with none after it, and fails exactly when there is none |
| TextUtil.NewlineRun | src/Strategy/DialogueChunkingStrategy.php:34 | the length of the leading run of newlines, maximal |
| TextUtil.CollapseNewlines | src/Strategy/DialogueChunkingStrategy.php:34 | preg_replace('/\n{3,}/', "\n\n") is empty exactly for empty input and starts with a newline exactly when the input does |
| TextUtil.CollapseNewlinesNoTriple | src/Strategy/DialogueChunkingStrategy.php:34 | after that replacement no three newlines in a row are left |
| Paragraph.EmitsTrimmedPieces | src/Strategy/ParagraphChunkingStrategy.php:21-50 | process yields the non-blank trimmed pieces in order, numbered on from the position, with strategy and length metadata, and advances the position by the count |
| Paragraph.ParagraphsAvoidSeparator | src/Strategy/ParagraphChunkingStrategy.php:25-38 | no emitted paragraph contains a blank-line separator |
| Paragraph.HoldsBackLastPiece | src/Strategy/ParagraphChunkingStrategy.php:27-31 | at the end the buffer is emptied; otherwise it is the piece after the last separator, so the emitted pieces and it rejoin to the whole buffer, except that a remainder "0" becomes '' |
| Paragraph.ZeroRemainderIsLost | src/Strategy/ParagraphChunkingStrategy.php:28 | "A\n\n0" without end leaves an empty buffer: the "0" is lost |
| Paragraph.OneParagraph | src/Strategy/ParagraphChunkingStrategy.php:21-50 | a single one-line paragraph fed at once is one chunk with the same text |
| Paragraph.EndTexts | src/Strategy/ParagraphChunkingStrategy.php:21-50 | fed at once from the start, the texts are the non-blank trimmed pieces of the input |
| Paragraph.ThreeParagraphs | tests/Unit/Strategy/ParagraphChunkingStrategyTest.php:12-23 | three one-line paragraphs separated by blank lines give three chunks with those texts |
| Paragraph.EmptyParagraphSkipped | src/Strategy/ParagraphChunkingStrategy.php:36-38 | four newlines between two paragraphs make an empty middle piece, which is skipped |
| Paragraph.NonBlankSkipsMiddle | src/Strategy/ParagraphChunkingStrategy.php:36-38 | a blank middle piece is dropped and the other two kept |
| Paragraph.PlainPiece | src/Strategy/ParagraphChunkingStrategy.php:25 | a one-line paragraph explodes into itself |
| Paragraph.PlainHead | src/Strategy/ParagraphChunkingStrategy.php:25 | a one-line paragraph and a blank line start the pieces |
| Paragraph.ParagraphStrategy.constructor | src/Strategy/ParagraphChunkingStrategy.php:12-13 | the new object has an empty buffer and position 0 |
| Paragraph.ParagraphStrategy.Reset | src/Strategy/ParagraphChunkingStrategy.php:15-19 | reset empties the buffer and sets the position to 0 |
| Paragraph.ParagraphStrategy.Process | src/Strategy/ParagraphChunkingStrategy.php:21-65 | process yields the chunks of Step and leaves the object in Step's state |
| Sentence.FirstBreak | src/Strategy/SentenceChunkingStrategy.php:25 | the first position at or after i where a terminator is followed by whitespace, and none before it |
| Sentence.SentencesShape | src/Strategy/SentenceChunkingStrategy.php:25 | the pieces of the sentence split are non-empty, hold no boundary, and all but the last end with a terminator |
| Sentence.BlankHasNoSentence | src/Strategy/SentenceChunkingStrategy.php:25 | whitespace alone is a single piece |
| Sentence.EmitsTrimmedSentences | src/Strategy/SentenceChunkingStrategy.php:37-54 | process yields the non-blank trimmed pieces in order, numbered on from the position, with strategy and length metadata |
| Sentence.StartsAtZero | src/Strategy/SentenceChunkingStrategy.php:15-19 | after reset the chunks are numbered from 0 |
| Sentence.HoldsBackLastOfSeveral | src/Strategy/SentenceChunkingStrategy.php:31-35 | with several pieces and more to come the last is kept (a "0" becoming ''); otherwise every piece is emitted and the buffer cleared |
| Sentence.FinalCallEmptiesBuffer | src/Strategy/SentenceChunkingStrategy.php:56-68 | after a final call the buffer is empty, so the flush never fires; a held-back sentence has no boundary inside |
| Sentence.SentenceStrategy.constructor | src/Strategy/SentenceChunkingStrategy.php:12-13 | the new object has an empty buffer and position 0 |
| Sentence.SentenceStrategy.Reset | src/Strategy/SentenceChunkingStrategy.php:15-19 | reset empties the buffer and sets the position to 0 |
| Sentence.SentenceStrategy.Process | src/Strategy/SentenceChunkingStrategy.php:21-69 | process yields the chunks of Step and leaves the object in Step's state |
| Strategies.ProcessKeepsConfig | src/Contract/ChunkingStrategyInterface.php:20 | process changes only a strategy's state: it stays valid and resets to the same strategy |
| Strategies.ResetKeepsConfig | src/Contract/ChunkingStrategyInterface.php:25 | reset keeps validity and resetting twice is resetting once |
| Recursive.CheckArguments | src/Strategy/RecursiveChunkingStrategy.php:21-26 | the arguments are refused exactly when the list is empty or the maximum is not positive, with the library's messages |
| Recursive.Configs | src/Strategy/RecursiveChunkingStrategy.php:37-39 | resetting each strategy keeps the list's length |
| Recursive.UpdateKeepsConfigs | src/Strategy/RecursiveChunkingStrategy.php:60-63 | replacing a strategy by one that ran keeps the list valid and its configuration |
| Recursive.SplitChunk | src/Strategy/RecursiveChunkingStrategy.php:52-74 | splitChunk leaves every strategy valid and with its configuration |
| Recursive.SplitAll | src/Strategy/RecursiveChunkingStrategy.php:71-73 | splitting each text in turn leaves every strategy valid and with its configuration |
| Recursive.SplitChunkConsecutive | src/Strategy/RecursiveChunkingStrategy.php:76-91 | the chunks of one split are numbered on from the position by one |
| Recursive.SplitAllConsecutive | src/Strategy/RecursiveChunkingStrategy.php:71-73 | the chunks of a batch of splits are numbered on from the position by one |
| Recursive.SplitChunkBounded | src/Strategy/RecursiveChunkingStrategy.php:52-74 | every chunk of a split carries the recursive metadata with a depth from the current one to the last, and is within the maximum unless it is at the last depth or the next strategy yielded nothing for it |
| Recursive.SplitAllBounded | src/Strategy/RecursiveChunkingStrategy.php:71-73 | the same for every chunk of a batch of splits |
| Recursive.StepBounded | src/Strategy/RecursiveChunkingStrategy.php:42-49 | every chunk of process is within the maximum, at the last depth, or kept whole because the next strategy yielded nothing; positions go on by one; the configuration is kept |
| Recursive.ShortTextUnchanged | src/Strategy/RecursiveChunkingStrategy.php:54-58 | a text within the maximum, or with no strategy after its depth, is one chunk at that depth and no strategy runs |
| Recursive.SingleStrategyPassesThrough | src/Strategy/RecursiveChunkingStrategy.php:54-58 | with a single strategy every text it yields is passed on unchanged |
| Recursive.ResetStateSpec | src/Strategy/RecursiveChunkingStrategy.php:34-40 | reset sets the position to 0 and resets every strategy; it is idempotent |
| Recursive.OversizedKeptWithoutFallback | tests/Unit/Strategy/RecursiveChunkingStrategyTest.php:116-130 | 200 'x' with only the paragraph strategy and maximum 10 is one chunk with that text |
| Recursive.ConfigsValid | src/Strategy/RecursiveChunkingStrategy.php:37-39 | a list of valid strategies stays valid after each is reset |
| Recursive.RecursiveStrategy.constructor | src/Strategy/RecursiveChunkingStrategy.php:17-20 | the new object holds the list, the maximum and position 0 |
| Recursive.RecursiveStrategy.Create | src/Strategy/RecursiveChunkingStrategy.php:17-32 | construction fails exactly for an empty list or a non-positive maximum, with the checks' error; otherwise the object holds the arguments |
| Recursive.RecursiveStrategy.Reset | src/Strategy/RecursiveChunkingStrategy.php:34-40 | reset leaves the state ResetState specifies |
| Recursive.RecursiveStrategy.Process | src/Strategy/RecursiveChunkingStrategy.php:42-49 | process yields the chunks of Step and leaves the object in Step's state |
| Recursive.StepState | src/Strategy/RecursiveChunkingStrategy.php:44-48 | the body of process computes Step's chunks and state |
| Recursive.ResetEach | src/Strategy/RecursiveChunkingStrategy.php:37-39 | the loop resets every strategy of the list |
| Recursive.SplitOne | src/Strategy/RecursiveChunkingStrategy.php:52-91 | splitChunk with createChunk's position counter computes SplitChunk and advances the position by the count |
| Recursive.SplitAllStep | src/Strategy/RecursiveChunkingStrategy.php:71-73 | splitting texts from i on is splitting text i and then the texts after it |
| Recursive.SplitNext | src/Strategy/RecursiveChunkingStrategy.php:71-73 | one pass of the loop splits text i and leaves the rest to do |
| Recursive.SplitEach | src/Strategy/RecursiveChunkingStrategy.php:71-73 | `yield from splitChunk` for each text computes SplitAll |
| TextChunking.ProcessKeepsConfig | src/Contract/ChunkingStrategyInterface.php:20 | process keeps any strategy, recursive or not, valid and with the same reset strategy |
| TextChunking.ResetKeepsConfig | src/Contract/ChunkingStrategyInterface.php:25 | a reset strategy stays valid and resetting is idempotent |
| TextChunking.TextChunker.constructor | src/TextChunker.php:15-20 | a new chunker has no file, no text, no global metadata and no post-processors |
| TextChunking.TextChunker.SetFile | src/TextChunker.php:22-36 | setFile fails exactly when the file is missing or unreadable, with the library's messages and nothing changed; otherwise it sets the path and clears the text |
| TextChunking.TextChunker.SetText | src/TextChunker.php:38-44 | setText sets the text and clears the path |
| TextChunking.TextChunker.WithMetadata | src/TextChunker.php:49-54 | withMetadata merges into the global metadata, a new value winning |
| TextChunking.TextChunker.WithPostProcessor | src/TextChunker.php:56-61 | withPostProcessor appends one post-processor and changes nothing else |
| TextChunking.TextChunker.WithPostProcessors | src/TextChunker.php:63-70 | withPostProcessors appends the list in order and changes nothing else |
| TextChunking.TextChunker.Chunk | src/TextChunker.php:75-88 | chunk returns exactly what Chunked specifies: the chunks, the strategy afterwards, or the error |
| TextChunking.ApplyGlobalMetadata | src/TextChunker.php:111-113 | the foreach with applyGlobalMetadata maps WithGlobal over the batch |
| TextChunking.ChunksFromFile | src/TextChunker.php:93-118 | the fread/feof loop processes the file's blocks in turn and yields FromBlocks' chunks and strategy |
| TextChunking.ApplyPostProcessors | src/TextChunker.php:144-155 | the post-processors run in order, each on the output of the one before |
| TextChunking.ChunkedErrors | src/TextChunker.php:77-79 | chunk fails exactly when no source is set (the strategy is not even reset) or the file cannot be opened, with the library's messages and no chunks |
| TextChunking.WithGlobalAllSpec | src/TextChunker.php:130-137 | applyGlobalMetadata keeps text and position, and global entries override the chunk's own |
| TextChunking.FromBlocksSpec | src/TextChunker.php:102-114 | every chunk read from a file carries the global metadata, and the strategy keeps its configuration |
| TextChunking.BlocksSpec | src/TextChunker.php:102-109 | the freads are at least one; together they are the file; all but the last are full buffers read with feof false; the last is shorter and read with feof true |
| TextChunking.ChunkedTwice | src/TextChunker.php:81 | chunk resets the strategy, so chunking again with the strategy a call left behind gives the same chunks and outcome |
| TextChunking.ShortFileAsText | src/TextChunker.php:83-85 | a file shorter than one buffer chunks exactly as the same text, when no enricher reads the source |
| TextChunking.GlobalMetadataEverywhere | src/TextChunker.php:111-127 | with no post-processors every chunk carries the global metadata, from a text or a file |
| PostProcessors.Run | src/TextChunker.php:150-152 | one post-processor run through its own loop computes its Apply |
| PostProcessors.ApplyAllAppend | src/TextChunker.php:150-152 | running two lists of post-processors end to end is running the first then the second |
| PostProcessors.SourceOnlyForEnricher | src/Contract/ChunkPostProcessorInterface.php:20 | every post-processor but the enricher ignores the source |
| PostProcessors.ApplyAllSourceFree | src/TextChunker.php:146-152 | with no enricher in the list the source does not matter |
| PostProcessors.ApplyAllOne | src/TextChunker.php:150-152 | a single post-processor in the list is that post-processor |
| FixedSize.CheckChunkSize | src/Strategy/FixedSizeChunkingStrategy.php:19-21 | the size is refused exactly when it is not positive |
| FixedSize.CarveSizes | src/Strategy/FixedSizeChunkingStrategy.php:35-54 | every loop chunk has exactly the chunk size, positions go on by one, and the buffer left is shorter than the size |
| FixedSize.CarveOffsets | src/Strategy/FixedSizeChunkingStrategy.php:39-50 | chunk i spans char_start off + size * i to char_end off + size * (i + 1), and the offset advances by size per chunk |
| FixedSize.CarveConserves | src/Strategy/FixedSizeChunkingStrategy.php:35-37 | no character is lost or added: the loop chunks followed by the buffer left are the old buffer |
| FixedSize.FlushShape | src/Strategy/FixedSizeChunkingStrategy.php:56-72 | at the end a non-blank remainder is emitted once, trimmed, spanning its trimmed length from the offset; the flush does not clear the buffer or advance the position |
| FixedSize.TwentyFiveAs | tests/Unit/Strategy/FixedSizeChunkingStrategyTest.php:12-22 | 25 'A' in slices of 10 give lengths 10, 10 and 5 spanning 0-10, 10-20 and 20-25 |
| FixedSize.TwentyAs | tests/Unit/Strategy/FixedSizeChunkingStrategyTest.php:24-35 | 20 'A' give exactly two chunks spanning 0-10 and 10-20 |
| FixedSize.FixedSizeStrategy.constructor | src/Strategy/FixedSizeChunkingStrategy.php:12-22 | the new object holds the size, an empty buffer, position 0 and offset 0 |
| FixedSize.FixedSizeStrategy.Create | src/Strategy/FixedSizeChunkingStrategy.php:16-22 | construction fails exactly for a non-positive size, with the check's error |
| FixedSize.FixedSizeStrategy.Reset | src/Strategy/FixedSizeChunkingStrategy.php:24-29 | reset empties the buffer and zeroes position and offset |
| FixedSize.FixedSizeStrategy.Process | src/Strategy/FixedSizeChunkingStrategy.php:31-73 | process yields the chunks of Step and leaves the object in Step's state |
| FixedSize.CarveLoop | src/Strategy/FixedSizeChunkingStrategy.php:35-54 | the while loop on local copies of the fields computes Carve |
| WordCount.CheckWordCount | src/Strategy/WordCountChunkingStrategy.php:18-20 | the count is refused exactly when it is not positive |
| WordCount.NextShrinks | src/Strategy/WordCountChunkingStrategy.php:48-53 | each pass of the loop shortens the buffer, so the while (true) loop ends |
| WordCount.WindowNonEmpty | src/Strategy/WordCountChunkingStrategy.php:44-48 | the window's first word and its join are non-empty |
| WordCount.FoundFits | src/Strategy/WordCountChunkingStrategy.php:49-53 | a word that is found fits inside the buffer |
| WordCount.CutUnfold | src/Strategy/WordCountChunkingStrategy.php:33-66 | the loop is one pass followed by the loop on what that pass leaves |
| WordCount.FirstWordFound | src/Strategy/WordCountChunkingStrategy.php:49-52 | mb_strpos always finds the first word, so the false exit is never taken |
| WordCount.CutShape | src/Strategy/WordCountChunkingStrategy.php:33-66 | every loop chunk is exactly wordCount words joined by single spaces, tagged with its length and word_count; positions go on by one; the loop stops with fewer than wordCount words left |
| WordCount.NextSome | src/Strategy/WordCountChunkingStrategy.php:40-42 | the loop goes on exactly while at least wordCount words are left |
| WordCount.NextText | src/Strategy/WordCountChunkingStrategy.php:44-45 | one pass emits wordCount words joined by single spaces |
| WordCount.FlushShape | src/Strategy/WordCountChunkingStrategy.php:68-85 | at the end a non-blank remainder is emitted once, trimmed, with its own word count, and the buffer is cleared; otherwise the buffer is what the loop left |
| WordCount.GroupsCount | src/Strategy/WordCountChunkingStrategy.php:40-44 | whole groups times wordCount plus the leftover is the number of words, and the leftover is shorter than a group |
| WordCount.LeftoverAt | src/Strategy/WordCountChunkingStrategy.php:40-44 | the leftover words are the last words of the input |
| WordCount.SingleSpacedCut | src/Strategy/WordCountChunkingStrategy.php:33-66 | on words separated by single spaces the loop emits the consecutive groups of wordCount words and keeps the join of the rest |
| WordCount.SingleSpacedNext | src/Strategy/WordCountChunkingStrategy.php:44-53 | one pass over single-spaced words takes the first group and leaves the join of the later words |
| WordCount.SingleSpacedStream | src/Strategy/WordCountChunkingStrategy.php:29-86 | a whole single-spaced stream gives one chunk per group, then the leftover words as one final chunk when there are any |
| WordCount.SixWordsByThree | tests/Unit/Strategy/WordCountChunkingStrategyTest.php:12-22 | six words in windows of three give two chunks |
| WordCount.FiveWordsByThree | tests/Unit/Strategy/WordCountChunkingStrategyTest.php:24-33 | five words in windows of three end with the chunk of the fourth and fifth words |
| WordCount.DoubleSpaceRepeatsWord | src/Strategy/WordCountChunkingStrategy.php:48-53 | the advance is the single-spaced join's length, so on "a  x c" in windows of two the word x is emitted in both chunks |
| WordCount.DoubleSpaceFirstPass | src/Strategy/WordCountChunkingStrategy.php:44-53 | the first pass on "a  x c" emits "a x" and leaves "x c" |
| WordCount.TwoWordPass | src/Strategy/WordCountChunkingStrategy.php:33-66 | "x c" in windows of two is one chunk and nothing is left |
| WordCount.DoubleSpaceWords | src/Strategy/WordCountChunkingStrategy.php:34 | two spaces between words count as one separator for the word split |
| WordCount.FirstWordAtStart | src/Strategy/WordCountChunkingStrategy.php:49 | the first word of a single-spaced join is found at offset 0 |
| WordCount.DropFirstGroup | src/Strategy/WordCountChunkingStrategy.php:53 | cutting the first group's join off a single-spaced text and trimming leaves the join of the later words |
| WordCount.WordCountStrategy.constructor | src/Strategy/WordCountChunkingStrategy.php:12-21 | the new object holds the count, an empty buffer and position 0 |
| WordCount.WordCountStrategy.Create | src/Strategy/WordCountChunkingStrategy.php:15-21 | construction fails exactly for a count below 1, with the check's error |
| WordCount.WordCountStrategy.Reset | src/Strategy/WordCountChunkingStrategy.php:23-27 | reset empties the buffer and sets the position to 0 |
| WordCount.WordCountStrategy.Process | src/Strategy/WordCountChunkingStrategy.php:29-86 | process yields the chunks of Step and leaves the object in Step's state |
| WordCount.CutLoop | src/Strategy/WordCountChunkingStrategy.php:33-66 | the while (true) loop on local copies of the fields computes Cut |
| WordCount.NextPass | src/Strategy/WordCountChunkingStrategy.php:34-53 | one pass of the loop body computes Next |
| Line.CheckLinesPerChunk | src/Strategy/LineChunkingStrategy.php:20-22 | the count is refused exactly when it is not positive |
| Line.LineLeftover | src/Strategy/LineChunkingStrategy.php:44-53 | the lines left after the last whole group are no more than the lines |
| Line.LineLeftoverShape | src/Strategy/LineChunkingStrategy.php:44-53 | fewer than linesPerChunk lines are left, and whole groups times linesPerChunk plus the leftover is the number of lines |
| Line.LineLeftoverShort | src/Strategy/LineChunkingStrategy.php:47 | the leftover is shorter than a group |
| Line.LineLeftoverAt | src/Strategy/LineChunkingStrategy.php:44-53 | the leftover lines are the last lines of the input |
| Line.LineGroupsCount | src/Strategy/LineChunkingStrategy.php:44-53 | whole groups times linesPerChunk plus the leftover is the number of lines |
| Line.BuildShape | src/Strategy/LineChunkingStrategy.php:63-86 | buildChunk yields the trimmed join of the pending lines exactly when it is not blank, with strategy, length and line_count, and then advances the position |
| Line.FeedGroups | src/Strategy/LineChunkingStrategy.php:44-53 | the loop emits the non-blank trimmed groups of linesPerChunk lines of pending + lines, and keeps the lines after the last whole group pending |
| Line.FeedGroupsFull | src/Strategy/LineChunkingStrategy.php:45-51 | the same when the next line fills a group |
| Line.FeedShape | src/Strategy/LineChunkingStrategy.php:44-53 | the loop's chunks are trimmed, non-empty, tagged with line metadata and numbered on from the position |
| Line.FeedAppend | src/Strategy/LineChunkingStrategy.php:44-53 | the loop run on two lists of lines in turn is the loop run on their concatenation |
| Line.PendingBound | src/Strategy/LineChunkingStrategy.php:38-60 | between calls fewer than linesPerChunk lines are pending and the buffer is the last piece; after the final call nothing is buffered or pending |
| Line.BufferIsIncompleteLine | src/Strategy/LineChunkingStrategy.php:36-42 | the held-back buffer has no newline, and with the complete lines it spells out the input |
| Line.StepShape | src/Strategy/LineChunkingStrategy.php:32-61 | every chunk of process is trimmed, non-empty, tagged, and numbered on from the old position, which advances by the count |
| Line.WholeStream | src/Strategy/LineChunkingStrategy.php:32-61 | a whole stream in one call after reset gives the non-blank trimmed groups of linesPerChunk lines, then the trimmed leftover lines if not blank |
| Line.SplitStream | src/Strategy/LineChunkingStrategy.php:34-42 | feeding the stream in two pieces yields the same chunks and leaves the same state as feeding it at once |
| Line.FinishPrefix | src/Strategy/LineChunkingStrategy.php:55-60 | chunks emitted before the loop's own come before those of the final build |
| Line.SplitPieces | src/Strategy/LineChunkingStrategy.php:36-42 | the complete lines of x + b are the complete lines of x, then those of x's last line + b |
| Line.SplitJoinOfLines | src/Strategy/LineChunkingStrategy.php:79 | lines without a newline explode back out of their join |
| Line.FourLinesByTwo | tests/Unit/Strategy/LineChunkingStrategyTest.php:12-22 | four lines in chunks of two are the first two and the last two joined with a newline |
| Line.TwoLineGroupsKept | src/Strategy/LineChunkingStrategy.php:65-71 | two groups of plain lines are trimmed already and both survive |
| Line.FourLinesGroups | src/Strategy/LineChunkingStrategy.php:44-53 | four lines make two groups of two with no leftover |
| Line.SplitBlank | src/Strategy/LineChunkingStrategy.php:36 | every piece of a blank string is blank |
| Line.JoinBlank | src/Strategy/LineChunkingStrategy.php:65 | blank lines joined with newlines are blank |
| Line.BlankGroupsSkipped | src/Strategy/LineChunkingStrategy.php:66-71 | groups of blank lines are all skipped |
| Line.BlankInputYieldsNothing | src/Strategy/LineChunkingStrategy.php:66-71 | blank input yields no chunks |
| Line.BlankLeftoverSkipped | src/Strategy/LineChunkingStrategy.php:55-60 | a leftover of blank lines is skipped too |
| Line.FourNewlinesYieldNothing | tests/Unit/Strategy/LineChunkingStrategyTest.php:59-67 | "\n\n\n\n" yields no chunks for any line count |
| Line.LineStrategy.constructor | src/Strategy/LineChunkingStrategy.php:12-23 | the new object holds the count, an empty buffer, position 0 and no pending lines |
| Line.LineStrategy.Create | src/Strategy/LineChunkingStrategy.php:17-23 | construction fails exactly for a count below 1, with the check's error |
| Line.LineStrategy.Reset | src/Strategy/LineChunkingStrategy.php:25-30 | reset empties the buffer and the pending lines and sets the position to 0 |
| Line.LineStrategy.Process | src/Strategy/LineChunkingStrategy.php:32-61 | process yields the chunks of Step and leaves the object in Step's state |
| Line.FeedLoop | src/Strategy/LineChunkingStrategy.php:44-53 | the foreach loop on local copies of the fields computes Feed |
| Regex.CheckPattern | src/Strategy/RegexChunkingStrategy.php:19-21 | the check fails exactly for an invalid pattern, with the InvalidArgument message naming the pattern |
| Regex.Numbered | src/Strategy/RegexChunkingStrategy.php:108-123 | one chunk per text, in order |
| Regex.NumberedSnoc | src/Strategy/RegexChunkingStrategy.php:108-123 | one more text adds one chunk, numbered after the others |
| Regex.NumberedShape | src/Strategy/RegexChunkingStrategy.php:108-123 | the chunks carry the texts in order, with consecutive positions and the strategy, length and pattern metadata |
| Regex.StepShape | src/Strategy/RegexChunkingStrategy.php:30-123 | every chunk of a call is non-empty and trimmed, positions continue from the old position and the new position counts the chunks |
| Regex.StepBuffer | src/Strategy/RegexChunkingStrategy.php:38-49 | a failed split yields nothing and keeps the grown buffer; otherwise the buffer becomes the last part, or '' at the end or when there are no parts |
| Regex.NoDelimiterTexts | src/Strategy/RegexChunkingStrategy.php:61-71 | without delimiters the chunk texts are the trimmed non-blank parts, the last one held back before the end |
| Regex.SuffixPiecesConcat | src/Strategy/RegexChunkingStrategy.php:79-84 | Suffix mode loses no character: the pieces join back to the parts |
| Regex.SuffixPiecesAt | src/Strategy/RegexChunkingStrategy.php:74-105 | piece k is text 2k followed by the delimiter after it when there is one; there are half as many pieces as parts, rounded up |
| Regex.ConcatThree | src/Strategy/RegexChunkingStrategy.php:91-92 | writing a delimiter into the next text does not change what the parts spell |
| Regex.PrefixPiecesConcat | src/Strategy/RegexChunkingStrategy.php:85-101 | at the end of the stream Prefix mode loses no character |
| Regex.PrefixDropsTrailingDelimiter | src/Strategy/RegexChunkingStrategy.php:93-100 | before the end, an even number of parts loses exactly its last delimiter |
| Regex.PrefixLosesDelimiterBeforeBuffer | src/Strategy/RegexChunkingStrategy.php:44-49 | before the end, the pieces, the delimiter in front of the held-back fragment and the new buffer together spell the grown buffer: that delimiter is emitted by neither call |
| Regex.LastPartsSpelled | src/Strategy/RegexChunkingStrategy.php:44-49 | the same spelling, stated on the parts alone |
| Regex.TrimmedPartsAtEnd | tests/Unit/Strategy/RegexChunkingStrategyTest.php:13-24 | at the end of the stream, parts that are already trimmed and non-empty each become one chunk, in order |
| Regex.ThreeParts | tests/Unit/Strategy/RegexChunkingStrategyTest.php:13-24 | 'part1\|part2\|part3' split by /\|/ gives three chunks |
| Regex.RegexStrategy.constructor | src/Strategy/RegexChunkingStrategy.php:15-22 | the new object holds the pattern and mode, an empty buffer and position 0 |
| Regex.RegexStrategy.Create | src/Strategy/RegexChunkingStrategy.php:15-22 | construction fails exactly for an invalid pattern, with the check's error |
| Regex.RegexStrategy.Reset | src/Strategy/RegexChunkingStrategy.php:24-28 | reset empties the buffer and sets the position to 0 |
| Regex.RegexStrategy.Process | src/Strategy/RegexChunkingStrategy.php:30-52 | process yields the chunks of Step and leaves the object in Step's state |
| Regex.YieldParts | src/Strategy/RegexChunkingStrategy.php:59-106 | yieldParts emits the numbered non-blank pieces of the mode and returns the next position |
| Regex.EachPart | src/Strategy/RegexChunkingStrategy.php:61-71 | the foreach loop emits the numbered non-blank parts |
| Regex.PairedParts | src/Strategy/RegexChunkingStrategy.php:74-105 | the while loop over text/delimiter pairs emits the numbered non-blank pieces of the mode |
| Regex.PairStep | src/Strategy/RegexChunkingStrategy.php:76-104 | one pass consumes one pair and keeps the loop's account of pieces emitted and pieces left |
| Regex.SuffixPair | src/Strategy/RegexChunkingStrategy.php:79-84 | the Suffix branch emits the text with its delimiter |
| Regex.PrefixPair | src/Strategy/RegexChunkingStrategy.php:85-101 | the Prefix branch emits the text, writes the delimiter into the next text, and emits a last delimiter only at the end |
| Regex.EmitOne | src/Strategy/RegexChunkingStrategy.php:62-68 | one piece adds its trimmed chunk unless it is blank |
| Regex.SuffixStep | src/Strategy/RegexChunkingStrategy.php:79-84 | the Suffix pieces from i on are the pair at i, then the pieces from i + 2 |
| Regex.PrefixStep | src/Strategy/RegexChunkingStrategy.php:85-101 | the Prefix pieces from i on, by how many parts are left |
| Regex.RestAfterWrite | src/Strategy/RegexChunkingStrategy.php:91-92 | after the write, the parts from i + 2 on are those PrefixPieces recurses on |
| Dialogue.MarkAtEnd | src/Strategy/DialogueChunkingStrategy.php:163-165 | on a trimmed line, the pattern /[.!?]"?\s*$/ matches exactly when the line ends with a mark, or with a mark and a quote |
| Dialogue.GoodBreakPointSpec | src/Strategy/DialogueChunkingStrategy.php:155-172 | a line is a good break point iff its trim is non-empty and either matches the pattern or is over 100 characters |
| Dialogue.FilteredSnoc | src/Strategy/DialogueChunkingStrategy.php:125 | array_filter keeps a line exactly when it is truthy |
| Dialogue.NoAdjacentEmptyCons | src/Strategy/DialogueChunkingStrategy.php:140-150 | a marker in front of a list that starts with a line keeps the no-adjacent-markers shape |
| Dialogue.CollapseNoDoubleEmpty | src/Strategy/DialogueChunkingStrategy.php:140-150 | joinLines' loop leaves no two '' markers in a row |
| Dialogue.CollapseKeepsLines | src/Strategy/DialogueChunkingStrategy.php:140-150 | joinLines' loop drops only '' markers: every other line is kept, in order |
| Dialogue.NonEmptyLinesCons | src/Strategy/DialogueChunkingStrategy.php:140-150 | the non-empty lines of a list with one more line in front |
| Dialogue.Created | src/Strategy/DialogueChunkingStrategy.php:115-132 | one chunk per group of lines |
| Dialogue.CreatedSnoc | src/Strategy/DialogueChunkingStrategy.php:115-132 | one more group adds its chunk at the next position |
| Dialogue.CreatedAppend | src/Strategy/DialogueChunkingStrategy.php:115-132 | the chunks of two runs of groups, the second numbered after the first |
| Dialogue.GroupsCons | src/Strategy/DialogueChunkingStrategy.php:85-105 | the loop of emitChunk is its first line taken, then the rest |
| Dialogue.TakeKeeps | src/Strategy/DialogueChunkingStrategy.php:86-104 | one line either closes a non-empty chunk and starts afresh or joins the open lines; only a '' marker at a cut is lost |
| Dialogue.NonEmptyLinesAppend | src/Strategy/DialogueChunkingStrategy.php:85-105 | the non-empty lines of two lists end to end |
| Dialogue.FlattenAppend3 | src/Strategy/DialogueChunkingStrategy.php:85-105 | regrouping the closed groups and the open lines |
| Dialogue.GroupsKeepLines | src/Strategy/DialogueChunkingStrategy.php:85-105 | the loop of emitChunk keeps every line but the '' markers it cuts at, in order |
| Dialogue.GroupsKeepStep | src/Strategy/DialogueChunkingStrategy.php:85-105 | one step of that account |
| Dialogue.HeadAssoc | src/Strategy/DialogueChunkingStrategy.php:85-105 | the open lines plus the first line, then the rest |
| Dialogue.GroupsNonEmpty | src/Strategy/DialogueChunkingStrategy.php:87-103 | every chunk the loop closes has at least one line |
| Dialogue.EmitKeepsLines | src/Strategy/DialogueChunkingStrategy.php:76-112 | emitChunk puts every pending line other than '' into exactly one chunk, in order, and every chunk has a line |
| Dialogue.EmitShape | src/Strategy/DialogueChunkingStrategy.php:115-132 | the chunks of emitChunk have consecutive positions and the strategy and length metadata |
| Dialogue.PendingSizeMarker | src/Strategy/DialogueChunkingStrategy.php:48-56 | a '' marker does not change the pending size |
| Dialogue.ShapeSnoc | src/Strategy/DialogueChunkingStrategy.php:44-54 | adding a marker behind a line, or a trimmed non-empty line, keeps the pending shape |
| Dialogue.FeedUnfold | src/Strategy/DialogueChunkingStrategy.php:44-61 | the loop of process is its first iteration, then the rest |
| Dialogue.FeedUnfoldEmit | src/Strategy/DialogueChunkingStrategy.php:54-60 | a line that brings the size to the target emits the pending lines and the loop goes on with nothing pending |
| Dialogue.FeedUnfoldHold | src/Strategy/DialogueChunkingStrategy.php:45-60 | any other line is held, as a marker or a trimmed line |
| Dialogue.PendingAfterKeeps | src/Strategy/DialogueChunkingStrategy.php:44-61 | one iteration keeps the pending lines in shape and below the target |
| Dialogue.FeedKeeps | src/Strategy/DialogueChunkingStrategy.php:44-61 | the whole loop does too |
| Dialogue.StepKeeps | src/Strategy/DialogueChunkingStrategy.php:30-73 | between calls the pending lines start with a line, hold markers or trimmed lines and stay below the target; after the last call nothing is buffered or pending |
| Dialogue.InitialBetween | src/Strategy/DialogueChunkingStrategy.php:12-28 | the fresh state meets that invariant |
| Dialogue.FeedPositions | src/Strategy/DialogueChunkingStrategy.php:44-61 | the chunks of the loop are numbered on from the position, and the position counts them |
| Dialogue.StepPositions | src/Strategy/DialogueChunkingStrategy.php:30-73 | positions continue from the old position, one per chunk |
| Dialogue.BufferIsIncompleteLine | src/Strategy/DialogueChunkingStrategy.php:34-42 | before the end the buffer is the last line, holding no newline, and the lines fed plus the buffer spell the collapsed input |
| Dialogue.NoTripleNewlineBeforeSplit | src/Strategy/DialogueChunkingStrategy.php:34 | the lines hold no run of three newlines |
| Dialogue.TrailingMarkerKept | src/Strategy/DialogueChunkingStrategy.php:86-93 | a short line then a blank line at the end gives one chunk ending in a newline: chunk texts are not always trimmed |
| Dialogue.EmptyChunkAfterCut | src/Strategy/DialogueChunkingStrategy.php:86-93 | a line of the minimum size then two blank lines gives a second chunk whose text is empty |
| Dialogue.DialogueStrategy.constructor | src/Strategy/DialogueChunkingStrategy.php:17-21 | the new object holds both sizes, unchecked, an empty buffer, position 0 and nothing pending |
| Dialogue.DialogueStrategy.Reset | src/Strategy/DialogueChunkingStrategy.php:23-28 | reset empties the buffer and the pending lines and sets the position to 0 |
| Dialogue.DialogueStrategy.Process | src/Strategy/DialogueChunkingStrategy.php:30-73 | process yields the chunks of Step and leaves the object in Step's state |
| Dialogue.FeedLines | src/Strategy/DialogueChunkingStrategy.php:44-61 | the foreach loop of process computes Feed |
| Dialogue.FeedLine | src/Strategy/DialogueChunkingStrategy.php:45-60 | one iteration adds a marker or a line and emits once the pending size reaches the target |
| Dialogue.EmitChunk | src/Strategy/DialogueChunkingStrategy.php:76-112 | emitChunk yields the chunks of the groups and returns the next position |
| Dialogue.GroupLoop | src/Strategy/DialogueChunkingStrategy.php:85-105 | the foreach loop of emitChunk yields the chunks of the closed groups and leaves the open lines |
| Dialogue.GroupsAt | src/Strategy/DialogueChunkingStrategy.php:85-105 | the loop from line i is line i taken, then the loop from line i + 1 |
| Dialogue.TakeLine | src/Strategy/DialogueChunkingStrategy.php:86-104 | one iteration closes a chunk at a marker once the minimum is reached, or after a good break point once the target is reached |
| Dialogue.CreateChunk | src/Strategy/DialogueChunkingStrategy.php:115-132 | createChunk joins the lines and records strategy, length and the count of truthy lines |
| Dialogue.JoinLinesLoop | src/Strategy/DialogueChunkingStrategy.php:135-153 | joinLines keeps one '' marker per run and joins with newlines |
| Markdown.CheckLevels | src/Strategy/MarkdownChunkingStrategy.php:19-27 | the checks fail exactly unless 1 <= min <= max <= 6, and report the minimum's range first, then the maximum's |
| Markdown.ToProcessSpec | src/Strategy/MarkdownChunkingStrategy.php:38-51 | before the end nothing is processed iff there is no newline; otherwise the text up to and including the last newline is processed and the rest, holding no newline, is kept; at the end everything is processed |
| Markdown.NoNewlineKeepsAll | src/Strategy/MarkdownChunkingStrategy.php:40-45 | without a newline, before the end, nothing is emitted and the data is kept in the buffer |
| Markdown.StepShape | src/Strategy/MarkdownChunkingStrategy.php:36-112 | the kept buffer holds no newline and is empty at the end; positions continue from the old position, one per chunk |
| Markdown.SectionsConsecutive | src/Strategy/MarkdownChunkingStrategy.php:85-111 | the section chunks are numbered one after the other |
| Markdown.PartsChunksConsecutive | src/Strategy/MarkdownChunkingStrategy.php:64-111 | positions run on from the text chunk to the section chunks |
| Markdown.HeadConsecutive | src/Strategy/MarkdownChunkingStrategy.php:67-83 | the text chunk, if any, takes the current position |
| Markdown.SectionChunks | src/Strategy/MarkdownChunkingStrategy.php:53-111 | the reference result: one chunk per heading section |
| Markdown.WellFormedTail | src/Strategy/MarkdownChunkingStrategy.php:53 | every later section of a well-formed split is well formed too |
| Markdown.SectionsOfLayout | src/Strategy/MarkdownChunkingStrategy.php:85-111 | the while loop turns the parts of well-formed sections into exactly one chunk per section, in order |
| Markdown.SectionChunksCons | src/Strategy/MarkdownChunkingStrategy.php:85-111 | the chunks of the first section, then those of the rest |
| Markdown.SectionsUnfold | src/Strategy/MarkdownChunkingStrategy.php:85-111 | one round of the loop takes hashes, heading and content, the content '' when it is missing |
| Markdown.HashesAreHashRun | src/Strategy/MarkdownChunkingStrategy.php:67 | one to six '#' look like hashes to the first-part test |
| Markdown.LayoutChunks | src/Strategy/MarkdownChunkingStrategy.php:64-111 | for well-formed sections after a text that does not look like hashes, the text gives a chunk iff its trim is non-empty, then each section gives one chunk |
| Markdown.LayoutWithoutText | src/Strategy/MarkdownChunkingStrategy.php:67 | with no text before the first heading the parts start with hashes and give no text chunk |
| Markdown.LayoutWithText | src/Strategy/MarkdownChunkingStrategy.php:67-83 | a text before the first heading is the first part, taken as text |
| Markdown.SectionChunksShape | src/Strategy/MarkdownChunkingStrategy.php:94-106 | a section's text is the heading line, then the trimmed content if any; heading_level is the number of hashes, within the range; heading_text is the trimmed heading |
| Markdown.PreChunkSpec | src/Strategy/MarkdownChunkingStrategy.php:67-83 | the text before the first heading is emitted iff its trim is non-empty, with null heading data |
| Markdown.TwoHeadingsTwoChunks | tests/Unit/Strategy/MarkdownChunkingStrategyTest.php:12-23 | two headings with nothing before them give two chunks |
| Markdown.PreambleSeparate | tests/Unit/Strategy/MarkdownChunkingStrategyTest.php:38-48 | text before the first heading is a chunk of its own, ahead of the section chunks |
| Markdown.HashLikeTextIsReadAsHashes | src/Strategy/MarkdownChunkingStrategy.php:67 | a first part that looks like hashes is read as hashes, whatever it was |
| Markdown.LoneHashLost | src/Strategy/MarkdownChunkingStrategy.php:67 | a text that is a lone '#' gives no chunk at all |
| Markdown.HashLineBeforeHeading | src/Strategy/MarkdownChunkingStrategy.php:67 | a '##' line before a heading becomes the hashes of a section whose heading text is the real heading's hashes, with heading_level 3 |
| Markdown.MarkdownStrategy.constructor | src/Strategy/MarkdownChunkingStrategy.php:15-28 | the new object holds the levels and the splitter, an empty buffer and position 0 |
| Markdown.MarkdownStrategy.Create | src/Strategy/MarkdownChunkingStrategy.php:15-28 | construction fails exactly unless 1 <= min <= max <= 6, with the check's error |
| Markdown.MarkdownStrategy.Reset | src/Strategy/MarkdownChunkingStrategy.php:30-34 | reset empties the buffer and sets the position to 0 |
| Markdown.MarkdownStrategy.Process | src/Strategy/MarkdownChunkingStrategy.php:36-112 | process yields the chunks of Step and leaves the object in Step's state |
| Markdown.StepState | src/Strategy/MarkdownChunkingStrategy.php:36-112 | process on a copy of the state computes Step |
| Markdown.StepCutState | src/Strategy/MarkdownChunkingStrategy.php:53-111 | the split and emission after the cut compute StepCut |
| Markdown.Cut | src/Strategy/MarkdownChunkingStrategy.php:38-51 | the cut computes ToProcess |
| Markdown.EmitParts | src/Strategy/MarkdownChunkingStrategy.php:64-111 | the emission computes PartsChunks and returns the next position |
| Markdown.SectionLoop | src/Strategy/MarkdownChunkingStrategy.php:85-111 | the while loop computes Sections from its start index |
| Filter.Create | src/PostProcessor/ChunkFilterPostProcessor.php:11-18 | construction fails exactly for a negative minimum length, with that message, and otherwise keeps both settings |
| Filter.ApplySpec | src/PostProcessor/ChunkFilterPostProcessor.php:20-35 | the output is the subsequence of exactly the chunks that pass both guards, in order and unchanged |
| Filter.ApplyKeeps | src/PostProcessor/ChunkFilterPostProcessor.php:23-31 | every chunk that comes out has a trimmed text at least minLength long, non-blank when removeEmpty is set |
| Filter.ApplyAllKept | src/PostProcessor/ChunkFilterPostProcessor.php:20-35 | chunks that all pass come through unchanged |
| Filter.Idempotent | src/PostProcessor/ChunkFilterPostProcessor.php:20-35 | filtering twice is filtering once |
| Filter.BlankChunksRemoved | tests/Unit/PostProcessor/ChunkFilterPostProcessorTest.php:33-42 | with minimum 0, '' and '   ' are dropped and 'Hello' stays |
| Merger.Create | src/PostProcessor/ChunkMergerPostProcessor.php:12-19 | construction fails exactly for a size below 1, with that message, and otherwise keeps both settings |
| Merger.GroupsFrom | src/PostProcessor/ChunkMergerPostProcessor.php:27-40 | the buffered groups are never empty |
| Merger.Process | src/PostProcessor/ChunkMergerPostProcessor.php:21-41 | the foreach loop with its buffer and running length yields one merged chunk per group |
| Merger.MergeAllSnoc | src/PostProcessor/ChunkMergerPostProcessor.php:31-35 | one more closed group adds its merged chunk |
| Merger.SumLenSnoc | src/PostProcessor/ChunkMergerPostProcessor.php:29 | the running length grows by the text length of each chunk |
| Merger.GroupsFromFlatten | src/PostProcessor/ChunkMergerPostProcessor.php:27-40 | the groups partition the buffer and the remaining chunks, in order |
| Merger.GroupsFromMinimal | src/PostProcessor/ChunkMergerPostProcessor.php:31-35 | each group closes at the first chunk that brings it to the minimum |
| Merger.GroupsFromReach | src/PostProcessor/ChunkMergerPostProcessor.php:31-35 | every group but the last reaches the minimum |
| Merger.GroupsSpec | src/PostProcessor/ChunkMergerPostProcessor.php:21-41 | from an empty buffer the groups partition the input, close at the first chunk that reaches the minimum, and all but the last reach it |
| Merger.ApplySpec | src/PostProcessor/ChunkMergerPostProcessor.php:44-57 | each output merges its group: texts joined by the separator, the first chunk's position, its metadata plus merged_count and length |
| Merger.JoinEmptySeparator | src/PostProcessor/ChunkMergerPostProcessor.php:47 | joining with '' is concatenation |
| Merger.MergedTextsConcat | src/PostProcessor/ChunkMergerPostProcessor.php:44-57 | with an empty separator the merged texts concatenate to the texts of the grouped chunks |
| Merger.Conserves | src/PostProcessor/ChunkMergerPostProcessor.php:21-57 | with an empty separator no character is lost, added or reordered |
| Merger.EmptyInput | src/PostProcessor/ChunkMergerPostProcessor.php:38-40 | no input, no output |
| Merger.EachChunkReachesMinimum | tests/Unit/PostProcessor/ChunkMergerPostProcessorTest.php:35-47 | with minimum 5, 'Hello' and 'World' are emitted separately |
| Dedup.DeduplicationPostProcessor.constructor | src/PostProcessor/DeduplicationPostProcessor.php:12-13 | a new processor holds the hash function and has seen nothing |
| Dedup.DeduplicationPostProcessor.Process | src/PostProcessor/DeduplicationPostProcessor.php:15-36 | seen is cleared first, so the output is Apply of the input alone; afterwards seen holds the hash of every input chunk |
| Dedup.ApplySnoc | src/PostProcessor/DeduplicationPostProcessor.php:19-35 | one more chunk passes, tagged, exactly when its hash has not been seen |
| Dedup.HashesSnoc | src/PostProcessor/DeduplicationPostProcessor.php:26 | one more chunk adds its hash to the seen set |
| Dedup.ApplySpec | src/PostProcessor/DeduplicationPostProcessor.php:15-36 | the output is the subsequence of first occurrences, each re-created with its hash: chunk i passes iff no earlier chunk has its hash |
| Dedup.ApplyPicks | src/PostProcessor/DeduplicationPostProcessor.php:19-35 | the output picks input chunks in increasing order and tags each |
| Dedup.KeptBound | src/PostProcessor/DeduplicationPostProcessor.php:19-35 | the kept indices are indices of the input |
| Dedup.KeptIffFirst | src/PostProcessor/DeduplicationPostProcessor.php:22-24 | a chunk is kept iff it is the first with its hash |
| Dedup.TagSpec | src/PostProcessor/DeduplicationPostProcessor.php:28-34 | the re-created chunk keeps text and position and adds content_hash, the other keys unchanged |
| Dedup.Tagged | src/PostProcessor/DeduplicationPostProcessor.php:31-33 | every output chunk carries the hash of its own text |
| Dedup.DistinctHashes | src/PostProcessor/DeduplicationPostProcessor.php:19-35 | no two output chunks share a hash, and the output has the same hashes as the input |
| Dedup.DistinctAllPass | src/PostProcessor/DeduplicationPostProcessor.php:19-35 | with pairwise distinct hashes every chunk passes, tagged |
| Dedup.Idempotent | src/PostProcessor/DeduplicationPostProcessor.php:15-36 | deduplicating the output again changes nothing |
| Dedup.TagTwice | src/PostProcessor/DeduplicationPostProcessor.php:31-33 | tagging again with the hash already carried changes nothing |
| Overlap.Create | src/PostProcessor/OverlappingChunkPostProcessor.php:12-18 | construction fails exactly for a negative overlap, with that message |
| Overlap.Tail | src/PostProcessor/OverlappingChunkPostProcessor.php:26 | the last k characters, or all of the text when it is shorter |
| Overlap.Process | src/PostProcessor/OverlappingChunkPostProcessor.php:20-41 | the foreach loop with its previousChunk carry computes Apply |
| Overlap.FromSpec | src/PostProcessor/OverlappingChunkPostProcessor.php:24-40 | one output per input; each is built from the output before it, which already carries its own overlap |
| Overlap.ApplySpec | src/PostProcessor/OverlappingChunkPostProcessor.php:20-41 | the first chunk is unchanged; every later one keeps its position and, for a positive overlap, is the previous output's tail followed by its own text, with overlap_size and has_overlap added |
| Overlap.ZeroIsIdentity | src/PostProcessor/OverlappingChunkPostProcessor.php:25 | overlap 0 passes every chunk through unchanged |
| Overlap.OverlapLength | src/PostProcessor/OverlappingChunkPostProcessor.php:26-29 | the prefix is min(overlap, previous length) characters, the end of the previous output, followed by the chunk's own text |
| Overlap.SecondStartsWithTail | tests/Unit/PostProcessor/OverlappingChunkPostProcessorTest.php:19-32 | 'Hello World' then 'Foo Bar' with overlap 5 gives 'WorldFoo Bar', tagged with the overlap |
| TokenLimit.Create | src/PostProcessor/TokenLimitPostProcessor.php:14-24 | construction fails exactly unless both numbers are positive, reporting maxTokens first, then charactersPerToken |
| TokenLimit.Estimate | src/PostProcessor/TokenLimitPostProcessor.php:75-78 | the estimate is the ceiling of length / charactersPerToken: the fewest tokens whose characters cover the text |
| TokenLimit.SplitChunk | src/PostProcessor/TokenLimitPostProcessor.php:49-73 | the while loop over offset and subPosition computes Split |
| TokenLimit.SlicesHead | src/PostProcessor/TokenLimitPostProcessor.php:56-57 | the first slice is the text or its first maxChars characters, then the slices of the rest |
| TokenLimit.DropHead | src/PostProcessor/TokenLimitPostProcessor.php:56-72 | the slices from subPosition on are its slice, then the slices after it |
| TokenLimit.DropDrop | src/PostProcessor/TokenLimitPostProcessor.php:70 | advancing the offset twice is advancing it by the sum |
| TokenLimit.Process | src/PostProcessor/TokenLimitPostProcessor.php:31-46 | the foreach loop computes Apply |
| TokenLimit.SlicesSpec | src/PostProcessor/TokenLimitPostProcessor.php:56-72 | the slices concatenate to the text; each is non-empty and at most maxChars long; all but the last are exactly maxChars |
| TokenLimit.SlicesConcat | src/PostProcessor/TokenLimitPostProcessor.php:56-72 | the slices concatenate to the text |
| TokenLimit.SlicesBounded | src/PostProcessor/TokenLimitPostProcessor.php:57 | each slice is non-empty and at most maxChars long |
| TokenLimit.SlicesFull | src/PostProcessor/TokenLimitPostProcessor.php:57 | every slice but the last is exactly maxChars long |
| TokenLimit.EstimateBound | src/PostProcessor/TokenLimitPostProcessor.php:52 | a text of at most maxTokens * charactersPerToken characters is estimated within maxTokens |
| TokenLimit.MulMono | src/PostProcessor/TokenLimitPostProcessor.php:52 | multiplying by a natural number keeps the order |
| TokenLimit.SplitSpec | src/PostProcessor/TokenLimitPostProcessor.php:49-73 | every slice keeps the original position and metadata, adds split_from_original and its sub_position, fits the limit, and the slices concatenate to the text |
| TokenLimit.PassThrough | src/PostProcessor/TokenLimitPostProcessor.php:36-41 | a chunk within the limit passes with its text and position, tagged with the estimate and the limit |
| TokenLimit.Conserves | src/PostProcessor/TokenLimitPostProcessor.php:31-46 | no character is lost or added: the output texts concatenate to the input texts |
| TokenLimit.ConcatTextsAppend | src/PostProcessor/TokenLimitPostProcessor.php:31-46 | the texts of two runs concatenate end to end |
| TokenLimit.OneConserves | src/PostProcessor/TokenLimitPostProcessor.php:33-45 | one chunk's outputs concatenate to its text |
| TokenLimit.WithinLimit | src/PostProcessor/TokenLimitPostProcessor.php:31-46 | every output chunk is estimated within maxTokens |
| TokenLimit.FiftyCharactersSplit | tests/Unit/PostProcessor/TokenLimitPostProcessorTest.php:30-41 | 50 characters at 5 tokens of 4 give slices of 20, 20 and 10, all marked as split |
| Normalization.TrimEach | src/PostProcessor/TextNormalizationPostProcessor.php:42 | one trimmed line per line, in order |
| Normalization.BlankRun | src/PostProcessor/TextNormalizationPostProcessor.php:50 | the leading run of spaces and tabs: every character in it is a space or a tab, and the one after it is not |
| Normalization.StripControlClean | src/PostProcessor/TextNormalizationPostProcessor.php:35-38 | after the strip no control character of the class is left |
| Normalization.StripControlAppend | src/PostProcessor/TextNormalizationPostProcessor.php:37 | the strip works character by character: stripping two texts end to end is stripping each |
| Normalization.StripControlKeeps | src/PostProcessor/TextNormalizationPostProcessor.php:37 | a text without control characters is left as it is |
| Normalization.KeptWhitespace | src/PostProcessor/TextNormalizationPostProcessor.php:36-37 | tab, newline and carriage return are not in the class |
| Normalization.SplitJoin | src/PostProcessor/TextNormalizationPostProcessor.php:41-43 | explode undoes implode for pieces free of the separator |
| Normalization.TrimSub | src/PostProcessor/TextNormalizationPostProcessor.php:42 | mb_trim adds no character |
| Normalization.TrimLinesSpec | src/PostProcessor/TextNormalizationPostProcessor.php:40-44 | with trimLines, the lines of the result are the input's lines, each trimmed |
| Normalization.TrimInfix | src/PostProcessor/TextNormalizationPostProcessor.php:53 | mb_trim returns a contiguous piece of its argument |
| Normalization.TrimKeeps | src/PostProcessor/TextNormalizationPostProcessor.php:53 | the final trim keeps no-triple-newline, no-blank-run and no-control |
| Normalization.CollapseBlanksNoRun | src/PostProcessor/TextNormalizationPostProcessor.php:50 | collapsing space/tab runs leaves no two spaces or tabs in a row |
| Normalization.NoTripleSuffix | src/PostProcessor/TextNormalizationPostProcessor.php:48 | a suffix of a text without three newlines in a row has none either |
| Normalization.CollapseBlanksKeepsNewlines | src/PostProcessor/TextNormalizationPostProcessor.php:48-50 | the space collapse does not create a run of three newlines |
| Normalization.CollapseBlanksTwoNewlines | src/PostProcessor/TextNormalizationPostProcessor.php:50 | two newlines at the front of the collapse were at the front of the text |
| Normalization.NoControlSlice | src/PostProcessor/TextNormalizationPostProcessor.php:37 | a slice of a control-free text is control free |
| Normalization.NoControlAppend | src/PostProcessor/TextNormalizationPostProcessor.php:37 | two control-free texts end to end are control free |
| Normalization.CollapseNewlinesNoControl | src/PostProcessor/TextNormalizationPostProcessor.php:48 | the newline collapse adds no control character |
| Normalization.CollapseBlanksNoControl | src/PostProcessor/TextNormalizationPostProcessor.php:50 | the space collapse adds no control character |
| Normalization.SplitNoControl | src/PostProcessor/TextNormalizationPostProcessor.php:41 | the pieces of a control-free text are control free |
| Normalization.JoinNoControl | src/PostProcessor/TextNormalizationPostProcessor.php:43 | control-free pieces joined by a control-free separator are control free |
| Normalization.TrimLinesNoControl | src/PostProcessor/TextNormalizationPostProcessor.php:40-44 | trimming each line adds no control character |
| Normalization.NormalizeSpec | src/PostProcessor/TextNormalizationPostProcessor.php:33-54 | the result is trimmed; with stripControlChars it holds no control character; with collapseWhitespace it has no run of three newlines and no run of two spaces or tabs |
| Normalization.ApplySpec | src/PostProcessor/TextNormalizationPostProcessor.php:19-31 | one chunk out per chunk in, with its position and metadata and a trimmed text |
| Normalization.CollapseNewlinesFree | src/PostProcessor/TextNormalizationPostProcessor.php:48 | a text without a newline is left alone by the newline collapse |
| Normalization.CollapseBlanksFree | src/PostProcessor/TextNormalizationPostProcessor.php:50 | a text without a space or tab is left alone by the space collapse |
| Normalization.ControlCharactersStripped | tests/Unit/PostProcessor/TextNormalizationPostProcessorTest.php:49-57 | 'Hello\x01\x02World' normalizes to 'HelloWorld' |
| Normalization.HelloWorldStripped | tests/Unit/PostProcessor/TextNormalizationPostProcessorTest.php:49-57 | the strip removes the two control characters |
| Normalization.StripBetween | src/PostProcessor/TextNormalizationPostProcessor.php:37 | two control characters between control-free texts disappear |
| Normalization.HelloWorldUnchanged | tests/Unit/PostProcessor/TextNormalizationPostProcessorTest.php:49-57 | 'HelloWorld' passes every later stage unchanged |
| Normalization.WordUnchanged | src/PostProcessor/TextNormalizationPostProcessor.php:40-53 | a text without whitespace passes every stage after the strip unchanged |
| Normalization.BlankLinesCollapsed | tests/Unit/PostProcessor/TextNormalizationPostProcessorTest.php:29-37 | 'Line 1' and 'Line 2' with three blank lines between them keep one blank line |
| Normalization.GapCollapsed | src/PostProcessor/TextNormalizationPostProcessor.php:33-54 | two trimmed lines three blank lines apart: only the newline collapse changes the text, keeping two newlines |
| Normalization.TrimmedAround | src/PostProcessor/TextNormalizationPostProcessor.php:53 | two trimmed, non-empty ends around anything make a trimmed text |
| Normalization.GapNoControl | src/PostProcessor/TextNormalizationPostProcessor.php:37 | that text holds no control character |
| Normalization.GapLines | src/PostProcessor/TextNormalizationPostProcessor.php:41 | its lines are the two lines with three empty lines between them |
| Normalization.GapTrimLines | src/PostProcessor/TextNormalizationPostProcessor.php:40-44 | trimming each of its lines changes nothing |
| Normalization.CollapseBlanksFixed | src/PostProcessor/TextNormalizationPostProcessor.php:50 | a text with no tab and no two blanks in a row is left alone by the space collapse |
| Normalization.LoneBlank | src/PostProcessor/TextNormalizationPostProcessor.php:50 | in such a text a leading blank is one space |
| Normalization.NoBlankRunTail | src/PostProcessor/TextNormalizationPostProcessor.php:50 | the rest of such a text is such a text |
| Normalization.CollapseNewlinesPieces | src/PostProcessor/TextNormalizationPostProcessor.php:48 | a run of newlines between newline-free texts is cut to two when it has three or more |
| Normalization.CollapseNewlinesCons | src/PostProcessor/TextNormalizationPostProcessor.php:48 | a character other than a newline is kept and the rest collapsed |
| Normalization.CollapseRunThen | src/PostProcessor/TextNormalizationPostProcessor.php:48 | a run of newlines in front of a newline-free text |
| Normalization.NewlineRunOf | src/PostProcessor/TextNormalizationPostProcessor.php:48 | the leading newline run of a text is as long as its newlines before the first other character |
| Enricher.StripTrailingSlashes | src/PostProcessor/MetadataEnricherPostProcessor.php:30 | the source without its trailing slashes: a prefix of it that does not end in '/' |
| Enricher.Process | src/PostProcessor/MetadataEnricherPostProcessor.php:11-33 | the two loops buffer the whole input, then tag each chunk: they compute Apply |
| Enricher.ApplySpec | src/PostProcessor/MetadataEnricherPostProcessor.php:19-32 | same count and order; text and position unchanged; chunk_index is the 0-based index, total_chunks the count, char_count the length, source the label; every other key keeps its value |
| Enricher.BasenameSpec | src/PostProcessor/MetadataEnricherPostProcessor.php:30 | a base name holds no '/' and is a suffix of the source without its trailing slashes |
| Enricher.PathBasename | tests/Unit/PostProcessor/MetadataEnricherPostProcessorTest.php:42-50 | '/path/to/file.txt' is labelled 'file.txt' |
| Enricher.BasenameAfterSlash | src/PostProcessor/MetadataEnricherPostProcessor.php:30 | when the last '/' is at k and the source does not end in '/', the base name is what follows k |

## Left out

- File I/O in `TextChunker` (`fopen`, `fread`, `feof`, `fclose` and the `try`/`finally` around the loop) is not modelled as I/O. The file is its contents, or `None` when `fopen` fails, and `TextChunking.Blocks` cuts the contents into reads of 8192 characters.
- `TextChunking.Blocks`: `feof` is taken to be true exactly after a read shorter than 8192 characters, so a file whose length is a multiple of 8192 ends with an empty final read. A `fread` that returns `false` is not modelled, because the model has no failing reads.
- Reads are 8192 characters, not 8192 bytes. A multi-byte character cut between two reads is not modelled, because strings are sequences of characters.
- `file_exists` and `is_readable` are `SetFile`'s two boolean parameters, because the model has no file system.
- Generators are not lazy in the model. Every stream is a finite sequence of chunks, and a consumer that stops early is not modelled. The model does not capture the order in which strategy steps and post-processors interleave. That order matters only when one object is in use twice at once: a strategy listed twice (see the `Recursive.SplitChunk` line below), a deduplicator added twice (its `seen` field is cleared by the second use), or a second `chunk()` call before the first result is consumed.
- Generator keys are not modelled. `yield from` re-yields the inner generator's keys, so `chunk()` can yield the same key twice, for example after a token limiter that splits a chunk. A consumer that keeps keys (`iterator_to_array` with keys preserved) would then overwrite chunks; the model keeps only the sequence of values.
- Sentence.SentenceStrategy.Process: the branch where `preg_split` returns `false` (the buffer keeps the new data and nothing is yielded) is not modelled. The fixed sentence pattern is written out as the total function `Sentence.Sentences`, and on a sequence of characters it has no failure case.
- Recursive.SplitChunk: the strategy list holds distinct, non-recursive strategy values. A nested recursive strategy, which the constructor accepts because it only checks the interface, is not modelled. The same object listed twice is not modelled either: in PHP the two entries share state, so resetting the later entry resets the one whose generator is still being consumed. The model treats every entry as an independent value, so it does not capture this aliasing.
- `RegexReplacePostProcessor` is not part of this model, because it only hands each chunk to `preg_replace` with the user's patterns.
- `preg_match` validation of the user's pattern and the `preg_split` calls of the regex and markdown strategies are parameters. The model states only the layout of the parts they return, with captured delimiters alternating with text, because PCRE matching is not modelled.
- `md5` in the deduplicator is a hash parameter, and the `seen` array is a set of hashes, because hashing is not modelled.
- `position_percentage` (a float `round`) and `word_count` (`str_word_count`) of the metadata enricher are not added, because they need floating point and the library's word rules.
- `TokenLimit.Estimate` computes `ceil(length / charactersPerToken)` on exact integers, so it does not model `ceil` of a float division. The two agree while lengths stay below 2^53.
- Unicode is not modelled: there is no normalisation and no `mb_*` case logic, and `mb_trim` and PCRE `\s` share one fixed whitespace set.
- Metadata arrays are maps, so key order and PHP's renumbering of integer keys are not modelled.
- `Enricher.Basename` strips trailing slashes and keeps what follows the last `/`. It does not treat backslashes or locale-dependent characters the way PHP does.
- The interfaces under `src/Contract/` are not classes. They are the sum types `Strategies.Strategy`, `TextChunking.AnyStrategy` and `PostProcessors.PostProcessor`.
- The benchmarks are not modelled, because they are harness code. The tests appear only as the concrete lemmas cited in the table above.
- Feeding data in pieces is proved to give the same chunks as feeding it at once only for the line strategy (`Line.SplitStream`). It is not stated for the paragraph, sentence, word-count, markdown and prefix-mode regex strategies, because their code breaks it. Those strategies drop a `"0"` remainder, re-split a held back piece, or cut at a boundary that more data would move; the quirk lemmas show this.
- Markdown.SectionChunksShape: `heading_level` within the configured minimum and maximum is proved only for splits laid out as the heading pattern captures them (`WellFormed`). A part that looks like hashes breaks this, as `Markdown.HashLineBeforeHeading` shows.
