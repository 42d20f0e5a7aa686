# lunr.zh — a verified model of the Chinese locale for lunr

`src/lunr.zh.js` adds Chinese support to the lunr full-text search library.
It gives lunr a tokenizer that hands text to the nodejieba word segmenter.
It also gives lunr three pipeline functions: a trimmer, a stop-word filter
and an identity stemmer. An installer, `lunr.zh`, puts all of them into a
builder. This project models that file in Dafny and proves what it promises.

Modules:

- `JsString` (`js_string.dfy`): the JavaScript string built-ins the
  tokenizer relies on. `Split` is `s.split(c)` for a one-character
  separator. `IndexOf` is `s.indexOf(t)`, applied to `Utf16(s)`, the UTF-16
  code units JavaScript stores for a string. Each has a partner: `Join`
  undoes `Split`, `IndexOf` is specified by first occurrence, and `Utf16`
  is proved to keep substrings and to be the identity inside the Basic
  Multilingual Plane.
- `ZhTokenizer` (`tokenizer.dfy`): `lunr.zh.tokenizer`. There are three
  input cases: no argument, `null` or `undefined`; an array; and a string.
  The flag `isLunr2` picks between bare strings and `lunr.Token` values
  with metadata. `Tokenized` is the specification function. `Tokenize` is
  the method with the source's accumulate loop, proved equal to
  `Tokenized`. The lemmas state the source's promises about `Tokenized`.
- `ZhPipeline` (`pipeline.dfy`): loading the plugin, the installer, the
  stemmer and the stop-word list. Loading covers the two "not present"
  errors and capturing the version flag. The installer is a method on a
  `Builder` class. It changes the builder's pipeline, its `tokenizer` and
  `tokenizerFn` slots, and the global `lunr.tokenizer` slot. The pure
  function `AfterInstall` describes the resulting state, and the
  idempotence and ordering lemmas are stated about that function.

Parameters stand in for the external code. `Collaborators` holds `trim`,
`toLowerCase` and `cutForSearch`, which stand for JavaScript's Unicode
`trim()`/`toLowerCase()` and `nodejieba.cutForSearch(str, true)`. Every
property holds for every choice of these functions.

The position metadata keeps the source's behaviour. A Dafny `string` holds
Unicode characters, while JavaScript's `indexOf` and `length` count UTF-16
code units. So the model computes positions on `Utf16(str)`, the code units
JavaScript sees. A character outside the Basic Multilingual Plane counts
twice there, as it does in JavaScript (`AstralTextShiftsPositions`). Each
token's start is `str.indexOf(token)`, searched from the beginning of the
normalised string. Repeated tokens therefore all get the offset of the
first occurrence (`RepeatedTokensShareStart`). This is not corrected.
Downstream highlighting may depend on it.

## Model

| member | source | states |
|---|---|---|
| `JsString.Split` | src/lunr.zh.js:69 | `seg.split(' ')` yields at least one piece, and no piece contains the separator |
| `JsString.JoinSplit` | src/lunr.zh.js:69 | splitting loses nothing: joining the pieces with the separator gives back the segment |
| `JsString.SplitPiecesAreSubstrings` | src/lunr.zh.js:69 | every piece of a split segment is a substring of that segment |
| `JsString.IndexOf` | src/lunr.zh.js:80 | `str.indexOf(token)` is -1 exactly when the token does not occur; otherwise the token occurs there and at no earlier offset |
| `JsString.BmpUnitsAreCharacters` | src/lunr.zh.js:80-82 | for text inside the Basic Multilingual Plane, the UTF-16 code units that `indexOf` and `length` count are exactly the characters |
| `JsString.AstralCharacterCountsTwice` | src/lunr.zh.js:80-82 | a character outside the plane is two code units, so `"\u{1F600}a".indexOf("a")` is 2 |
| `JsString.SubstringInUnits` | src/lunr.zh.js:80 | a substring of a string is also a substring of it in UTF-16 code units |
| `ZhTokenizer.RemoveEmpty` | src/lunr.zh.js:71-73 | the `!!token` filter keeps every non-empty piece with its multiplicity and drops every empty one; `RemoveEmptyAppend` fixes the order |
| `ZhTokenizer.RemoveEmptyAppend` | src/lunr.zh.js:71-73 | filtering a concatenation is filtering each part and concatenating, so the kept pieces stay in their input order |
| `ZhTokenizer.PiecesHaveNoSpace` | src/lunr.zh.js:68-70 | no piece accumulated by the forEach loop contains a space |
| `ZhTokenizer.FilteredPiecesAreSegmentTokens` | src/lunr.zh.js:66-73 | filtering after the whole concatenation equals filtering each segment's pieces and concatenating in segment order |
| `ZhTokenizer.Tokenize` | src/lunr.zh.js:53-87 | the tokenizer with its accumulate loop returns exactly `Tokenized` for every input, version flag and collaborators |
| `ZhTokenizer.AbsentInputGivesNoTokens` | src/lunr.zh.js:54-55 | no argument, `null` and `undefined` give an empty token list |
| `ZhTokenizer.ItemsAreLowerCasedInOrder` | src/lunr.zh.js:57-62 | an array gives one token per element, in order; token i is the lower-cased element i, with no trimming or segmentation; under lunr 2 it is a token with empty metadata, otherwise a bare string |
| `ZhTokenizer.TextTokensAreNonEmptyWords` | src/lunr.zh.js:65-73 | every token of a string input is non-empty and contains no space |
| `ZhTokenizer.TextTokensFollowSegments` | src/lunr.zh.js:65-77 | the tokens of a string input are each segment's non-empty space-separated pieces, concatenated in segmenter order; the segmenter sees the trimmed, lower-cased string |
| `ZhTokenizer.TextTokensComeFromSegments` | src/lunr.zh.js:68-73 | every token of a string input is a substring of some segment the segmenter returned |
| `ZhTokenizer.LegacyTokensAreBare` | src/lunr.zh.js:75-77 | before lunr 2, a string input gives bare strings without metadata |
| `ZhTokenizer.Lunr2Metadata` | src/lunr.zh.js:79-86 | under lunr 2 the output has one token per filtered word. Token i has `index == i` and a position length equal to its own length. Its start is the first occurrence of its text in the normalised string, or -1 when it does not occur. Lengths and offsets count UTF-16 code units |
| `ZhTokenizer.RepeatedTokensShareStart` | src/lunr.zh.js:80 | two tokens with equal text always get the same start, the first occurrence's |
| `ZhTokenizer.TokensOfSubstringSegmentsAreLocated` | src/lunr.zh.js:68-86 | if the segmenter returns only substrings of its input, then every token's start is a real code-unit offset at which its text occurs |
| `ZhTokenizer.AstralTextShiftsPositions` | src/lunr.zh.js:79-86 | with identity normalisation and a segmenter returning `["a"]`, the text "\u{1F600}a" gives the single token "a" at position [2, 1] with index 0 |
| `ZhTokenizer.VersionDoesNotChangeTexts` | src/lunr.zh.js:57-86 | the lunr version changes only how tokens are wrapped, never their texts or order |
| `ZhPipeline.Load` | src/lunr.zh.js:17-28 | loading fails exactly when lunr is `undefined` or its stemmer support is absent, and checks lunr first; on success the version flag is true exactly when the version starts with `2` |
| `ZhPipeline.Builder.InstallZh` | src/lunr.zh.js:31-51 | afterwards the pipeline is exactly [trimmer, stop-word filter, stemmer]. Under lunr 2 only the builder's `tokenizer` is swapped. Otherwise `lunr.tokenizer` and `tokenizerFn` are swapped only where they were set. The new state is `AfterInstall` of the old one |
| `ZhPipeline.InstallResetsPipeline` | src/lunr.zh.js:32-37 | whatever the pipeline held before, it ends as trimmer, stop-word filter and stemmer, each exactly once, in that order |
| `ZhPipeline.InstallIdempotent` | src/lunr.zh.js:31-51 | installing twice gives the same host state as installing once |
| `ZhPipeline.InstallSwapsTokenizerByVersion` | src/lunr.zh.js:41-50 | lunr 2 sets the builder's tokenizer and leaves the legacy slots alone; before lunr 2 the lunr 2 field is untouched, and a legacy slot ends as the locale tokenizer exactly when it was set |
| `ZhPipeline.InstallTwice` | src/lunr.zh.js:31-37 | a builder that runs the installer twice ends in the state one run gives |
| `ZhPipeline.Stem` | src/lunr.zh.js:89-93 | the stemmer is the identity: every word is its own stem |
| `ZhPipeline.StopWordsAreSingleCharacters` | src/lunr.zh.js:100-101 | every word of the stop-word list is a single character |
| `ZhPipeline.FilterStopWord` | src/lunr.zh.js:100-102 | a token is dropped exactly when it is a listed stop word; any other token passes unchanged |
| `ZhPipeline.LongWordsPass` | src/lunr.zh.js:100-101 | no token of two or more characters is ever dropped as a stop word |
| `ZhPipeline.FilterExamples` | src/lunr.zh.js:100-101 | "的" is dropped and "搜索" passes through unchanged |

## Left out

- The UMD/AMD/CommonJS wrapper (src/lunr.zh.js:1-16). It only loads modules.
- The segmentation done by `nodejieba.cutForSearch`, and Unicode `trim`/`toLowerCase`. They are arbitrary function parameters, so the model makes no claim about their results. For example, it does not claim that tokens are lower-case. A segmenter may return text that is not in its input.
- Passing JavaScript `null` as the lunr namespace. `typeof null` is `"object"`, so the source gets past the first check and fails at the stemmer-support lookup with a `TypeError`. `Load` models only an `undefined` namespace, written as Dafny's `null`.
- Exceptions thrown by the segmenter. They propagate unchanged in the source and are not modelled.
- Non-string array elements and non-string, non-array inputs. An element without `toLowerCase` throws in the source. A non-array value is modelled by the string its `toString()` returns.
- The trimmer (src/lunr.zh.js:96-97). Its regular expressions are built by `lunr.trimmerSupport.generateTrimmer`, which is not part of this model. Only its place in the pipeline is modelled.
- FilterStopWord: models the filter that `lunr.generateStopWordFilter` builds, which is not part of this model, as "drop exactly the listed words". lunr's filter also drops falsy tokens, and that case is not modelled.
- `lunr.Pipeline.registerFunction` (src/lunr.zh.js:94, 98, 102). It is process-wide registry state and has no logic in this file.
- `Pipeline.Reset` and `Pipeline.Add` belong to lunr. They are modelled only as "empty the stack" and "append in argument order".
- Attaching `lunr.zh`, `lunr.zh.tokenizer` and the other locale members to the lunr namespace. Only their effect through the installer is modelled.
- The stop-word list literal. It is kept as the string of its single-character words, 121 entries with duplicates. Splitting the space-separated literal is not itself verified.
