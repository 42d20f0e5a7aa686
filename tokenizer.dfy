/** The Chinese locale tokenizer `lunr.zh.tokenizer` (src/lunr.zh.js).

    The collaborators it calls but does not define are parameters: the
    Unicode-aware `trim` and `toLowerCase` of JavaScript strings, and the
    word segmenter `nodejieba.cutForSearch(str, true)`. Everything else is
    sequence and string work over their results. */
module ZhTokenizer {
  import opened JsString

  /** What the tokenizer can be called with. `NoArgument`, `Null` and
      `Undefined` are the three ways of passing nothing; any other
      non-array value is represented by the string its `toString()` gives. */
  datatype Input =
    | NoArgument
    | Null
    | Undefined
    | Items(items: seq<string>)
    | Text(text: string)

  /** The metadata object of a lunr 2 token: `{}` or
      `{position: [start, length], index: ordinal}`. */
  datatype Metadata =
    | NoMetadata
    | Located(start: int, length: nat, index: nat)

  /** An element of the tokenizer's output: a bare string (lunr before 2)
      or a `lunr.Token` with its metadata (lunr 2). */
  datatype Token =
    | Bare(text: string)
    | Wrapped(text: string, metadata: Metadata)

  /** The external functions the tokenizer calls. */
  datatype Collaborators = Collaborators(
    trim: string -> string,
    toLowerCase: string -> string,
    cutForSearch: string -> seq<string>)

  /** The token texts of an output, in order. */
  function Texts(tokens: seq<Token>): (texts: seq<string>)
    ensures |texts| == |tokens|
    ensures forall i :: 0 <= i < |tokens| ==> texts[i] == tokens[i].text
  {
    seq(|tokens|, i requires 0 <= i < |tokens| => tokens[i].text)
  }

  /** The string the segmenter is given: trimmed, then lower-cased. */
  function Normalised(s: string, env: Collaborators): (str: string)
  {
    env.toLowerCase(env.trim(s))
  }

  /** The pieces the forEach loop accumulates: each segment split on `' '`,
      concatenated in segment order. */
  function Pieces(segments: seq<string>): (pieces: seq<string>)
  {
    if segments == [] then []
    else Split(segments[0], ' ') + Pieces(segments[1..])
  }

  lemma {:induction false} PiecesAppend(a: seq<string>, b: seq<string>)
    ensures Pieces(a + b) == Pieces(a) + Pieces(b)
  {
    if a == [] {
      assert a + b == b;
    } else {
      assert (a + b)[0] == a[0] && (a + b)[1..] == a[1..] + b;
      PiecesAppend(a[1..], b);
    }
  }

  /** No accumulated piece contains a space. */
  lemma {:induction false} PiecesHaveNoSpace(segments: seq<string>)
    ensures forall p :: p in Pieces(segments) ==> ' ' !in p
  {
    if segments != [] {
      PiecesHaveNoSpace(segments[1..]);
    }
  }

  /** Every accumulated piece is a substring of one of the segments. */
  lemma {:induction false} PiecesComeFromSegments(segments: seq<string>)
    ensures forall p :: p in Pieces(segments) ==>
      exists k :: 0 <= k < |segments| && IsSubstring(p, segments[k])
  {
    if segments != [] {
      PiecesComeFromSegments(segments[1..]);
      SplitPiecesAreSubstrings(segments[0], ' ');
      forall p | p in Pieces(segments)
        ensures exists k :: 0 <= k < |segments| && IsSubstring(p, segments[k])
      {
        if p in Split(segments[0], ' ') {
          assert IsSubstring(p, segments[0]);
        } else {
          assert p in Pieces(segments[1..]);
          var k :| 0 <= k < |segments[1..]| && IsSubstring(p, segments[1..][k]);
          assert IsSubstring(p, segments[k + 1]);
        }
      }
    }
  }

  /** `tokens.filter(token => !!token)`: drops the empty strings and keeps
      the rest in order. */
  function RemoveEmpty(pieces: seq<string>): (kept: seq<string>)
    ensures |kept| <= |pieces|
    ensures forall t :: t in kept <==> t in pieces && t != ""
    ensures multiset(kept) == multiset(pieces)["" := 0]
  {
    if pieces == [] then []
    else
      var rest := RemoveEmpty(pieces[1..]);
      assert multiset(pieces) == multiset{pieces[0]} + multiset(pieces[1..]) by {
        assert pieces == [pieces[0]] + pieces[1..];
      }
      if pieces[0] == "" then rest else [pieces[0]] + rest
  }

  lemma {:induction false} RemoveEmptyAppend(a: seq<string>, b: seq<string>)
    ensures RemoveEmpty(a + b) == RemoveEmpty(a) + RemoveEmpty(b)
  {
    if a == [] {
      assert a + b == b;
    } else {
      assert (a + b)[0] == a[0] && (a + b)[1..] == a[1..] + b;
      RemoveEmptyAppend(a[1..], b);
    }
  }

  /** Reference definition of the tokens of a segmentation: segment by
      segment, the non-empty space-separated words of each segment. */
  function SegmentTokens(segments: seq<string>): (words: seq<string>)
  {
    if segments == [] then []
    else RemoveEmpty(Split(segments[0], ' ')) + SegmentTokens(segments[1..])
  }

  /** Filtering after flattening is the same as filtering each segment's
      pieces and concatenating. */
  lemma {:induction false} FilteredPiecesAreSegmentTokens(segments: seq<string>)
    ensures RemoveEmpty(Pieces(segments)) == SegmentTokens(segments)
  {
    if segments != [] {
      RemoveEmptyAppend(Split(segments[0], ' '), Pieces(segments[1..]));
      FilteredPiecesAreSegmentTokens(segments[1..]);
    }
  }

  /** The lunr 2 token for the `index`-th word. Its position is
      `[str.indexOf(word), word.length]`, both counted, as in JavaScript, in
      UTF-16 code units. */
  function Locate(str: string, word: string, index: nat): (token: Token)
  {
    Wrapped(word, Located(IndexOf(Utf16(str), Utf16(word)), |Utf16(word)|, index))
  }

  /** `tokens.map((token, index) => new lunr.Token(token, metadata))`. */
  function Annotate(str: string, words: seq<string>): (tokens: seq<Token>)
    ensures |tokens| == |words|
  {
    seq(|words|, i requires 0 <= i < |words| => Locate(str, words[i], i))
  }

  /** The legacy output: the words themselves. */
  function BareTokens(words: seq<string>): (tokens: seq<Token>)
    ensures |tokens| == |words|
  {
    seq(|words|, i requires 0 <= i < |words| => Bare(words[i]))
  }

  /** One array element, lower-cased, in the form the lunr version expects. */
  function LowerItem(item: string, isLunr2: bool, env: Collaborators): (token: Token)
  {
    var lowered := env.toLowerCase(item);
    if isLunr2 then Wrapped(lowered, NoMetadata) else Bare(lowered)
  }

  /** The words a string input yields, before they are wrapped. */
  function TextWords(s: string, env: Collaborators): (words: seq<string>)
  {
    RemoveEmpty(Pieces(env.cutForSearch(Normalised(s, env))))
  }

  /** The tokenizer as a function of its input, the lunr version flag and
      its collaborators. */
  function Tokenized(input: Input, isLunr2: bool, env: Collaborators): (tokens: seq<Token>)
  {
    match input
    case NoArgument => []
    case Null => []
    case Undefined => []
    case Items(items) =>
      seq(|items|, i requires 0 <= i < |items| => LowerItem(items[i], isLunr2, env))
    case Text(s) =>
      var words := TextWords(s, env);
      if isLunr2 then Annotate(Normalised(s, env), words) else BareTokens(words)
  }

  /** `lunr.zh.tokenizer(obj)`: the string branch accumulates the split
      segments with a loop, as the source does, before filtering and
      wrapping. */
  method Tokenize(input: Input, isLunr2: bool, env: Collaborators) returns (tokens: seq<Token>)
    ensures tokens == Tokenized(input, isLunr2, env)
  {
    if input.NoArgument? || input.Null? || input.Undefined? {
      return [];
    }
    if input.Items? {
      var items := input.items;
      return seq(|items|, i requires 0 <= i < |items| => LowerItem(items[i], isLunr2, env));
    }
    var str := env.toLowerCase(env.trim(input.text));
    var segments := env.cutForSearch(str);
    var words: seq<string> := [];
    var k := 0;
    while k < |segments|
      invariant 0 <= k <= |segments|
      invariant words == Pieces(segments[..k])
    {
      assert segments[..k + 1] == segments[..k] + [segments[k]];
      PiecesAppend(segments[..k], [segments[k]]);
      words := words + Split(segments[k], ' ');
      k := k + 1;
    }
    assert segments[..k] == segments;
    words := RemoveEmpty(words);
    if !isLunr2 {
      return BareTokens(words);
    }
    tokens := Annotate(str, words);
  }

  // ---------------------------------------------------------------------
  // Properties of the tokenizer

  /** No argument, `null` and `undefined` all give an empty token list. */
  lemma AbsentInputGivesNoTokens(input: Input, isLunr2: bool, env: Collaborators)
    requires input.NoArgument? || input.Null? || input.Undefined?
    ensures Tokenized(input, isLunr2, env) == []
  {
  }

  /** An array is lower-cased element by element, in order, without
      segmentation or trimming; lunr 2 wraps each element in a token with
      empty metadata. */
  lemma ItemsAreLowerCasedInOrder(items: seq<string>, isLunr2: bool, env: Collaborators)
    ensures |Tokenized(Items(items), isLunr2, env)| == |items|
    ensures Texts(Tokenized(Items(items), isLunr2, env)) ==
            seq(|items|, i requires 0 <= i < |items| => env.toLowerCase(items[i]))
    ensures forall i :: 0 <= i < |items| ==>
      Tokenized(Items(items), isLunr2, env)[i] ==
        (if isLunr2 then Wrapped(env.toLowerCase(items[i]), NoMetadata)
         else Bare(env.toLowerCase(items[i])))
  {
  }

  /** Every token of a string input is non-empty and holds no space. */
  lemma TextTokensAreNonEmptyWords(s: string, isLunr2: bool, env: Collaborators)
    ensures forall t :: t in Texts(Tokenized(Text(s), isLunr2, env)) ==> t != "" && ' ' !in t
  {
    var words := TextWords(s, env);
    PiecesHaveNoSpace(env.cutForSearch(Normalised(s, env)));
    assert Texts(Tokenized(Text(s), isLunr2, env)) == words;
  }

  /** The tokens of a string input are, in segmenter order, the non-empty
      space-separated words of each segment; the lunr version changes only
      how they are wrapped. */
  lemma TextTokensFollowSegments(s: string, isLunr2: bool, env: Collaborators)
    ensures Texts(Tokenized(Text(s), isLunr2, env)) ==
            SegmentTokens(env.cutForSearch(Normalised(s, env)))
  {
    FilteredPiecesAreSegmentTokens(env.cutForSearch(Normalised(s, env)));
  }

  /** Every token of a string input is a piece of some segment the
      segmenter produced. */
  lemma TextTokensComeFromSegments(s: string, isLunr2: bool, env: Collaborators)
    ensures forall t :: t in Texts(Tokenized(Text(s), isLunr2, env)) ==>
      exists k :: 0 <= k < |env.cutForSearch(Normalised(s, env))| &&
                  IsSubstring(t, env.cutForSearch(Normalised(s, env))[k])
  {
    PiecesComeFromSegments(env.cutForSearch(Normalised(s, env)));
    assert Texts(Tokenized(Text(s), isLunr2, env)) == TextWords(s, env);
  }

  /** Before lunr 2 a string input gives bare strings, without metadata. */
  lemma LegacyTokensAreBare(s: string, env: Collaborators)
    ensures forall i :: 0 <= i < |Tokenized(Text(s), false, env)| ==>
      Tokenized(Text(s), false, env)[i].Bare?
  {
  }

  /** Under lunr 2, token `i` of a string input carries `index == i`, a
      position length equal to its own length, and the offset of the first
      occurrence of its text in the normalised string (-1 when it does not
      occur), lengths and offsets counted in UTF-16 code units. */
  lemma Lunr2Metadata(s: string, env: Collaborators, i: nat)
    requires i < |Tokenized(Text(s), true, env)|
    ensures |Tokenized(Text(s), true, env)| == |TextWords(s, env)|
    ensures Tokenized(Text(s), true, env)[i].Wrapped?
    ensures Tokenized(Text(s), true, env)[i].metadata.Located?
    ensures Tokenized(Text(s), true, env)[i].metadata.index == i
    ensures Tokenized(Text(s), true, env)[i].metadata.length ==
            |Utf16(Tokenized(Text(s), true, env)[i].text)|
    ensures var t := Tokenized(Text(s), true, env)[i];
            var start := t.metadata.start;
            var str := Utf16(Normalised(s, env));
            var word := Utf16(t.text);
            (start == -1 <==> !IsSubstring(word, str)) &&
            (start >= 0 ==> OccursAt(str, word, start) &&
                            forall j :: 0 <= j < start ==> !OccursAt(str, word, j))
  {
  }

  /** The offsets are searched from the start of the string each time, so
      equal tokens always get the same start, even when the text repeats. */
  lemma RepeatedTokensShareStart(s: string, env: Collaborators, i: nat, j: nat)
    requires i < j < |Tokenized(Text(s), true, env)|
    requires Tokenized(Text(s), true, env)[i].text == Tokenized(Text(s), true, env)[j].text
    ensures Tokenized(Text(s), true, env)[i].metadata.start ==
            Tokenized(Text(s), true, env)[j].metadata.start
  {
  }

  /** When the segmenter only returns substrings of the string it is given,
      every lunr 2 token is found: its start is a real offset at which its
      text occurs. */
  lemma TokensOfSubstringSegmentsAreLocated(s: string, env: Collaborators)
    requires forall seg :: seg in env.cutForSearch(Normalised(s, env)) ==>
      IsSubstring(seg, Normalised(s, env))
    ensures forall i :: 0 <= i < |Tokenized(Text(s), true, env)| ==>
      var t := Tokenized(Text(s), true, env)[i];
      t.metadata.Located? && t.metadata.start >= 0 &&
      OccursAt(Utf16(Normalised(s, env)), Utf16(t.text), t.metadata.start)
  {
    var str := Normalised(s, env);
    var segments := env.cutForSearch(str);
    var words := TextWords(s, env);
    PiecesComeFromSegments(segments);
    forall i | 0 <= i < |words|
      ensures IsSubstring(Utf16(words[i]), Utf16(str))
    {
      assert words[i] in Pieces(segments);
      var k :| 0 <= k < |segments| && IsSubstring(words[i], segments[k]);
      assert segments[k] in segments;
      SubstringTransitive(words[i], segments[k], str);
      SubstringInUnits(words[i], str);
    }
    assert Tokenized(Text(s), true, env) == Annotate(str, words);
  }

  /** The lunr version flag changes only the wrapping, never the texts. */
  lemma VersionDoesNotChangeTexts(input: Input, env: Collaborators)
    ensures Texts(Tokenized(input, true, env)) == Texts(Tokenized(input, false, env))
  {
  }

  /** Offsets and lengths count UTF-16 code units, as JavaScript does: with
      identity trim and lower-casing and a segmenter that returns `["a"]`,
      the text "\U{1F600}a" gives one token "a" at position [2, 1]. */
  lemma AstralTextShiftsPositions()
    ensures var env := Collaborators(s => s, s => s, s => ["a"]);
            Tokenized(Text("\U{1F600}a"), true, env) == [Wrapped("a", Located(2, 1, 0))]
  {
    var env := Collaborators(s => s, s => s, s => ["a"]);
    assert Normalised("\U{1F600}a", env) == "\U{1F600}a";
    var empty: string := [];
    assert "a"[0] == 'a' && "a"[1..] == empty;
    assert Split(empty, ' ') == [empty];
    assert Split("a", ' ') == [['a'] + empty] + [empty][1..];
    assert ['a'] + empty == "a";
    assert [empty][1..] == [];
    assert Split("a", ' ') == ["a"];
    assert Pieces(["a"]) == ["a"];
    assert TextWords("\U{1F600}a", env) == ["a"];
    AstralCharacterCountsTwice();
  }
}
