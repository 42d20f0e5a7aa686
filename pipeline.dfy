/** The pipeline side of the Chinese locale (src/lunr.zh.js): loading the
    plugin into a lunr namespace, the installer `lunr.zh` that a builder
    runs, the identity stemmer and the stop-word list. */
module ZhPipeline {

  datatype Option<T> = None | Some(value: T)

  /** A function on a lunr pipeline. The trimmer, stop-word filter and
      stemmer are the locale's own; `OtherStage` stands for any stage a builder
      held before the locale was installed. */
  datatype Stage = Trimmer | StopWordFilter | Stemmer | OtherStage(name: string)

  /** The value of a tokenizer slot: `Missing` is the falsy value (the slot
      is not set), `Zh` is `lunr.zh.tokenizer`, `OtherTokenizer` any other function. */
  datatype TokenizerFn = Missing | Zh | OtherTokenizer(name: string)

  // ---------------------------------------------------------------------
  // Loading the plugin

  /** The two errors thrown when the plugin is loaded too early. */
  datatype LoadError = LunrNotPresent | StemmerSupportNotPresent

  /** What loading captures: whether the host is lunr 2. */
  datatype Plugin = Plugin(isLunr2: bool)

  /** The outcome of loading: the plugin, or the error thrown. */
  datatype Result = Loaded(plugin: Plugin) | Failed(error: LoadError)

  /** The lunr namespace object: its version string, whether the
      stemmer-support extension has been loaded into it, and the global
      tokenizer slot of lunr 0.6. */
  class Lunr {
    const version: string
    const hasStemmerSupport: bool
    var tokenizer: TokenizerFn

    constructor (version: string, hasStemmerSupport: bool, tokenizer: TokenizerFn)
      ensures this.version == version && this.hasStemmerSupport == hasStemmerSupport
      ensures this.tokenizer == tokenizer
    {
      this.version := version;
      this.hasStemmerSupport := hasStemmerSupport;
      this.tokenizer := tokenizer;
    }
  }

  /** `lunr.version[0] == "2"`: the first character of the version is `2`
      (an empty version has no first character and is not lunr 2). */
  predicate IsLunr2Version(version: string)
  {
    |version| > 0 && version[0] == '2'
  }

  /** Applying the plugin factory to `lunr`, where Dafny's `null` stands for
      JavaScript's `undefined` (a JavaScript `null` passes the `typeof`
      check and is not modelled): it fails before touching anything when
      lunr or its stemmer support is missing, checking lunr first; otherwise
      it captures the version flag. */
  function Load(lunr: Lunr?): (r: Result)
    ensures r.Failed? <==> lunr == null || !lunr.hasStemmerSupport
    ensures lunr == null ==> r == Failed(LunrNotPresent)
    ensures lunr != null && !lunr.hasStemmerSupport ==> r == Failed(StemmerSupportNotPresent)
    ensures r.Loaded? ==> lunr != null && (r.plugin.isLunr2 <==> IsLunr2Version(lunr.version))
  {
    if lunr == null then Failed(LunrNotPresent)
    else if !lunr.hasStemmerSupport then Failed(StemmerSupportNotPresent)
    else Loaded(Plugin(IsLunr2Version(lunr.version)))
  }

  // ---------------------------------------------------------------------
  // The installer

  /** A lunr pipeline: the ordered stack of its functions. */
  class Pipeline {
    var stack: seq<Stage>

    constructor (stack: seq<Stage>)
      ensures this.stack == stack
    {
      this.stack := stack;
    }

    /** `pipeline.reset()`: empties the stack. */
    method Reset()
      modifies this
      ensures stack == []
    {
      stack := [];
    }

    /** `pipeline.add(fn...)`: appends the functions in argument order. */
    method Add(fns: seq<Stage>)
      modifies this
      ensures stack == old(stack) + fns
    {
      stack := stack + fns;
    }
  }

  /** The builder the locale is used on (`this` inside `lunr.zh`): its
      pipeline, the lunr 2 `tokenizer` field and the lunr 0.7-1.x
      `tokenizerFn` field. */
  class Builder {
    const pipeline: Pipeline
    var tokenizer: TokenizerFn
    var tokenizerFn: TokenizerFn

    constructor (pipeline: Pipeline, tokenizer: TokenizerFn, tokenizerFn: TokenizerFn)
      ensures this.pipeline == pipeline
      ensures this.tokenizer == tokenizer && this.tokenizerFn == tokenizerFn
    {
      this.pipeline := pipeline;
      this.tokenizer := tokenizer;
      this.tokenizerFn := tokenizerFn;
    }

    /** `lunr.zh` run with this builder as `this`: resets the pipeline,
        adds trimmer, stop-word filter and stemmer in that order, then
        swaps in the locale tokenizer where the host version keeps it. */
    method InstallZh(plugin: Plugin, lunr: Lunr)
      modifies this, pipeline, lunr
      ensures pipeline.stack == [Trimmer, StopWordFilter, Stemmer]
      ensures plugin.isLunr2 ==>
        tokenizer == Zh && tokenizerFn == old(tokenizerFn) && lunr.tokenizer == old(lunr.tokenizer)
      ensures !plugin.isLunr2 ==>
        tokenizer == old(tokenizer) &&
        lunr.tokenizer == (if old(lunr.tokenizer) == Missing then Missing else Zh) &&
        tokenizerFn == (if old(tokenizerFn) == Missing then Missing else Zh)
      ensures State(lunr) == AfterInstall(old(State(lunr)), plugin)
    {
      pipeline.Reset();
      pipeline.Add([Trimmer, StopWordFilter, Stemmer]);
      if plugin.isLunr2 {
        tokenizer := Zh;
      } else {
        if lunr.tokenizer != Missing {
          lunr.tokenizer := Zh;
        }
        if tokenizerFn != Missing {
          tokenizerFn := Zh;
        }
      }
    }

    /** The part of the host the installer can change. */
    function State(lunr: Lunr): HostState
      reads this, pipeline, lunr
    {
      HostState(pipeline.stack, tokenizer, tokenizerFn, lunr.tokenizer)
    }
  }

  /** The builder's pipeline stack and tokenizer slots, and the global
      tokenizer slot. */
  datatype HostState = HostState(
    stack: seq<Stage>,
    tokenizer: TokenizerFn,
    tokenizerFn: TokenizerFn,
    globalTokenizer: TokenizerFn)

  /** A slot is replaced by the locale tokenizer only when it is set. */
  function Swap(slot: TokenizerFn): (swapped: TokenizerFn)
  {
    if slot == Missing then Missing else Zh
  }

  /** The host state after installing the locale into state `s`. */
  function AfterInstall(s: HostState, plugin: Plugin): (after: HostState)
  {
    if plugin.isLunr2 then
      HostState([Trimmer, StopWordFilter, Stemmer], Zh, s.tokenizerFn, s.globalTokenizer)
    else
      HostState([Trimmer, StopWordFilter, Stemmer], s.tokenizer, Swap(s.tokenizerFn), Swap(s.globalTokenizer))
  }

  /** Whatever the pipeline held before, installing leaves exactly one
      trimmer, one stop-word filter and one stemmer, in that order. */
  lemma InstallResetsPipeline(s: HostState, plugin: Plugin)
    ensures AfterInstall(s, plugin).stack == [Trimmer, StopWordFilter, Stemmer]
    ensures forall st :: st in AfterInstall(s, plugin).stack ==>
      multiset(AfterInstall(s, plugin).stack)[st] == 1
  {
  }

  /** Installing twice gives the same state as installing once. */
  lemma InstallIdempotent(s: HostState, plugin: Plugin)
    ensures AfterInstall(AfterInstall(s, plugin), plugin) == AfterInstall(s, plugin)
  {
  }

  /** The lunr 2 installer sets the builder's tokenizer to the locale
      tokenizer and touches neither legacy slot; the legacy installer never
      touches the lunr 2 field and never fills an unset slot. */
  lemma InstallSwapsTokenizerByVersion(s: HostState, plugin: Plugin)
    ensures plugin.isLunr2 ==> AfterInstall(s, plugin).tokenizer == Zh
    ensures plugin.isLunr2 ==> AfterInstall(s, plugin).tokenizerFn == s.tokenizerFn
    ensures plugin.isLunr2 ==> AfterInstall(s, plugin).globalTokenizer == s.globalTokenizer
    ensures !plugin.isLunr2 ==> AfterInstall(s, plugin).tokenizer == s.tokenizer
    ensures !plugin.isLunr2 ==>
      (AfterInstall(s, plugin).tokenizerFn == Zh <==> s.tokenizerFn != Missing)
    ensures !plugin.isLunr2 ==>
      (AfterInstall(s, plugin).globalTokenizer == Zh <==> s.globalTokenizer != Missing)
  {
  }

  /** A builder that uses the locale twice ends as if it had used it once. */
  method InstallTwice(b: Builder, plugin: Plugin, lunr: Lunr)
    modifies b, b.pipeline, lunr
    ensures b.State(lunr) == AfterInstall(old(b.State(lunr)), plugin)
  {
    ghost var s := b.State(lunr);
    b.InstallZh(plugin, lunr);
    b.InstallZh(plugin, lunr);
    InstallIdempotent(s, plugin);
  }

  // ---------------------------------------------------------------------
  // Stemmer and stop words

  /** `lunr.zh.stemmer`: Chinese has no stemming, so every word is its own
      stem. */
  function Stem<T>(word: T): (stemmed: T)
    ensures stemmed == word
  {
    word
  }

  /** The literal stop-word list. Its entries are single characters
      separated by single spaces, so splitting it on `' '` gives one word
      per character of this string, in order (some occur twice). */
  const StopWordCharacters: string :=
    "的一不在人有是為以于上他而后之來及了因下" +
    "可到由這與也此但開關其已無小我們起最再今" +
    "去好只又或很亦某把那你乃它吧被比别趁當從" +
    "到得打凡而該各給跟和何這即幾既看据距靠啦" +
    "了另麼每嘛拿哪那您且却讓仍啥如若使誰雖随" +
    "同所她哇嗡往哪些向沿用于咱則怎曾至致着諸" +
    "自"

  /** The words the stop-word filter drops. */
  const StopWords: set<string> := set c | c in StopWordCharacters :: [c]

  /** Every listed stop word is a single character. */
  lemma StopWordsAreSingleCharacters()
    ensures forall w :: w in StopWords ==> |w| == 1
  {
  }

  /** The filter lunr generates from the list: the token is dropped
      (`None`) exactly when its text is a listed word, and otherwise passed
      on unchanged. */
  function FilterStopWord(token: string): (r: Option<string>)
    ensures r == None <==> token in StopWords
    ensures r != None ==> r == Some(token)
  {
    if token in StopWords then None else Some(token)
  }

  /** No word of two or more characters is ever dropped as a stop word. */
  lemma LongWordsPass(token: string)
    requires |token| != 1
    ensures FilterStopWord(token) == Some(token)
  {
    StopWordsAreSingleCharacters();
  }

  /** "的" is a stop word and "搜索" is not. */
  lemma FilterExamples()
    ensures FilterStopWord("的") == None
    ensures FilterStopWord("搜索") == Some("搜索")
  {
    assert StopWordCharacters[0] == '的';
    LongWordsPass("搜索");
  }
}
