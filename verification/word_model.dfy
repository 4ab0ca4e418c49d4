/** The dictionary word document: its schema constraints and defaults, the
    normalisation of the pre-save hook, and the lookup `findByWord` makes.
    The store is a sequence of saved documents in their natural order. */
module WordModel {
  import opened Wrappers
  import opened Text

  const WordTypes: seq<string> := ["kiril", "lotin", "mixed"]
  const Categories: seq<string> := ["noun", "verb", "adjective", "adverb", "other"]

  /** The schema's constraints: a word (required, so not empty), a known
      type, a trust score in 0..100 and a known category. */
  predicate SchemaValid(word: string, wordType: string, trustScore: int, category: string) {
    && word != ""
    && wordType in WordTypes
    && 0 <= trustScore <= 100
    && category in Categories
  }

  /** A word document. */
  class WordDoc {
    var word: string
    var isChecked: bool
    var owner: string
    var wordType: string
    var trustScore: int
    var frequency: int
    var category: string

    /** A new document: the schema's `trim` setter trims the word, and the
        defaults are checked, owned by "System", trust 100, frequency 0 and
        category "other". */
    constructor (word: string, wordType: string)
      ensures this.word == Trim(word) && this.wordType == wordType
      ensures isChecked && owner == "System" && trustScore == 100 && frequency == 0 && category == "other"
      ensures Valid() <==> Trim(word) != "" && wordType in WordTypes
    {
      TrimIdempotent(word);
      this.word := Trim(word);
      this.wordType := wordType;
      isChecked := true;
      owner := "System";
      trustScore := 100;
      frequency := 0;
      category := "other";
    }

    /** The schema's constraints hold, and the word is as the `trim` setter
        leaves every value assigned to it. */
    predicate Valid()
      reads this
    {
      SchemaValid(word, wordType, trustScore, category) && word == Trim(word)
    }

    /** The pre-save hook, which runs after the schema's validation: the
        word is stored lower-cased and trimmed, no other field changes, and
        the document stays valid. */
    method PreSave()
      requires Valid()
      modifies this`word
      ensures word == LowerTrim(old(word))
      ensures Valid()
    {
      SavedKeyEmpty(word);
      TrimIdempotent(ToLower(word));
      word := Trim(ToLower(word));
    }
  }

  /** The key a document is saved under when created from `word`: the
      setter's trim, then the hook's lower-casing and trim, which together
      are one `toLowerCase().trim()`. */
  function SavedKey(word: string): (k: string)
    ensures k == LowerTrim(word)
  {
    ToLowerTrimCommute(word);
    TrimIdempotent(ToLower(word));
    LowerTrim(Trim(word))
  }

  /** A key is empty exactly when the word is white space only, so every
      word with a visible character can be saved. */
  lemma {:induction false} SavedKeyEmpty(word: string)
    ensures SavedKey(word) == "" <==> Trim(word) == ""
  {
    ToLowerTrimCommute(word);
  }

  /** A new document with a known type and a word with a visible character
      satisfies the schema, before and after the hook. */
  lemma {:induction false} NewWordValid(word: string, wordType: string)
    requires Trim(word) != "" && wordType in WordTypes
    ensures SchemaValid(Trim(word), wordType, 100, "other")
    ensures SchemaValid(SavedKey(word), wordType, 100, "other")
  {
    SavedKeyEmpty(word);
  }

  // ---------------------------------------------------------------------
  // findByWord

  /** The query `findByWord` sends: the normalised word, and the type only
      when one is given. */
  datatype WordQuery = WordQuery(word: string, wordType: Option<string>)

  function FindByWordQuery(word: string, wordType: Option<string>): (q: WordQuery)
    ensures q.wordType.Some? <==> wordType.Some? && wordType.value != ""
  {
    WordQuery(LowerTrim(word), if wordType.Some? && wordType.value != "" then wordType else None)
  }

  /** A saved document as the routes read it; a missing category is `None`. */
  datatype StoredWord = StoredWord(word: string, wordType: string, trustScore: int, category: Option<string>)

  predicate Matches(q: WordQuery, w: StoredWord) {
    w.word == q.word && (q.wordType.None? || w.wordType == q.wordType.value)
  }

  /** `findOne(query)`: the first matching document of the store. */
  function FindOne(store: seq<StoredWord>, q: WordQuery): (r: Option<StoredWord>)
    ensures r.None? <==> forall i :: 0 <= i < |store| ==> !Matches(q, store[i])
    ensures r.Some? ==> exists i :: 0 <= i < |store| && store[i] == r.value && Matches(q, r.value) &&
                                    forall j :: 0 <= j < i ==> !Matches(q, store[j])
  {
    if store == [] then None
    else if Matches(q, store[0]) then Some(store[0])
    else
      var r := FindOne(store[1..], q);
      assert forall i :: 1 <= i < |store| ==> store[i] == store[1..][i - 1];
      r
  }

  /** A lookup with any letter-case variant of a saved word, with white
      space around it, finds a document under that word's key. */
  lemma {:induction false} VariantFindsSavedWord(store: seq<StoredWord>, i: nat, word: string, variant: string, pre: string, post: string)
    requires i < |store| && store[i].word == SavedKey(word)
    requires ToLower(variant) == ToLower(word)
    requires AllSpace(pre) && AllSpace(post)
    ensures var r := FindOne(store, FindByWordQuery(pre + variant + post, None));
      r.Some? && r.value.word == SavedKey(word)
  {
    LowerTrimVariant(word, variant, pre, post);
    assert Matches(FindByWordQuery(pre + variant + post, None), store[i]);
  }

  /** Without a type the lookup ignores types; with a type it only finds a
      document of that type. */
  lemma {:induction false} TypeFilter(store: seq<StoredWord>, word: string, wordType: string)
    requires wordType != ""
    ensures var r := FindOne(store, FindByWordQuery(word, Some(wordType)));
      r.Some? ==> r.value.wordType == wordType && FindOne(store, FindByWordQuery(word, None)).Some?
    ensures FindOne(store, FindByWordQuery(word, Some(""))) == FindOne(store, FindByWordQuery(word, None))
  {
    var r := FindOne(store, FindByWordQuery(word, Some(wordType)));
    if r.Some? {
      var i :| 0 <= i < |store| && store[i] == r.value && Matches(FindByWordQuery(word, Some(wordType)), r.value);
      assert Matches(FindByWordQuery(word, None), store[i]);
    }
  }
}
