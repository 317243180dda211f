/** The record normalization of the word page (web/src/pages/WordDetail.tsx): the
    `normalized` view of a fetched record, in which eleven fields fall back from the top
    level to the record's `content` object, and the `content` entries left over for the
    "other" section. */
module WordDetail {
  import opened Wrappers
  import opened Seqs
  import opened JsValue

  /** The eleven fields the page normalizes, in the order it writes them. */
  datatype Field =
    | Query | Translation | Pronunciation | Grammar | Usage | RelatedWords
    | AiExplanation | Tables | CulturalNotes | Etymology | Type

  /** The property name of a field. */
  function Name(f: Field): string {
    match f
    case Query => "query"
    case Translation => "translation"
    case Pronunciation => "pronunciation"
    case Grammar => "grammar"
    case Usage => "usage"
    case RelatedWords => "related_words"
    case AiExplanation => "ai_explanation"
    case Tables => "tables"
    case CulturalNotes => "cultural_notes"
    case Etymology => "etymology"
    case Type => "type"
  }

  const Fields: seq<Field> :=
    [Query, Translation, Pronunciation, Grammar, Usage, RelatedWords,
     AiExplanation, Tables, CulturalNotes, Etymology, Type]

  /** The names of the eleven fields, which are also the `content` keys the page does not
      list again. */
  const KnownKeys: seq<string> :=
    ["query", "translation", "pronunciation", "grammar", "usage", "related_words",
     "ai_explanation", "tables", "cultural_notes", "etymology", "type"]

  lemma KnownKeysDistinct()
    ensures NoDuplicates(KnownKeys)
  {
  }

  /** The place of a field in Fields and of its name in KnownKeys. */
  function Slot(f: Field): (i: nat)
    ensures i < |Fields| == |KnownKeys| && Fields[i] == f && KnownKeys[i] == Name(f)
  {
    match f
    case Query => 0
    case Translation => 1
    case Pronunciation => 2
    case Grammar => 3
    case Usage => 4
    case RelatedWords => 5
    case AiExplanation => 6
    case Tables => 7
    case CulturalNotes => 8
    case Etymology => 9
    case Type => 10
  }

  /** fromContent(key): `word?.content?.[key]` */
  function FromContent(word: Value, key: string): Value { Get(Get(word, "content"), key) }

  /** The own properties `{...(x || {})}` copies. */
  function SpreadOf(x: Value): seq<Entry> { Entries(Or(x, Obj([]))) }

  /** merge(a, b): `{ ...(a || {}), ...(b || {}) }` */
  function Merge(a: Value, b: Value): Value { Obj(Spread(Spread([], SpreadOf(a)), SpreadOf(b))) }

  /** One list of `usage`: the top-level one if truthy, else the content one, else []. */
  function UsageList(word: Value, key: string): Value {
    Or(Or(Get(Get(word, "usage"), key), Get(FromContent(word, "usage"), key)), Arr([]))
  }

  /** The three lists of `usage`, in the order the page writes them. */
  const UsageKeys: seq<string> := ["examples", "expressions", "contexts"]

  /** `usage: { examples: ..., expressions: ..., contexts: ... }` */
  function UsageObject(word: Value): Value {
    Obj(Pairs(UsageKeys, seq(|UsageKeys|, i requires 0 <= i < |UsageKeys| => UsageList(word, UsageKeys[i]))))
  }

  /** The top-level field if truthy, else the content one: `word.k || fromContent(k)`. */
  function Prefer(word: Value, key: string): Value { Or(Get(word, key), FromContent(word, key)) }

  /** The value `normalized` gives each of the eleven fields. */
  function Override(word: Value, f: Field): Value {
    match f
    case Query => Or(Or(Get(word, "query"), FromContent(word, "query")), Get(word, "original_form"))
    case Pronunciation => Merge(Get(word, "pronunciation"), FromContent(word, "pronunciation"))
    case Grammar => Merge(Get(word, "grammar"), FromContent(word, "grammar"))
    case Usage => UsageObject(word)
    case RelatedWords =>
      // `word.content?.related_words || fromContent('related_words')`: both operands
      // read the content field
      Coalesce(Or(FromContent(word, "related_words"), FromContent(word, "related_words")), Obj([]))
    case Tables => Or(Prefer(word, "tables"), Arr([]))
    case _ => Prefer(word, Name(f))
  }

  /** The eleven override values, in the order of Fields. */
  function OverrideValues(word: Value): (vs: seq<Value>)
    ensures |vs| == |KnownKeys|
  {
    seq(|Fields|, i requires 0 <= i < |Fields| => Override(word, Fields[i]))
  }

  /** The eleven fields written over the spread of the word, in the source's order. */
  function Overrides(word: Value): seq<Entry> { Pairs(KnownKeys, OverrideValues(word)) }

  /** `normalized`: null without a word, else `{...word, query, translation, ...}`. */
  function Normalize(word: Value): Value {
    if !Truthy(word) then Null else Obj(Spread(Entries(word), Overrides(word)))
  }

  /** Each of the eleven names finds its own override. */
  lemma {:induction false} OverridesLookup(word: Value, f: Field)
    ensures Lookup(Overrides(word), Name(f)) == Some(Override(word, f))
  {
    var i, vs := Slot(f), OverrideValues(word);
    KnownKeysDistinct();
    IndexOfDistinct(KnownKeys, i);
    LookupPairs(KnownKeys, vs, Name(f));
  }

  /** Each of the eleven fields of the normalized record reads its override. */
  lemma {:induction false} NormalizedField(word: Value, f: Field, k: string)
    requires Truthy(word) && k == Name(f)
    ensures Get(Normalize(word), k) == Override(word, f)
  {
    OverridesLookup(word, f);
    KnownKeysDistinct();
    SpreadLookup(Entries(word), Overrides(word), k);
    GetProp(Normalize(word), k, Override(word, f));
  }

  /** Any other field of the normalized record is the word's own. */
  lemma {:induction false} NormalizedOther(word: Value, k: string)
    requires Truthy(word) && k !in KnownKeys
    ensures Lookup(Normalize(word).props, k) == Lookup(Entries(word), k)
  {
    KnownKeysDistinct();
    LookupPairs(KnownKeys, OverrideValues(word), k);
    SpreadLookup(Entries(word), Overrides(word), k);
  }

  /** Without a word there is nothing to show. */
  lemma NoWord(word: Value)
    requires !Truthy(word)
    ensures Normalize(word) == Null && OtherContentEntries(word) == []
  {
  }

  /** query is the first truthy of word.query, content.query and original_form (the
      last one whatever it is). */
  lemma {:induction false} NormalizedQuery(word: Value)
    requires Truthy(word)
    ensures var q, cq, o := Get(word, "query"), FromContent(word, "query"), Get(word, "original_form");
            Get(Normalize(word), "query") == (if Truthy(q) then q else if Truthy(cq) then cq else o)
  {
    NormalizedField(word, Query, "query");
  }

  /** translation, ai_explanation, cultural_notes, etymology and type prefer a truthy
      top-level value to the content one. */
  lemma {:induction false} NormalizedPreferTopLevel(word: Value, f: Field)
    requires Truthy(word)
    requires f in {Translation, AiExplanation, CulturalNotes, Etymology, Type}
    ensures var k := Name(f);
            Get(Normalize(word), k) == (if Truthy(Get(word, k)) then Get(word, k) else FromContent(word, k))
  {
    NormalizedField(word, f, Name(f));
  }

  // TablesOverride and RelatedWordsOverride unfold one case of Override on their own, so
  // that the lemmas below do not unfold it with Normalize in scope, which the solver
  // finds far more costly.
  lemma TablesOverride(word: Value)
    ensures Override(word, Tables) == Or(Prefer(word, "tables"), Arr([]))
  {
  }

  lemma RelatedWordsOverride(word: Value)
    ensures var c := FromContent(word, "related_words");
            Override(word, RelatedWords) == Coalesce(Or(c, c), Obj([]))
  {
  }

  /** tables falls back to the content tables, then to []. */
  lemma {:induction false} NormalizedTables(word: Value)
    requires Truthy(word)
    ensures var t, ct := Get(word, "tables"), FromContent(word, "tables");
            Get(Normalize(word), "tables") == (if Truthy(t) then t else if Truthy(ct) then ct else Arr([]))
  {
    NormalizedField(word, Tables, "tables");
    TablesOverride(word);
  }

  /** A list of usage that falls back from the top-level usage to the content usage,
      then to []. */
  predicate UsageFallsBack(word: Value, usage: Value, key: string) {
    var u, cu := Get(Get(word, "usage"), key), Get(FromContent(word, "usage"), key);
    Get(usage, key) == (if Truthy(u) then u else if Truthy(cu) then cu else Arr([]))
  }

  lemma {:induction false} UsageObjectField(word: Value, i: nat)
    requires i < |UsageKeys|
    ensures UsageFallsBack(word, UsageObject(word), UsageKeys[i])
  {
    var k, vs := UsageKeys[i], seq(|UsageKeys|, i requires 0 <= i < |UsageKeys| => UsageList(word, UsageKeys[i]));
    IndexOfDistinct(UsageKeys, i);
    LookupPairs(UsageKeys, vs, k);
    GetProp(UsageObject(word), k, vs[i]);
  }

  /** usage holds exactly examples, expressions and contexts, in that order, each
      falling back on its own. */
  lemma {:induction false} NormalizedUsage(word: Value)
    requires Truthy(word)
    ensures var usage := Get(Normalize(word), "usage");
            && usage.Obj? && Keys(usage.props) == UsageKeys
            && forall i :: 0 <= i < |UsageKeys| ==> UsageFallsBack(word, usage, UsageKeys[i])
  {
    NormalizedField(word, Usage, "usage");
    forall i | 0 <= i < |UsageKeys|
      ensures UsageFallsBack(word, UsageObject(word), UsageKeys[i])
    {
      UsageObjectField(word, i);
    }
  }

  /** related_words is the content value, {} when that is nullish: the top-level field
      is never consulted. */
  lemma {:induction false} RelatedWordsIgnoresTopLevel(word: Value)
    requires Truthy(word)
    ensures var c := FromContent(word, "related_words");
            Get(Normalize(word), "related_words") == if Nullish(c) then Obj([]) else c
  {
    NormalizedField(word, RelatedWords, "related_words");
    RelatedWordsOverride(word);
  }

  /** merge treats a falsy argument as {} and lets b's keys win over a's. */
  lemma {:induction false} MergeRightBiased(a: Value, b: Value, k: string)
    requires WellKeyed(a) && WellKeyed(b)
    ensures Lookup(Merge(a, b).props, k) ==
              if HasKey(SpreadOf(b), k) then Lookup(SpreadOf(b), k) else Lookup(SpreadOf(a), k)
    ensures !Truthy(a) && !Truthy(b) ==> Merge(a, b) == Obj([])
  {
    EntriesDistinct(Or(a, Obj([])));
    EntriesDistinct(Or(b, Obj([])));
    SpreadLookup(Spread([], SpreadOf(a)), SpreadOf(b), k);
    SpreadLookup([], SpreadOf(a), k);
  }

  /** pronunciation and grammar merge key by key, the content value winning. */
  lemma {:induction false} NormalizedMerges(word: Value, f: Field)
    requires Truthy(word)
    requires f == Pronunciation || f == Grammar
    ensures Get(Normalize(word), Name(f)) == Merge(Get(word, Name(f)), FromContent(word, Name(f)))
  {
    NormalizedField(word, f, Name(f));
  }

  /** Every field of the word outside the eleven is carried over unchanged, every field
      keeps its place, and no key appears twice. */
  lemma {:induction false} NormalizeKeepsOtherFields(word: Value)
    requires Truthy(word) && WellKeyed(word)
    ensures var n := Normalize(word);
            && (forall k :: k !in KnownKeys ==> Lookup(n.props, k) == Lookup(Entries(word), k))
            && Keys(Entries(word)) <= Keys(n.props)
            && DistinctKeys(n.props)
  {
    forall k | k !in KnownKeys
      ensures Lookup(Normalize(word).props, k) == Lookup(Entries(word), k)
    {
      NormalizedOther(word, k);
    }
    EntriesDistinct(word);
    SpreadKeys(Entries(word), Overrides(word));
  }

  function NotKnown(e: Entry): bool { e.0 !in KnownKeys }

  /** otherContentEntries: the entries of `word.content || {}` whose key is not one of
      the eleven, in their order. */
  function OtherContentEntries(word: Value): seq<Entry> {
    if !Truthy(word) then [] else Filter(Entries(Or(Get(word, "content"), Obj([]))), NotKnown)
  }

  /** Exactly the content entries with an unknown key, in their original order. */
  lemma {:induction false} OtherContentExact(word: Value)
    requires Truthy(word)
    ensures var content := Entries(Or(Get(word, "content"), Obj([])));
            var r := OtherContentEntries(word);
            && (forall e :: e in r <==> e in content && e.0 !in KnownKeys)
            && IsSubsequence(r, content)
  {
    var content := Entries(Or(Get(word, "content"), Obj([])));
    FilterIsSubsequence(content, NotKnown);
  }
}
