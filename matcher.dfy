/** normalizeText and recordMatches (server/src/index.ts): the case-folding substring test
    a record's headword or translation must pass. */
module Matcher {
  import opened Wrappers
  import opened JsValue

  /** The per-character mapping String.prototype.toLowerCase applies; its Unicode tables
      are a parameter of the model. */
  type CaseMap = char -> char

  function Lower(fold: CaseMap, s: string): (r: string)
    ensures |r| == |s|
  {
    seq(|s|, i requires 0 <= i < |s| => fold(s[i]))
  }

  predicate OccursAt(hay: string, needle: string, i: int) {
    0 <= i && i + |needle| <= |hay| && hay[i..i + |needle|] == needle
  }

  /** hay.includes(needle) */
  predicate Includes(hay: string, needle: string) {
    exists i | 0 <= i <= |hay| - |needle| :: OccursAt(hay, needle, i)
  }

  /** normalizeText(v): `(v || '').toLowerCase()`. None stands for the TypeError thrown when
      a truthy value that is not a string reaches toLowerCase. */
  function NormalizeText(fold: CaseMap, v: Value): (r: Option<string>)
    ensures r.Some? <==> IsText(v)
    ensures r.Some? ==> r.value == Lower(fold, TextOf(v)) && |r.value| == |TextOf(v)|
  {
    if !Truthy(v) then Some("")
    else if v.Str? then Some(Lower(fold, v.s))
    else None
  }

  /** `rec.query || rec.original_form || ''` */
  function Headword(rec: Value): Value {
    Or(Or(Get(rec, "query"), Get(rec, "original_form")), Str(""))
  }

  /** `rec.translation || ''` */
  function Translation(rec: Value): Value {
    Or(Get(rec, "translation"), Str(""))
  }

  /** A field the matcher can read: a string, or a falsy value read as "". */
  predicate IsText(v: Value) { !Truthy(v) || v.Str? }

  function TextOf(v: Value): string { if v.Str? then v.s else "" }

  /** recordMatches(rec, q) for an already lower-cased q. None stands for a TypeError:
      reading a property of a null record, or lower-casing a field that is not text (the
      translation is only read when the headword does not match). */
  function RecordMatches(rec: Value, q: string, fold: CaseMap): Option<bool> {
    if Nullish(rec) then None
    else match NormalizeText(fold, Headword(rec))
      case None => None
      case Some(h) =>
        if Includes(h, q) then Some(true)
        else match NormalizeText(fold, Translation(rec))
          case None => None
          case Some(t) => Some(Includes(t, q))
  }

  /** A record with text fields matches when q occurs in its lower-cased headword or in its
      lower-cased translation; the matcher throws exactly on a null record, on a headword
      that is not text, or on a non-text translation it has to read. */
  lemma {:induction false} RecordMatchesCases(rec: Value, q: string, fold: CaseMap)
    ensures !Nullish(rec) && IsText(Headword(rec)) && IsText(Translation(rec)) ==>
              RecordMatches(rec, q, fold) ==
                Some(Includes(Lower(fold, TextOf(Headword(rec))), q) ||
                     Includes(Lower(fold, TextOf(Translation(rec))), q))
    ensures RecordMatches(rec, q, fold).None? <==>
              Nullish(rec) || !IsText(Headword(rec)) ||
              (!Includes(Lower(fold, TextOf(Headword(rec))), q) && !IsText(Translation(rec)))
  {
  }

  /** The headword is the first truthy of `query` and `original_form`. */
  lemma {:induction false} HeadwordFallback(rec: Value)
    ensures Truthy(Get(rec, "query")) ==> Headword(rec) == Get(rec, "query")
    ensures !Truthy(Get(rec, "query")) && Truthy(Get(rec, "original_form")) ==>
              Headword(rec) == Get(rec, "original_form")
    ensures !Truthy(Get(rec, "query")) && !Truthy(Get(rec, "original_form")) ==> Headword(rec) == Str("")
  {
  }
}
