/** The two read endpoints that walk the record stream (server/src/index.ts): /api/search,
    a paginated search over every record, and /api/by-id/:id, the first record with a
    given objectId. Each is a pure specification function plus a method that makes one
    pass over a RecordStream, stopping as soon as the source does. The search is stated
    for any matcher `m` (None meaning that it throws); the handler uses recordMatches. */
module QueryEngine {
  import opened Wrappers
  import opened Seqs
  import opened JsValue
  import opened RecordStore
  import opened Matcher
  import opened SearchParams

  /** Why a request ends in a 500: the store could not be read, or the handler threw a
      TypeError on a malformed record. */
  datatype Failure = StoreFailure(error: StoreError) | TypeError

  /** The /api/search responses: 200 with the page and the echoed parameters, 400 when q
      is missing, 500 on a failure. */
  datatype SearchResponse =
    | SearchOk(results: seq<Value>, limit: int, offset: int, q: string)
    | MissingQuery
    | SearchFailed(failure: Failure)

  /** recordMatches(·, q), None where it throws. */
  function RecordMatcher(q: string, fold: CaseMap): Value -> Option<bool> {
    rec => RecordMatches(rec, q, fold)
  }

  function Hit(m: Value -> Option<bool>): Value -> bool { rec => m(rec) == Some(true) }

  function Throws(m: Value -> Option<bool>): Value -> bool { rec => m(rec).None? }

  predicate NoneThrow(s: seq<Value>, m: Value -> Option<bool>) {
    forall i :: 0 <= i < |s| ==> !Throws(m)(s[i])
  }

  /** The search over the records `s` of a stream that ends with `end`. The handler
      compares records in order until the first one that throws; of the matches before
      it, it skips `offset` and keeps the next Max(limit, 1) (the page is checked only
      after a push, so a limit below 1 keeps one record). A full page is answered without
      reading further; otherwise the throw, then the end of the stream, decide. */
  function SearchRecords(s: seq<Value>, end: Option<StoreError>, m: Value -> Option<bool>,
                         q: string, limit: int, offset: int): SearchResponse
  {
    var j := FirstWhere(s, Throws(m));
    var ms := Filter(s[..j], Hit(m));
    var lo := Max(offset, 0);
    var hi := lo + Max(limit, 1);
    if hi <= |ms| then SearchOk(ms[lo..hi], limit, offset, q)
    else if j < |s| then SearchFailed(TypeError)
    else if end.Some? then SearchFailed(StoreFailure(end.value))
    else SearchOk(ms[Min(lo, |ms|)..], limit, offset, q)
  }

  /** A search answers with at most Max(limit, 1) matching records and echoes its
      parameters; it fails with a TypeError only when some record makes the matcher
      throw, and with a store error only when the stream ends with that error and no
      record throws. */
  lemma {:induction false} SearchOutcomes(s: seq<Value>, end: Option<StoreError>, m: Value -> Option<bool>,
                                          q: string, limit: int, offset: int)
    ensures var r := SearchRecords(s, end, m, q, limit, offset);
            && !r.MissingQuery?
            && (r.SearchOk? ==> r.limit == limit && r.offset == offset && r.q == q)
            && (r.SearchOk? ==> |r.results| <= Max(limit, 1))
            && (r.SearchOk? ==> forall i :: 0 <= i < |r.results| ==> m(r.results[i]) == Some(true))
            && (r == SearchFailed(TypeError) ==> exists k :: 0 <= k < |s| && m(s[k]).None?)
            && (r.SearchFailed? && r.failure.StoreFailure? ==> end == Some(r.failure.error) && NoneThrow(s, m))
  {
    var j := FirstWhere(s, Throws(m));
    var ms := Filter(s[..j], Hit(m));
    var r := SearchRecords(s, end, m, q, limit, offset);
    if r.SearchOk? {
      forall i | 0 <= i < |r.results|
        ensures m(r.results[i]) == Some(true)
      {
        assert r.results[i] in ms;
      }
    }
    if r == SearchFailed(TypeError) {
      assert m(s[j]).None?;
    }
    if r.SearchFailed? && r.failure.StoreFailure? {
      assert j == |s|;
    }
  }

  /** GET /api/search?q=&limit=&offset= over `store`. */
  function SearchSpec(store: Store, fold: CaseMap, rawQ: Option<string>,
                      rawLimit: Option<string>, rawOffset: Option<string>): SearchResponse
  {
    var q := NormalizeQuery(fold, rawQ);
    if q == [] then MissingQuery
    else SearchRecords(Records(store), StreamError(store), RecordMatcher(q, fold), q,
                       LimitParam(rawLimit), OffsetParam(rawOffset))
  }

  /** The handler answers 400 exactly when q is absent or empty; otherwise a page of at
      most 100 records that recordMatches accepts, with the parameters it read echoed. */
  lemma {:induction false} SearchSpecOutcomes(store: Store, fold: CaseMap, rawQ: Option<string>,
                                              rawLimit: Option<string>, rawOffset: Option<string>)
    ensures var r := SearchSpec(store, fold, rawQ, rawLimit, rawOffset);
            && (r.MissingQuery? <==> Text(rawQ, "") == "")
            && (r.SearchOk? ==>
                  && r.q == NormalizeQuery(fold, rawQ)
                  && r.limit == LimitParam(rawLimit)
                  && r.offset == OffsetParam(rawOffset)
                  && |r.results| <= Max(r.limit, 1) <= 100
                  && forall i :: 0 <= i < |r.results| ==> RecordMatches(r.results[i], r.q, fold) == Some(true))
  {
    var q := NormalizeQuery(fold, rawQ);
    if q != [] {
      SearchOutcomes(Records(store), StreamError(store), RecordMatcher(q, fold), q,
                     LimitParam(rawLimit), OffsetParam(rawOffset));
    }
  }

  /** The page holds records of the stream in stream order. */
  lemma {:induction false} SearchInStreamOrder(s: seq<Value>, end: Option<StoreError>, m: Value -> Option<bool>,
                                               q: string, limit: int, offset: int)
    ensures var r := SearchRecords(s, end, m, q, limit, offset);
            r.SearchOk? ==> IsSubsequence(r.results, s)
  {
    var j := FirstWhere(s, Throws(m));
    var ms := Filter(s[..j], Hit(m));
    var lo := Max(offset, 0);
    var hi := lo + Max(limit, 1);
    var r := SearchRecords(s, end, m, q, limit, offset);
    if r.SearchOk? {
      var a := if hi <= |ms| then lo else Min(lo, |ms|);
      var b := if hi <= |ms| then hi else |ms|;
      assert r.results == ms[a..b];
      SliceIsSubsequence(ms, a, b);
      FilterIsSubsequence(s[..j], Hit(m));
      SliceIsSubsequence(s, 0, j);
      SubsequenceTransitive(ms[a..b], ms, s[..j]);
      SubsequenceTransitive(ms[a..b], s[..j], s);
    }
  }

  lemma {:induction false} NoneThrowSnoc(a: seq<Value>, x: Value, m: Value -> Option<bool>)
    requires NoneThrow(a, m) && m(x).Some?
    ensures NoneThrow(a + [x], m)
  {
    assert forall i :: 0 <= i < |a| ==> (a + [x])[i] == a[i];
  }

  /** The first `n` records do not throw, so the search for a throw resumes at `n`. */
  lemma {:induction false} FirstThrowAfter(s: seq<Value>, n: nat, m: Value -> Option<bool>)
    requires n <= |s| && NoneThrow(s[..n], m)
    ensures FirstWhere(s, Throws(m)) == n + FirstWhere(s[n..], Throws(m))
  {
    assert forall i :: 0 <= i < n ==> s[..n][i] == s[i];
    FirstWhereSkip(s, n, Throws(m));
  }

  /** The loop state of the /api/search handler after the records `seen`: none of them
      threw, `skipped` matches were counted towards the offset, `results` holds the
      matches after them, and the page is not yet full. */
  ghost predicate Scanned(seen: seq<Value>, m: Value -> Option<bool>, limit: int, offset: int,
                          skipped: int, results: seq<Value>)
  {
    var ms := Filter(seen, Hit(m));
    && NoneThrow(seen, m)
    && skipped == Min(Max(offset, 0), |ms|)
    && results == ms[skipped..]
    && |results| < Max(limit, 1)
  }

  /** The stream ran out after the loop state `skipped`/`results`. */
  lemma {:induction false} ScanEnds(s: seq<Value>, end: Option<StoreError>, m: Value -> Option<bool>,
                                    q: string, limit: int, offset: int, skipped: int, results: seq<Value>)
    requires Scanned(s, m, limit, offset, skipped, results)
    ensures SearchRecords(s, end, m, q, limit, offset) ==
              if end.Some? then SearchFailed(StoreFailure(end.value)) else SearchOk(results, limit, offset, q)
  {
    assert s[..|s|] == s;
    FirstThrowAfter(s, |s|, m);
    assert s[|s|..] == [];
  }

  /** Record `n` throws after the loop state `skipped`/`results`. */
  lemma {:induction false} ScanThrows(s: seq<Value>, n: nat, end: Option<StoreError>, m: Value -> Option<bool>,
                                      q: string, limit: int, offset: int, skipped: int, results: seq<Value>)
    requires n < |s| && Scanned(s[..n], m, limit, offset, skipped, results) && m(s[n]).None?
    ensures SearchRecords(s, end, m, q, limit, offset) == SearchFailed(TypeError)
  {
    FirstThrowAfter(s, n, m);
    assert s[n..][0] == s[n];
  }

  /** The page filled up within the first `n` records, none of which throws. */
  lemma {:induction false} ScanFull(s: seq<Value>, n: nat, end: Option<StoreError>, m: Value -> Option<bool>,
                                    q: string, limit: int, offset: int, results: seq<Value>)
    requires n <= |s| && NoneThrow(s[..n], m)
    requires var ms := Filter(s[..n], Hit(m));
             var lo := Max(offset, 0);
             lo + Max(limit, 1) <= |ms| && results == ms[lo..lo + Max(limit, 1)]
    ensures SearchRecords(s, end, m, q, limit, offset) == SearchOk(results, limit, offset, q)
  {
    var j := FirstWhere(s, Throws(m));
    FirstThrowAfter(s, n, m);
    FilterPrefix(s, n, j, Hit(m));
  }

  /** A record that does not match leaves the loop state as it was. */
  lemma {:induction false} PassOver(seen: seq<Value>, rec: Value, m: Value -> Option<bool>, limit: int, offset: int,
                                    skipped: int, results: seq<Value>)
    requires Scanned(seen, m, limit, offset, skipped, results)
    requires m(rec) == Some(false)
    ensures Scanned(seen + [rec], m, limit, offset, skipped, results)
  {
    FilterSnoc(seen, rec, Hit(m));
    NoneThrowSnoc(seen, rec, m);
  }

  /** A match met before `offset` matches have been skipped is skipped. */
  lemma {:induction false} CountTowardsOffset(seen: seq<Value>, rec: Value, m: Value -> Option<bool>,
                                              limit: int, offset: int, skipped: int, results: seq<Value>)
    requires Scanned(seen, m, limit, offset, skipped, results)
    requires m(rec) == Some(true) && skipped < offset
    ensures Scanned(seen + [rec], m, limit, offset, skipped + 1, results)
  {
    FilterSnoc(seen, rec, Hit(m));
    NoneThrowSnoc(seen, rec, m);
    var ms := Filter(seen + [rec], Hit(m));
    assert skipped == |Filter(seen, Hit(m))| && results == [];
    assert results == ms[skipped + 1..];
  }

  /** A match met once the offset is used up is pushed onto the page. */
  lemma {:induction false} Push(seen: seq<Value>, rec: Value, m: Value -> Option<bool>, limit: int, offset: int,
                                skipped: int, results: seq<Value>)
    requires Scanned(seen, m, limit, offset, skipped, results)
    requires m(rec) == Some(true) && skipped >= offset
    ensures var ms := Filter(seen + [rec], Hit(m));
            && NoneThrow(seen + [rec], m)
            && skipped == Max(offset, 0) <= |ms|
            && results + [rec] == ms[skipped..]
  {
    FilterSnoc(seen, rec, Hit(m));
    NoneThrowSnoc(seen, rec, m);
  }

  /** What the loop body does with one record. */
  datatype Visited = Threw | Continue | PageFull

  /** The body of the /api/search loop for one record: a throwing matcher aborts, a
      non-match is passed over, a match is counted towards the offset or pushed, and a
      push that brings the page to `limit` ends the loop. */
  method Visit(rec: Value, m: Value -> Option<bool>, limit: int, offset: int,
               skipped: int, results: seq<Value>, ghost seen: seq<Value>)
    returns (outcome: Visited, skipped': int, results': seq<Value>)
    requires Scanned(seen, m, limit, offset, skipped, results)
    ensures outcome == Threw <==> m(rec).None?
    ensures outcome == Continue ==> Scanned(seen + [rec], m, limit, offset, skipped', results')
    ensures outcome == PageFull ==>
              var ms := Filter(seen + [rec], Hit(m));
              var lo := Max(offset, 0);
              && NoneThrow(seen + [rec], m)
              && lo + Max(limit, 1) <= |ms|
              && results' == ms[lo..lo + Max(limit, 1)]
  {
    skipped', results' := skipped, results;
    var matched := m(rec);
    if matched.None? {
      return Threw, skipped', results';
    }
    if !matched.value {
      PassOver(seen, rec, m, limit, offset, skipped, results);
      return Continue, skipped', results';
    }
    if skipped < offset {
      CountTowardsOffset(seen, rec, m, limit, offset, skipped, results);
      skipped' := skipped + 1;
      return Continue, skipped', results';
    }
    Push(seen, rec, m, limit, offset, skipped, results);
    results' := results + [rec];
    if |results'| >= limit {
      return PageFull, skipped', results';
    }
    return Continue, skipped', results';
  }

  /** The loop of the /api/search handler: one pass over a fresh record stream. */
  method Scan(store: Store, m: Value -> Option<bool>, q: string, limit: int, offset: int)
    returns (resp: SearchResponse)
    ensures resp == SearchRecords(Records(store), StreamError(store), m, q, limit, offset)
  {
    ghost var s := Records(store);
    var results: seq<Value> := [];
    var skipped := 0;
    var stream := new RecordStream(store);
    while true
      invariant stream.Valid() && stream.store == store && !stream.closed
      invariant |stream.yielded| <= |s| && stream.yielded == s[..|stream.yielded|]
      invariant Scanned(stream.yielded, m, limit, offset, skipped, results)
      decreases |s| - |stream.yielded|
    {
      ghost var seen := stream.yielded;
      var step := stream.Next();
      if !step.Yield? {
        ScanEnds(s, StreamError(store), m, q, limit, offset, skipped, results);
        if step.Done? {
          return SearchOk(results, limit, offset, q);
        }
        return SearchFailed(StoreFailure(step.error));
      }
      var outcome, skipped', results' := Visit(step.rec, m, limit, offset, skipped, results, seen);
      if outcome == Threw {
        assert s[..|seen|] == seen;
        ScanThrows(s, |seen|, StreamError(store), m, q, limit, offset, skipped, results);
        return SearchFailed(TypeError);
      }
      if outcome == PageFull {
        ScanFull(s, |stream.yielded|, StreamError(store), m, q, limit, offset, results');
        return SearchOk(results', limit, offset, q);
      }
      skipped, results := skipped', results';
    }
  }

  /** The /api/search handler. */
  method Search(store: Store, fold: CaseMap, rawQ: Option<string>,
                rawLimit: Option<string>, rawOffset: Option<string>) returns (resp: SearchResponse)
    ensures resp == SearchSpec(store, fold, rawQ, rawLimit, rawOffset)
  {
    var q := NormalizeQuery(fold, rawQ);
    var limit := LimitParam(rawLimit);
    var offset := OffsetParam(rawOffset);
    if q == [] {
      return MissingQuery;
    }
    resp := Scan(store, RecordMatcher(q, fold), q, limit, offset);
  }

  /** The page `offset`/`limit` selects from the matches `ms`. */
  function Page(ms: seq<Value>, offset: int, limit: int): seq<Value> {
    ms[Min(Max(offset, 0), |ms|)..Min(Max(offset, 0) + Max(limit, 1), |ms|)]
  }

  /** Over a stream that reads cleanly and never makes the matcher throw, the search
      returns exactly the selected page of all matching records. */
  lemma {:induction false} CleanSearchIsPage(s: seq<Value>, m: Value -> Option<bool>, q: string,
                                             limit: int, offset: int)
    requires NoneThrow(s, m)
    ensures SearchRecords(s, None, m, q, limit, offset) ==
              SearchOk(Page(Filter(s, Hit(m)), offset, limit), limit, offset, q)
  {
    assert s[..|s|] == s;
    FirstThrowAfter(s, |s|, m);
    assert s[|s|..] == [];
  }

  /** The concatenation of `n` consecutive pages of `step` records each, the first at
      `offset`, as `page` returns them. */
  function Pages(page: nat -> seq<Value>, step: nat, offset: nat, n: nat): seq<Value>
    decreases n
  {
    if n == 0 then [] else page(offset) + Pages(page, step, offset + step, n - 1)
  }

  /** `n` steps of `lim`, by repeated addition. */
  function Span(n: nat, lim: nat): nat
    decreases n
  {
    if n == 0 then 0 else lim + Span(n - 1, lim)
  }

  lemma {:induction false} SpanIsProduct(n: nat, lim: nat)
    ensures Span(n, lim) == n * lim
    decreases n
  {
    if n > 0 {
      SpanIsProduct(n - 1, lim);
      assert n * lim == (n - 1) * lim + lim;
    }
  }

  /** Consecutive pages of the matches tile them: together they are one contiguous run,
      each match in it exactly once and in order. */
  lemma {:induction false} PagesCover(page: nat -> seq<Value>, ms: seq<Value>, lim: nat, offset: nat, n: nat)
    requires lim >= 1
    requires forall o: nat :: page(o) == Page(ms, o, lim)
    ensures Pages(page, lim, offset, n) == ms[Min(offset, |ms|)..Min(offset + Span(n, lim), |ms|)]
    decreases n
  {
    if n > 0 {
      PagesCover(page, ms, lim, offset + lim, n - 1);
      var a, b, c := Min(offset, |ms|), Min(offset + lim, |ms|), Min(offset + Span(n, lim), |ms|);
      assert page(offset) == ms[a..b];
      SliceConcat(ms, a, b, c);
    }
  }

  /** From offset 0, the pages join into a prefix of the matches. */
  lemma {:induction false} PagesFromStart(page: nat -> seq<Value>, ms: seq<Value>, lim: nat, n: nat)
    requires lim >= 1
    requires forall o: nat :: page(o) == Page(ms, o, lim)
    ensures Pages(page, lim, 0, n) == ms[..Min(Span(n, lim), |ms|)]
  {
    PagesCover(page, ms, lim, 0, n);
    assert ms[Min(0, |ms|)..Min(Span(n, lim), |ms|)] == ms[..Min(Span(n, lim), |ms|)];
  }

  /** The search a client makes for the page of size `lim` at `offset`. */
  function PageRequest(store: Store, fold: CaseMap, rawQ: Option<string>, lim: nat, offset: nat): SearchResponse {
    SearchSpec(store, fold, rawQ, Some(Decimal.FromNat(lim)), Some(Decimal.FromNat(offset)))
  }

  function ResultsOf(r: SearchResponse): seq<Value> {
    if r.SearchOk? then r.results else []
  }

  /** The concatenated results of `n` page requests of size `lim` at offsets 0, lim,
      2 * lim, ... */
  function PagedResults(store: Store, fold: CaseMap, rawQ: Option<string>, lim: nat, n: nat): seq<Value> {
    Pages(PageResults(store, fold, rawQ, lim), lim, 0, n)
  }

  /** The results of the page request at each offset. */
  function PageResults(store: Store, fold: CaseMap, rawQ: Option<string>, lim: nat): nat -> seq<Value> {
    (o: nat) => ResultsOf(PageRequest(store, fold, rawQ, lim, o))
  }

  /** A search over a clean store answers with one page of the matches. */
  lemma {:induction false} CleanSearchSpec(store: Store, fold: CaseMap, rawQ: Option<string>,
                                           rawLimit: Option<string>, rawOffset: Option<string>)
    requires NormalizeQuery(fold, rawQ) != []
    requires StreamError(store).None? && NoneThrow(Records(store), RecordMatcher(NormalizeQuery(fold, rawQ), fold))
    ensures var q := NormalizeQuery(fold, rawQ);
            var limit, offset := LimitParam(rawLimit), OffsetParam(rawOffset);
            SearchSpec(store, fold, rawQ, rawLimit, rawOffset) ==
              SearchOk(Page(Filter(Records(store), Hit(RecordMatcher(q, fold))), offset, limit), limit, offset, q)
  {
    var q := NormalizeQuery(fold, rawQ);
    CleanSearchIsPage(Records(store), RecordMatcher(q, fold), q, LimitParam(rawLimit), OffsetParam(rawOffset));
  }

  /** One page request over a clean store, with a page size up to the cap. */
  lemma {:induction false} PageRequestIsPage(store: Store, fold: CaseMap, rawQ: Option<string>, lim: nat, offset: nat)
    requires 1 <= lim <= 100
    requires NormalizeQuery(fold, rawQ) != []
    requires StreamError(store).None? && NoneThrow(Records(store), RecordMatcher(NormalizeQuery(fold, rawQ), fold))
    ensures var q := NormalizeQuery(fold, rawQ);
            PageRequest(store, fold, rawQ, lim, offset) ==
              SearchOk(Page(Filter(Records(store), Hit(RecordMatcher(q, fold))), offset, lim), lim, offset, q)
  {
    var rawLimit, rawOffset := Some(Decimal.FromNat(lim)), Some(Decimal.FromNat(offset));
    LimitOfNat(lim);
    OffsetOfNat(offset);
    CleanSearchSpec(store, fold, rawQ, rawLimit, rawOffset);
  }

  /** The pages up to `n` requested over a clean store join into a prefix of the matches. */
  lemma {:induction false} PagedPrefix(store: Store, fold: CaseMap, rawQ: Option<string>, lim: nat, n: nat)
    requires 1 <= lim <= 100
    requires NormalizeQuery(fold, rawQ) != []
    requires StreamError(store).None? && NoneThrow(Records(store), RecordMatcher(NormalizeQuery(fold, rawQ), fold))
    ensures var ms := Filter(Records(store), Hit(RecordMatcher(NormalizeQuery(fold, rawQ), fold)));
            PagedResults(store, fold, rawQ, lim, n) == ms[..Min(Span(n, lim), |ms|)]
  {
    var ms := Filter(Records(store), Hit(RecordMatcher(NormalizeQuery(fold, rawQ), fold)));
    var page := PageResults(store, fold, rawQ, lim);
    forall o: nat
      ensures page(o) == Page(ms, o, lim)
    {
      PageRequestIsPage(store, fold, rawQ, lim, o);
    }
    PagesFromStart(page, ms, lim, n);
  }

  /** Over a store that reads cleanly and holds only records the matcher can compare,
      requesting the pages at offsets 0, lim, 2 * lim, ... (n of them, 1 <= lim <= 100)
      returns the first n * lim matching records in stream order, none twice and none
      left out. */
  lemma {:induction false} Pagination(store: Store, fold: CaseMap, rawQ: Option<string>, lim: nat, n: nat)
    requires 1 <= lim <= 100
    requires NormalizeQuery(fold, rawQ) != []
    requires StreamError(store).None? && NoneThrow(Records(store), RecordMatcher(NormalizeQuery(fold, rawQ), fold))
    ensures var ms := Filter(Records(store), Hit(RecordMatcher(NormalizeQuery(fold, rawQ), fold)));
            var r := PagedResults(store, fold, rawQ, lim, n);
            |r| == Min(n * lim, |ms|) && r == ms[..|r|]
  {
    PagedPrefix(store, fold, rawQ, lim, n);
    SpanIsProduct(n, lim);
  }

  /** The /api/by-id/:id responses: 200 with the record, 404, or 500. */
  datatype ByIdResponse = Found(rec: Value) | NotFound | LookupFailed(failure: Failure)

  /** The handler stops at a record with the id, or throws reading `objectId` of a null one. */
  function StopsLookup(id: string): Value -> bool {
    rec => Nullish(rec) || Get(rec, "objectId") == Str(id)
  }

  /** GET /api/by-id/:id over `store`: the first record whose objectId is the string `id`,
      in stream order. */
  function FindById(store: Store, id: string): (r: ByIdResponse)
    ensures r.Found? ==>
              && Get(r.rec, "objectId") == Str(id)
              && exists k :: 0 <= k < |Records(store)| && Records(store)[k] == r.rec &&
                   forall i :: 0 <= i < k ==> Get(Records(store)[i], "objectId") != Str(id)
    ensures r.NotFound? ==>
              StreamError(store).None? &&
              forall i :: 0 <= i < |Records(store)| ==> Get(Records(store)[i], "objectId") != Str(id)
    ensures r == LookupFailed(TypeError) ==>
              exists k :: 0 <= k < |Records(store)| && Nullish(Records(store)[k]) &&
                NoneStop(Records(store)[..k], id)
    ensures r.LookupFailed? && r.failure.StoreFailure? ==> StreamError(store) == Some(r.failure.error)
  {
    var s := Records(store);
    var k := FirstWhere(s, StopsLookup(id));
    if k < |s| then
      if Nullish(s[k]) then LookupFailed(TypeError) else Found(s[k])
    else match StreamError(store)
      case Some(e) => LookupFailed(StoreFailure(e))
      case None => NotFound
  }

  predicate NoneStop(s: seq<Value>, id: string) {
    forall i :: 0 <= i < |s| ==> !StopsLookup(id)(s[i])
  }

  /** Record `n` is the first one the by-id handler stops at. */
  lemma {:induction false} LookupStopsAt(store: Store, id: string, n: nat)
    requires n < |Records(store)| && NoneStop(Records(store)[..n], id)
    requires StopsLookup(id)(Records(store)[n])
    ensures FindById(store, id) ==
              if Nullish(Records(store)[n]) then LookupFailed(TypeError) else Found(Records(store)[n])
  {
    var s := Records(store);
    assert forall i :: 0 <= i < n ==> s[..n][i] == s[i];
    FirstWhereSkip(s, n, StopsLookup(id));
    assert s[n..][0] == s[n];
  }

  /** The by-id handler ran out of records without stopping. */
  lemma {:induction false} LookupRunsOut(store: Store, id: string)
    requires NoneStop(Records(store), id)
    ensures FindById(store, id) ==
              match StreamError(store)
              case Some(e) => LookupFailed(StoreFailure(e))
              case None => NotFound
  {
    var s := Records(store);
    FirstWhereSkip(s, |s|, StopsLookup(id));
    assert s[|s|..] == [];
  }

  /** The by-id handler's loop: reads a fresh record stream until a record that is null
      or has the id, or until the stream ends; `n` is the position of the record it stops at. */
  method ScanForId(store: Store, id: string) returns (step: Step, ghost n: nat)
    ensures step.Yield? ==>
              && n < |Records(store)| && step.rec == Records(store)[n]
              && NoneStop(Records(store)[..n], id) && StopsLookup(id)(step.rec)
    ensures !step.Yield? ==> NoneStop(Records(store), id)
    ensures step.Halt? ==> StreamError(store) == Some(step.error)
    ensures step.Done? ==> StreamError(store).None?
  {
    ghost var s := Records(store);
    var stream := new RecordStream(store);
    step := stream.Next();
    ghost var seen: seq<Value> := [];
    while step.Yield? && !Nullish(step.rec) && Get(step.rec, "objectId") != Str(id)
      invariant stream.Valid() && stream.store == store
      invariant |seen| < |s| ==> step.Yield? && step.rec == s[|seen|]
      invariant step.Yield? ==> |seen| < |s| && stream.yielded == seen + [step.rec] && !stream.closed
      invariant !step.Yield? ==> stream.yielded == seen == s
      invariant seen == s[..|seen|] && NoneStop(seen, id)
      invariant step.Halt? ==> Some(step.error) == StreamError(store)
      invariant step.Done? ==> StreamError(store).None?
      decreases |s| - |seen|
    {
      NoneStopSnoc(seen, step.rec, id);
      seen := stream.yielded;
      step := stream.Next();
    }
    n := |seen|;
  }

  /** A record that does not stop the lookup keeps the records seen so far non-stopping. */
  lemma NoneStopSnoc(seen: seq<Value>, rec: Value, id: string)
    requires NoneStop(seen, id) && !StopsLookup(id)(rec)
    ensures NoneStop(seen + [rec], id)
  {
    assert forall i :: 0 <= i < |seen| ==> (seen + [rec])[i] == seen[i];
  }

  /** The /api/by-id/:id handler: one pass over a fresh record stream, returning early. */
  method GetById(store: Store, id: string) returns (resp: ByIdResponse)
    ensures resp == FindById(store, id)
  {
    var step;
    ghost var n;
    step, n := ScanForId(store, id);
    if !step.Yield? {
      LookupRunsOut(store, id);
      resp := if step.Done? then NotFound else LookupFailed(StoreFailure(step.error));
    } else {
      LookupStopsAt(store, id, n);
      resp := if Nullish(step.rec) then LookupFailed(TypeError) else Found(step.rec);
    }
  }
}
