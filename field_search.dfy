/** `getFootballFields` of src/services/api.ts and its four search
    strategies. Every upstream request is an input reply; the method also
    reports the requests it issued, in order. */
module FieldSearch {
  import opened Wrappers
  import opened Text
  import opened Seqs
  import opened Places
  import opened Dedup

  /** The text queries of strategy 3, in the order they are tried. */
  const SearchTerms: seq<string> :=
    ["football", "soccer", "futbol", "campo de futbol", "terrain de football"]

  /** Strategy 3 stops once it has gathered more records than this. */
  const EarlyExitThreshold: nat := 10

  /** The name keywords strategy 4 keeps a place for. */
  const FieldKeywords: seq<string> :=
    ["sport", "field", "pitch", "futbol", "soccer", "football", "deportivo", "estadio"]

  /** One places search: failed, or answered with its `results` (a reply
      without `results` is an empty one). */
  type PlacesReply = Reply<seq<RawPoi>>

  /** The replies the upstream would give to each request: the category
      search with the plain key, the same search with a `Bearer` key, one
      text search per entry of `SearchTerms`, and the broad category search. */
  datatype Replies = Replies(
    category: PlacesReply,
    bearer: PlacesReply,
    terms: seq<PlacesReply>,
    broad: PlacesReply)

  predicate WellFormed(rs: Replies) {
    |rs.terms| == |SearchTerms|
  }

  datatype AuthScheme = PlainKey | BearerKey

  /** An upstream request the search issued. */
  datatype Request =
    | CategorySearch(auth: AuthScheme)
    | TermSearch(term: string)
    | BroadCategorySearch

  /** The one error `getFootballFields` lets escape. */
  datatype SearchError = MissingApiKey

  /** The records a reply contributes; a failed request contributes none. */
  function Hits(r: PlacesReply): seq<RawPoi> {
    match r
    case Fail => []
    case Ok(results) => results
  }

  // ------------------------------------------------------------ strategy 3

  /** The records gathered from a run of term replies, appended in order. */
  function Flatten(rs: seq<PlacesReply>): seq<RawPoi>
    decreases |rs|
  {
    if rs == [] then [] else Flatten(rs[..|rs| - 1]) + Hits(rs[|rs| - 1])
  }

  /** How many terms strategy 3 queries when it has already gone through the
      first `k` of them without stopping: it stops right after the first term
      that brings the total above the threshold, and never inside a term. */
  function TermsQueriedFrom(rs: seq<PlacesReply>, k: nat): (n: nat)
    requires k <= |rs|
    requires |Flatten(rs[..k])| <= EarlyExitThreshold
    ensures k <= n <= |rs|
    ensures n < |rs| ==> n > k && |Flatten(rs[..n])| > EarlyExitThreshold
    ensures forall m :: k <= m < n ==> |Flatten(rs[..m])| <= EarlyExitThreshold
    decreases |rs| - k
  {
    if k == |rs| then k
    else if |Flatten(rs[..k + 1])| > EarlyExitThreshold then k + 1
    else TermsQueriedFrom(rs, k + 1)
  }

  function TermsQueried(rs: seq<PlacesReply>): (n: nat)
    ensures n <= |rs|
  {
    assert rs[..0] == [];
    TermsQueriedFrom(rs, 0)
  }

  /** The early exit of strategy 3: the terms queried are a prefix of the
      list; if the loop stopped before the end, the records gathered exceed
      the threshold, and before the last queried term they did not. */
  lemma TermsQueriedEarlyExit(rs: seq<PlacesReply>)
    ensures TermsQueried(rs) < |rs| ==> |Flatten(rs[..TermsQueried(rs)])| > EarlyExitThreshold
    ensures forall m :: 0 <= m < TermsQueried(rs) ==> |Flatten(rs[..m])| <= EarlyExitThreshold
    ensures |rs| > 0 ==> TermsQueried(rs) > 0
  {
    assert rs[..0] == [];
  }

  lemma FlattenStep(rs: seq<PlacesReply>, i: nat)
    requires i < |rs|
    ensures Flatten(rs[..i + 1]) == Flatten(rs[..i]) + Hits(rs[i])
  {
    assert rs[..i + 1][..i] == rs[..i];
  }

  /** The `for` loop of strategy 3: query each term, skip the ones that
      fail, append the others' results and break once more than ten records
      have been gathered. */
  method GatherTermResults(rs: seq<PlacesReply>) returns (all: seq<RawPoi>, asked: seq<string>)
    requires |rs| == |SearchTerms|
    ensures |asked| == TermsQueried(rs)
    ensures asked == SearchTerms[..|asked|]
    ensures all == Flatten(rs[..|asked|])
  {
    all, asked := [], [];
    assert rs[..0] == [];
    for i := 0 to |SearchTerms|
      invariant asked == SearchTerms[..i]
      invariant all == Flatten(rs[..i])
      invariant |all| <= EarlyExitThreshold
      invariant TermsQueriedFrom(rs, i) == TermsQueried(rs)
    {
      asked := asked + [SearchTerms[i]];
      FlattenStep(rs, i);
      match rs[i]
      case Fail =>
        assert Flatten(rs[..i + 1]) == all;
      case Ok(results) =>
        all := all + results;
        assert all == Flatten(rs[..i + 1]);
        if |all| > EarlyExitThreshold {
          assert TermsQueriedFrom(rs, i) == i + 1;
          break;
        }
    }
  }

  /** The request log of the queried terms. */
  function TermRequests(terms: seq<string>): (r: seq<Request>)
    ensures |r| == |terms|
  {
    seq(|terms|, j requires 0 <= j < |terms| => TermSearch(terms[j]))
  }

  // ------------------------------------------------------------ strategy 4

  /** `keywords.some(keyword => (place.name || '').toLowerCase().includes(keyword))`. */
  predicate IsCandidate(p: RawPoi) {
    ContainsAny(Lower(OrElse(p.name, "")), FieldKeywords)
  }

  function KeywordFilter(places: seq<RawPoi>): seq<RawPoi> {
    Filter(IsCandidate, places)
  }

  /** Strategy 4 keeps exactly the places whose name holds a keyword, as an
      order-preserving sub-list. */
  lemma KeywordFilterSpec(places: seq<RawPoi>, more: seq<RawPoi>)
    ensures forall p :: p in KeywordFilter(places) <==> p in places && IsCandidate(p)
    ensures KeywordFilter(places + more) == KeywordFilter(places) + KeywordFilter(more)
    ensures KeywordFilter(places) == [] <==> forall i :: 0 <= i < |places| ==> !IsCandidate(places[i])
  {
    FilterMembers(IsCandidate, places);
    FilterConcat(IsCandidate, places, more);
    if forall i :: 0 <= i < |places| ==> !IsCandidate(places[i]) {
      FilterNone(IsCandidate, places);
    }
    if KeywordFilter(places) == [] {
      forall i | 0 <= i < |places| ensures !IsCandidate(places[i]) {
        assert places[i] in places;
      }
    }
  }

  // -------------------------------------------------------------- cascade

  /** What each strategy finds, in the order they run. */
  function Candidates(rs: Replies): (c: seq<seq<RawPoi>>)
    ensures |c| == 4
  {
    [ Hits(rs.category),
      Hits(rs.bearer),
      Deduplicated(Flatten(rs.terms[..TermsQueried(rs.terms)])),
      KeywordFilter(Hits(rs.broad)) ]
  }

  /** The index of the first candidate that found something, or the number
      of candidates when none did. */
  function Winner(c: seq<seq<RawPoi>>): (w: nat)
    ensures w <= |c|
    ensures forall j :: 0 <= j < w ==> c[j] == []
    ensures w < |c| ==> c[w] != []
  {
    if c == [] then 0
    else if c[0] != [] then 0
    else
      var w := Winner(c[1..]);
      assert forall j :: 1 <= j < |c| ==> c[j] == c[1..][j - 1];
      1 + w
  }

  /** The fields the search returns when the key is configured. */
  function SearchFields(lat: Coordinate, lon: Coordinate, rs: Replies): seq<Field> {
    var c := Candidates(rs);
    var w := Winner(c);
    if w < |c| then MapFields(c[w], lat, lon) else []
  }

  /** The requests strategy `i` (counted from 0) issues. */
  function StrategyRequests(i: nat, rs: Replies): seq<Request>
    requires i < 4
    requires WellFormed(rs)
  {
    if i == 0 then [CategorySearch(PlainKey)]
    else if i == 1 then [CategorySearch(BearerKey)]
    else if i == 2 then TermRequests(SearchTerms[..TermsQueried(rs.terms)])
    else [BroadCategorySearch]
  }

  /** The requests of the first `n` strategies. */
  function RequestsThrough(n: nat, rs: Replies): seq<Request>
    requires n <= 4
    requires WellFormed(rs)
  {
    if n == 0 then [] else RequestsThrough(n - 1, rs) + StrategyRequests(n - 1, rs)
  }

  /** The requests the search issues when the key is configured: those of
      every strategy up to and including the one that found something. */
  function RequestLog(rs: Replies): seq<Request>
    requires WellFormed(rs)
  {
    var w := Winner(Candidates(rs));
    RequestsThrough(if w < 4 then w + 1 else 4, rs)
  }

  /** `getFootballFields`. */
  method GetFootballFields(apiKey: Option<string>, lat: Coordinate, lon: Coordinate, rs: Replies)
    returns (r: Result<seq<Field>, SearchError>, issued: seq<Request>)
    requires WellFormed(rs)
    ensures !Truthy(apiKey) ==> r == Failure(MissingApiKey) && issued == []
    ensures Truthy(apiKey) ==> r == Success(SearchFields(lat, lon, rs)) && issued == RequestLog(rs)
  {
    if !Truthy(apiKey) {
      return Failure(MissingApiKey), [];
    }
    ghost var c := Candidates(rs);
    // Strategy 1: category search
    issued := [CategorySearch(PlainKey)];
    assert issued == RequestsThrough(1, rs);
    var hits := Hits(rs.category);
    if |hits| > 0 {
      assert Winner(c) == 0;
      return Success(MapFields(hits, lat, lon)), issued;
    }
    // Strategy 2: the same search with a Bearer key
    issued := issued + [CategorySearch(BearerKey)];
    assert issued == RequestsThrough(2, rs);
    hits := Hits(rs.bearer);
    if |hits| > 0 {
      assert Winner(c) == 1;
      return Success(MapFields(hits, lat, lon)), issued;
    }
    // Strategy 3: text search term by term, then de-duplication
    var all, asked := GatherTermResults(rs.terms);
    issued := issued + TermRequests(asked);
    assert issued == RequestsThrough(3, rs);
    var unique := DedupeByKey(all);
    assert c[2] == unique;
    if |unique| > 0 {
      assert Winner(c) == 2;
      return Success(MapFields(unique, lat, lon)), issued;
    }
    // Strategy 4: broad category search filtered by name keywords
    issued := issued + [BroadCategorySearch];
    assert issued == RequestsThrough(4, rs);
    var matching := KeywordFilter(Hits(rs.broad));
    assert c[3] == matching;
    if |matching| > 0 {
      assert Winner(c) == 3;
      return Success(MapFields(matching, lat, lon)), issued;
    }
    assert Winner(c) == 4;
    return Success([]), issued;
  }

  // ------------------------------------------------- cascade properties

  /** The strategies run strictly in order and the first that finds
      something decides the result: its records, mapped, and no request of a
      later strategy. */
  lemma FirstNonEmptyStrategyWins(lat: Coordinate, lon: Coordinate, rs: Replies, i: nat)
    requires WellFormed(rs)
    requires i < 4
    requires Candidates(rs)[i] != []
    requires forall j :: 0 <= j < i ==> Candidates(rs)[j] == []
    ensures SearchFields(lat, lon, rs) == MapFields(Candidates(rs)[i], lat, lon)
    ensures RequestLog(rs) == RequestsThrough(i + 1, rs)
  {
  }

  /** A first category search with results is the only request issued. */
  lemma CategoryHitShortCircuits(lat: Coordinate, lon: Coordinate, rs: Replies)
    requires WellFormed(rs)
    requires Hits(rs.category) != []
    ensures SearchFields(lat, lon, rs) == MapFields(Hits(rs.category), lat, lon)
    ensures RequestLog(rs) == [CategorySearch(PlainKey)]
  {
    FirstNonEmptyStrategyWins(lat, lon, rs, 0);
  }

  /** When every strategy comes back empty the result is the empty list,
      after all four strategies ran; in particular this is so when the
      keyword filter leaves nothing. */
  lemma AllStrategiesEmpty(lat: Coordinate, lon: Coordinate, rs: Replies)
    requires WellFormed(rs)
    requires Hits(rs.category) == [] && Hits(rs.bearer) == []
    requires Flatten(rs.terms[..TermsQueried(rs.terms)]) == []
    requires forall i :: 0 <= i < |Hits(rs.broad)| ==> !IsCandidate(Hits(rs.broad)[i])
    ensures SearchFields(lat, lon, rs) == []
    ensures RequestLog(rs) == RequestsThrough(4, rs)
  {
    DedupLength([]);
    FilterNone(IsCandidate, Hits(rs.broad));
    var c := Candidates(rs);
    assert forall j :: 0 <= j < 4 ==> c[j] == [];
  }

  /** The records gathered from term replies depend only on each reply's hits. */
  lemma {:induction false} FlattenOnlyHits(rs: seq<PlacesReply>, qs: seq<PlacesReply>)
    requires |rs| == |qs|
    requires forall i :: 0 <= i < |rs| ==> Hits(rs[i]) == Hits(qs[i])
    ensures Flatten(rs) == Flatten(qs)
    decreases |rs|
  {
    if rs != [] {
      FlattenOnlyHits(rs[..|rs| - 1], qs[..|qs| - 1]);
    }
  }

  lemma TermsQueriedOnlyHits(rs: seq<PlacesReply>, qs: seq<PlacesReply>)
    requires |rs| == |qs|
    requires forall i :: 0 <= i < |rs| ==> Hits(rs[i]) == Hits(qs[i])
    ensures TermsQueried(rs) == TermsQueried(qs)
    ensures Flatten(rs[..TermsQueried(rs)]) == Flatten(qs[..TermsQueried(qs)])
  {
    forall k | 0 <= k <= |rs| ensures Flatten(rs[..k]) == Flatten(qs[..k]) {
      FlattenOnlyHits(rs[..k], qs[..k]);
    }
    var k := 0;
    assert rs[..0] == [] && qs[..0] == [];
    while k < |rs| && TermsQueriedFrom(rs, k) != k + 1
      invariant 0 <= k <= |rs|
      invariant |Flatten(rs[..k])| <= EarlyExitThreshold
      invariant TermsQueriedFrom(rs, k) == TermsQueried(rs)
      invariant TermsQueriedFrom(qs, k) == TermsQueried(qs)
    {
      k := k + 1;
    }
  }

  /** Each reply counts only through its hits, so a request that fails is
      treated exactly like one that answers with no results. */
  lemma FailureCountsAsEmpty(lat: Coordinate, lon: Coordinate, rs: Replies, qs: Replies)
    requires WellFormed(rs) && WellFormed(qs)
    requires Hits(rs.category) == Hits(qs.category) && Hits(rs.bearer) == Hits(qs.bearer)
    requires Hits(rs.broad) == Hits(qs.broad)
    requires forall i :: 0 <= i < |rs.terms| ==> Hits(rs.terms[i]) == Hits(qs.terms[i])
    ensures SearchFields(lat, lon, rs) == SearchFields(lat, lon, qs)
    ensures RequestLog(rs) == RequestLog(qs)
  {
    TermsQueriedOnlyHits(rs.terms, qs.terms);
    assert Candidates(rs) == Candidates(qs);
    assert StrategyRequests(2, rs) == StrategyRequests(2, qs);
    assert RequestsThrough(1, rs) == RequestsThrough(1, qs);
    assert RequestsThrough(2, rs) == RequestsThrough(2, qs);
    assert RequestsThrough(3, rs) == RequestsThrough(3, qs);
    assert RequestsThrough(4, rs) == RequestsThrough(4, qs);
  }

  /** When strategy 3 decides the result, there is one field per distinct
      key of the gathered records, never more than were gathered. */
  lemma TermSearchReturnsDeduplicated(lat: Coordinate, lon: Coordinate, rs: Replies)
    requires WellFormed(rs)
    requires Hits(rs.category) == [] && Hits(rs.bearer) == []
    requires Flatten(rs.terms[..TermsQueried(rs.terms)]) != []
    ensures var gathered := Flatten(rs.terms[..TermsQueried(rs.terms)]);
      && SearchFields(lat, lon, rs) == MapFields(Deduplicated(gathered), lat, lon)
      && |SearchFields(lat, lon, rs)| <= |gathered|
  {
    var gathered := Flatten(rs.terms[..TermsQueried(rs.terms)]);
    DedupLength(gathered);
    FirstNonEmptyStrategyWins(lat, lon, rs, 2);
  }

  /** Only strategy 3 de-duplicates: two category results with the same id
      come back as two fields with that id. */
  lemma CategorySearchKeepsDuplicateIds(lat: Coordinate, lon: Coordinate, rs: Replies, p: RawPoi)
    requires WellFormed(rs)
    requires p.fsqId == Some("abc")
    requires rs.category == Ok([p, p])
    ensures |SearchFields(lat, lon, rs)| == 2
    ensures SearchFields(lat, lon, rs)[0].id == SearchFields(lat, lon, rs)[1].id == "abc"
  {
    CategoryHitShortCircuits(lat, lon, rs);
  }

  /** After de-duplication the field ids are unique, provided no upstream id
      itself looks like a synthesized `field-N`. */
  lemma DeduplicatedIdsUnique(s: seq<RawPoi>, lat: Coordinate, lon: Coordinate)
    requires forall i :: 0 <= i < |s| && Truthy(s[i].fsqId) ==> !StartsWith(s[i].fsqId.value, "field-")
    ensures var f := MapFields(Deduplicated(s), lat, lon);
      forall a, b :: 0 <= a < b < |f| ==> f[a].id != f[b].id
  {
    var d := Deduplicated(s);
    var f := MapFields(d, lat, lon);
    DedupOnePerKey(s);
    forall a, b | 0 <= a < b < |f| ensures f[a].id != f[b].id {
      DedupKeepsLast(s, a);
      DedupKeepsLast(s, b);
      assert KeyOf(d[a]) != KeyOf(d[b]);
      var na, nb := NatToString(a + 1), NatToString(b + 1);
      if Truthy(d[a].fsqId) && !Truthy(d[b].fsqId) {
        assert f[b].id == "field-" + nb;
        assert StartsWith(f[b].id, "field-");
      } else if !Truthy(d[a].fsqId) && Truthy(d[b].fsqId) {
        assert f[a].id == "field-" + na;
        assert StartsWith(f[a].id, "field-");
      } else if !Truthy(d[a].fsqId) && !Truthy(d[b].fsqId) {
        if f[a].id == f[b].id {
          assert ("field-" + na)[6..] == na;
          assert ("field-" + nb)[6..] == nb;
          NatToStringInjective(a + 1, b + 1);
        }
      }
    }
  }
}
