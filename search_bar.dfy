/** The recent-search history of src/components/SearchBar.tsx: a bounded
    most-recently-used list with move-to-front. */
module SearchBar {
  import opened Wrappers
  import opened Text
  import opened Seqs

  /** The list never holds more entries than this. */
  const MaxRecent: nat := 5

  function Min(a: nat, b: nat): nat {
    if a < b then a else b
  }

  function Without(s: seq<string>, city: string): seq<string> {
    Filter(x => x != city, s)
  }

  /** The list `handleSearch(city)` stores: a new city goes in front of the
      first four entries; a known one is moved to the front and the list cut
      to five. */
  function NextRecent(prev: seq<string>, city: string): seq<string> {
    if city !in prev then [city] + prev[..Min(4, |prev|)]
    else
      var moved := [city] + Without(prev, city);
      moved[..Min(MaxRecent, |moved|)]
  }

  lemma WithoutFacts(s: seq<string>, city: string)
    ensures city !in Without(s, city)
    ensures forall x :: x in Without(s, city) <==> x in s && x != city
  {
    FilterMembers(x => x != city, s);
  }

  /** After a search the searched city heads the list and occurs in it
      exactly once, and the list has at most five entries. */
  lemma NextRecentHead(prev: seq<string>, city: string)
    ensures var next := NextRecent(prev, city);
      |next| <= MaxRecent && |next| > 0 && next[0] == city && multiset(next)[city] == 1
  {
    var next := NextRecent(prev, city);
    if city !in prev {
      assert city !in prev[..Min(4, |prev|)];
      assert next == [city] + prev[..Min(4, |prev|)];
      assert multiset(next) == multiset{city} + multiset(prev[..Min(4, |prev|)]);
    } else {
      WithoutFacts(prev, city);
      var rest := Without(prev, city);
      var moved := [city] + rest;
      var n := Min(MaxRecent, |moved|);
      assert next == [city] + rest[..n - 1];
      assert forall x | x in rest[..n - 1] :: x in rest;
      assert multiset(next) == multiset{city} + multiset(rest[..n - 1]);
    }
  }

  /** A city not in the list is prepended; only entries beyond the first
      four of the old list are dropped, and those kept keep their order. */
  lemma NewCityPrepended(prev: seq<string>, city: string)
    requires city !in prev
    ensures var next := NextRecent(prev, city);
      && |next| == Min(MaxRecent, |prev| + 1)
      && next[0] == city
      && next[1..] == prev[..|next| - 1]
  {
  }

  /** A city already in a list of at most five entries moves to the front;
      every other entry stays, in its old order. */
  lemma KnownCityMovedToFront(prev: seq<string>, city: string)
    requires city in prev
    requires |prev| <= MaxRecent
    ensures var next := NextRecent(prev, city);
      && next[0] == city
      && next[1..] == Without(prev, city)
      && forall x :: x in next <==> x in prev
  {
    WithoutFacts(prev, city);
    var rest := Without(prev, city);
    assert |rest| < |prev| by {
      var i :| 0 <= i < |prev| && prev[i] == city;
      FilterConcat(x => x != city, prev[..i], prev[i..]);
      assert prev == prev[..i] + prev[i..];
      assert prev[i..] == [city] + prev[i + 1..];
      FilterConcat(x => x != city, [city], prev[i + 1..]);
      assert |Without(prev[..i], city)| <= |prev[..i]|;
      assert |Without(prev[i + 1..], city)| <= |prev[i + 1..]|;
    }
  }

  /** A list without repeated entries still has none after a search. */
  lemma NextRecentNoDup(prev: seq<string>, city: string)
    requires NoDup(prev)
    ensures NoDup(NextRecent(prev, city))
  {
    var next := NextRecent(prev, city);
    NextRecentHead(prev, city);
    if city !in prev {
      var kept := prev[..Min(4, |prev|)];
      assert next == [city] + kept;
      forall i, j | 0 <= i < j < |next| ensures next[i] != next[j] {
        if i == 0 {
          assert next[j] == kept[j - 1] == prev[j - 1];
        } else {
          assert next[i] == prev[i - 1] && next[j] == prev[j - 1];
        }
      }
    } else {
      WithoutNoDup(prev, city);
      WithoutFacts(prev, city);
      var rest := Without(prev, city);
      var moved := [city] + rest;
      var n := Min(MaxRecent, |moved|);
      assert next == [city] + rest[..n - 1];
      forall i, j | 0 <= i < j < |next| ensures next[i] != next[j] {
        if i == 0 {
          assert next[j] == rest[j - 1];
          assert rest[j - 1] in rest;
        } else {
          assert next[i] == rest[i - 1] && next[j] == rest[j - 1];
        }
      }
    }
  }

  lemma {:induction false} WithoutNoDup(s: seq<string>, city: string)
    requires NoDup(s)
    ensures NoDup(Without(s, city))
  {
    if s != [] {
      WithoutNoDup(s[1..], city);
      FilterMembers(x => x != city, s[1..]);
      assert forall j | 0 <= j < |s[1..]| :: s[1..][j] == s[j + 1];
    }
  }

  /** Searching the same city twice leaves the list as searching it once. */
  lemma NextRecentIdempotent(prev: seq<string>, city: string)
    ensures NextRecent(NextRecent(prev, city), city) == NextRecent(prev, city)
  {
    var once := NextRecent(prev, city);
    NextRecentHead(prev, city);
    assert city in once;
    var rest := once[1..];
    assert city !in rest by {
      assert once == [city] + rest;
      assert multiset(once) == multiset{city} + multiset(rest);
    }
    assert Without(once, city) == rest by {
      assert once == [city] + rest;
      FilterConcat(x => x != city, [city], rest);
      FilterAll(x => x != city, rest);
    }
  }

  /** The state of the search bar component. */
  class SearchBarState {
    var recentSearches: seq<string>
    var query: string
    var isFocused: bool

    /** What every search and every clearing restores: a short list without
        repeated entries. */
    ghost predicate Valid()
      reads this
    {
      |recentSearches| <= MaxRecent && NoDup(recentSearches)
    }

    /** A fresh component: nothing typed, and the history saved from an
        earlier session, or none (`saved` is the decoded stored list). */
    constructor (saved: Option<seq<string>>)
      ensures recentSearches == saved.GetOr([]) && query == "" && !isFocused
      ensures |saved.GetOr([])| <= MaxRecent && NoDup(saved.GetOr([])) ==> Valid()
    {
      recentSearches := saved.GetOr([]);
      query := "";
      isFocused := false;
    }

    /** The input's `onChange`. */
    method SetQuery(text: string)
      modifies this
      ensures query == text
      ensures recentSearches == old(recentSearches) && isFocused == old(isFocused)
      ensures Valid() == old(Valid())
    {
      query := text;
    }

    /** `handleSearch(city)`; `searched` is the city passed to `onSearch`.
        Whatever list was loaded, the new one has at most five entries; a
        list without repeats keeps none. */
    method HandleSearch(city: string) returns (searched: string)
      modifies this
      ensures recentSearches == NextRecent(old(recentSearches), city)
      ensures |recentSearches| <= MaxRecent
      ensures NoDup(old(recentSearches)) ==> Valid()
      ensures query == city && !isFocused && searched == city
    {
      NextRecentHead(recentSearches, city);
      if NoDup(recentSearches) {
        NextRecentNoDup(recentSearches, city);
      }
      recentSearches := NextRecent(recentSearches, city);
      query := city;
      isFocused := false;
      searched := city;
    }

    /** `handleSubmit`: a search of the untrimmed query, only when the
        trimmed query is not empty. */
    method HandleSubmit() returns (searched: Option<string>)
      modifies this
      ensures old(Valid()) ==> Valid()
      ensures Trim(old(query)) != "" ==>
        && searched == Some(old(query))
        && recentSearches == NextRecent(old(recentSearches), old(query))
        && query == old(query) && !isFocused
      ensures Trim(old(query)) == "" ==>
        searched == None && recentSearches == old(recentSearches) &&
        query == old(query) && isFocused == old(isFocused)
    {
      if Trim(query) != "" {
        var city := HandleSearch(query);
        searched := Some(city);
      } else {
        searched := None;
      }
    }

    /** `clearRecentSearches`. */
    method ClearRecentSearches()
      modifies this
      ensures Valid()
      ensures recentSearches == []
      ensures query == old(query) && isFocused == old(isFocused)
    {
      recentSearches := [];
    }
  }
}
