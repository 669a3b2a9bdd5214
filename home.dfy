/**
 * The discovery screen's state and its two search handlers.
 *
 * Each handler is an `async` function that changes the state, awaits the
 * Places service, and changes the state again. It is modelled in two
 * steps around the await: `Begin...` runs up to the await and returns the
 * requests to issue, `Complete...` takes what the service reported and
 * runs the rest, including the `finally` block. `SearchNearbyShops` and
 * `SearchByKeyword` run both steps back to back, with the service given as
 * a function from request to outcome.
 */
module Home {
  import opened Wrappers
  import opened Places
  import opened Categories
  import opened JsMap
  import opened Merge
  import opened CategorySearch
  import opened Keyword

  /** The requests of a category search: one per phrase, in the table's order, each around `center`. */
  function CategoryRequests(category: string, center: Location): (rs: seq<SearchRequest>)
    ensures |rs| == |QueriesFor(category)|
    ensures forall i :: 0 <= i < |rs| ==>
      rs[i] == SearchRequest(QueriesFor(category)[i], center, 20000, ByDistance)
  {
    seq(|QueriesFor(category)|, i requires 0 <= i < |QueriesFor(category)| =>
      RequestFor(QueriesFor(category)[i], center))
  }

  /** What the service reports for each request, in the order of the requests (`Promise.all` keeps it). */
  function Answers(search: SearchRequest -> SearchOutcome, requests: seq<SearchRequest>): (outcomes: seq<SearchOutcome>)
    ensures |outcomes| == |requests|
    ensures forall i :: 0 <= i < |requests| ==> outcomes[i] == search(requests[i])
  {
    seq(|requests|, i requires 0 <= i < |requests| => search(requests[i]))
  }

  class HomeScreen {
    var userLocation: Option<Location>
    var selectedCategory: Option<string>
    var nearbyShops: seq<Shop>
    var isLoading: bool
    var searchKeyword: string

    /** The screen as first rendered: no location yet, nothing selected, nothing listed. */
    constructor ()
      ensures userLocation == None && selectedCategory == None
      ensures nearbyShops == [] && !isLoading && searchKeyword == ""
    {
      userLocation := None;
      selectedCategory := None;
      nearbyShops := [];
      isLoading := false;
      searchKeyword := "";
    }

    /** The geolocation success callback stores the device's position. */
    method LocationFound(lat: real, lng: real)
      modifies this
      ensures userLocation == Some(Location(Degrees(lat), Degrees(lng)))
      ensures selectedCategory == old(selectedCategory) && nearbyShops == old(nearbyShops)
      ensures isLoading == old(isLoading) && searchKeyword == old(searchKeyword)
    {
      userLocation := Some(Location(Degrees(lat), Degrees(lng)));
    }

    /** The search box's change handler. */
    method KeywordTyped(text: string)
      modifies this
      ensures searchKeyword == text
      ensures userLocation == old(userLocation) && selectedCategory == old(selectedCategory)
      ensures nearbyShops == old(nearbyShops) && isLoading == old(isLoading)
    {
      searchKeyword := text;
    }

    /**
     * `searchNearbyShops(category)` up to the await. Without a location
     * nothing happens; otherwise the screen shows it is loading, marks the
     * category as selected, and issues one request per phrase of the
     * category, in the table's order, around the user's location.
     */
    method BeginCategorySearch(category: string) returns (started: bool, requests: seq<SearchRequest>)
      modifies this
      ensures started <==> old(userLocation).Some?
      ensures !started ==> requests == [] && unchanged(this)
      ensures started ==> isLoading && selectedCategory == Some(category)
      ensures started ==> requests == CategoryRequests(category, old(userLocation).value)
      ensures userLocation == old(userLocation) && nearbyShops == old(nearbyShops)
      ensures searchKeyword == old(searchKeyword)
    {
      if userLocation.None? {
        return false, [];
      }
      isLoading := true;
      selectedCategory := Some(category);
      requests := CategoryRequests(category, userLocation.value);
      started := true;
    }

    /**
     * `searchNearbyShops` after the await. When every phrase reported `OK`
     * the merged, deduplicated list is stored; when the join rejected, the
     * error is only logged and the previous list stays. Loading ends either way.
     */
    method CompleteCategorySearch(outcomes: seq<SearchOutcome>)
      modifies this
      ensures !isLoading
      ensures CategoryShops(outcomes).Some? ==>
        nearbyShops == CategoryShops(outcomes).value && Distinct(ShopIds(nearbyShops))
      ensures CategoryShops(outcomes).None? ==> nearbyShops == old(nearbyShops)
      ensures userLocation == old(userLocation) && selectedCategory == old(selectedCategory)
      ensures searchKeyword == old(searchKeyword)
    {
      var merged := CategoryShops(outcomes);
      if merged.Some? {
        nearbyShops := merged.value;
      }
      isLoading := false;
    }

    /** `searchNearbyShops(category)` from start to end, with `search` standing for the Places service. */
    method SearchNearbyShops(category: string, search: SearchRequest -> SearchOutcome)
      modifies this
      ensures old(userLocation).None? ==> unchanged(this)
      ensures old(userLocation).Some? ==> !isLoading && selectedCategory == Some(category)
      ensures old(userLocation).Some? ==>
        var outcomes := Answers(search, CategoryRequests(category, old(userLocation).value));
        nearbyShops == if CategoryShops(outcomes).Some? then CategoryShops(outcomes).value else old(nearbyShops)
      ensures userLocation == old(userLocation) && searchKeyword == old(searchKeyword)
    {
      var started, requests := BeginCategorySearch(category);
      if started {
        CompleteCategorySearch(Answers(search, requests));
      }
    }

    /**
     * `searchByKeyword(keyword)` up to the await. Without a location, or
     * with a keyword that is blank once trimmed, nothing happens; otherwise
     * the screen shows it is loading, clears the selected category, and
     * issues one request for the untrimmed keyword followed by " 수리".
     */
    method BeginKeywordSearch(keyword: string) returns (request: Option<SearchRequest>)
      modifies this
      ensures request.Some? <==> old(userLocation).Some? && Trim(keyword) != ""
      ensures request.None? ==> unchanged(this)
      ensures request.Some? ==> isLoading && selectedCategory == None
      ensures request.Some? ==>
        request.value == SearchRequest(KeywordPhrase(keyword), old(userLocation).value, 20000, ByDistance)
      ensures userLocation == old(userLocation) && nearbyShops == old(nearbyShops)
      ensures searchKeyword == old(searchKeyword)
    {
      if userLocation.None? || Trim(keyword) == "" {
        return None;
      }
      isLoading := true;
      selectedCategory := None;
      request := Some(RequestFor(KeywordPhrase(keyword), userLocation.value));
    }

    /**
     * `searchByKeyword` after the await: the found places when the status
     * was `OK`, and the empty list for `ZERO_RESULT` and for a failure.
     * Loading ends either way.
     */
    method CompleteKeywordSearch(outcome: SearchOutcome)
      modifies this
      ensures !isLoading
      ensures outcome.Ok? ==> nearbyShops == ToShops(outcome.places)
      ensures !outcome.Ok? ==> nearbyShops == []
      ensures userLocation == old(userLocation) && selectedCategory == old(selectedCategory)
      ensures searchKeyword == old(searchKeyword)
    {
      nearbyShops := KeywordShops(outcome);
      isLoading := false;
    }

    /** `searchByKeyword(keyword)` from start to end, with `search` standing for the Places service. */
    method SearchByKeyword(keyword: string, search: SearchRequest -> SearchOutcome)
      modifies this
      ensures old(userLocation).None? || Trim(keyword) == "" ==> unchanged(this)
      ensures old(userLocation).Some? && Trim(keyword) != "" ==>
        && !isLoading && selectedCategory == None
        && nearbyShops == KeywordShops(search(SearchRequest(KeywordPhrase(keyword), old(userLocation).value, 20000, ByDistance)))
      ensures userLocation == old(userLocation) && searchKeyword == old(searchKeyword)
    {
      var request := BeginKeywordSearch(keyword);
      if request.Some? {
        CompleteKeywordSearch(search(request.value));
      }
    }

    /** The search form's submit handler: a keyword search for what the box holds. */
    method HandleSearch(search: SearchRequest -> SearchOutcome)
      modifies this
      ensures old(userLocation).None? || Trim(old(searchKeyword)) == "" ==> unchanged(this)
      ensures old(userLocation).Some? && Trim(old(searchKeyword)) != "" ==>
        && !isLoading && selectedCategory == None
        && nearbyShops == KeywordShops(search(SearchRequest(KeywordPhrase(old(searchKeyword)), old(userLocation).value, 20000, ByDistance)))
      ensures userLocation == old(userLocation) && searchKeyword == old(searchKeyword)
    {
      SearchByKeyword(searchKeyword, search);
    }
  }
}
