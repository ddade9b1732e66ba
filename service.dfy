/**
 * The driver service: pagination defaults in front of the store's listing,
 * pass-through create and update, and the nearby-driver query, which scans
 * the filtered candidates, keeps those within the radius, projects each into
 * a result carrying its distance, and sorts the results by distance.
 */
module Service {
  import opened Wrappers
  import opened ObjectIds
  import opened Models
  import opened Repository

  /** The radius of a nearby query, in kilometres. */
  const NEARBY_RADIUS_KM: real := 6.0

  /** The page size a listing uses when none (or a non-positive one) is asked for. */
  const DEFAULT_PAGE_SIZE := 20

  /** Great-circle distance in kilometres from (lat1, lon1) to (lat2, lon2). */
  type Distance = (real, real, real, real) -> real

  // ---------------------------------------------------------------------------
  // Listing defaults

  datatype PageRequest = PageRequest(page: int, size: int)

  /** Replaces a page below 1 by 1 and a page size below 1 by the default; passes other values through. */
  function Defaulted(page: int, pageSize: int): (q: PageRequest)
    ensures q.page >= 1 && q.size >= 1
    ensures page >= 1 ==> q.page == page
    ensures pageSize >= 1 ==> q.size == pageSize
    ensures page < 1 ==> q.page == 1
    ensures pageSize < 1 ==> q.size == DEFAULT_PAGE_SIZE
  {
    PageRequest(if page < 1 then 1 else page, if pageSize < 1 then DEFAULT_PAGE_SIZE else pageSize)
  }

  /** Asking for page 0 of size 0 is asking for the first page of the default size. */
  lemma DefaultedZeroIsFirstPage(docs: seq<Driver>, available: bool)
    ensures Defaulted(0, 0) == Defaulted(1, DEFAULT_PAGE_SIZE)
    ensures var q := Defaulted(0, 0);
      ListPage(docs, available, q.page, q.size) == ListPage(docs, available, 1, DEFAULT_PAGE_SIZE)
  {
  }

  /** Defaulting is idempotent. */
  lemma DefaultedIdempotent(page: int, pageSize: int)
    ensures var q := Defaulted(page, pageSize); Defaulted(q.page, q.size) == q
  {
  }

  /** After defaulting the store's skip is never negative, so a live store never refuses a listing. */
  lemma DefaultedSkipNonNegative(docs: seq<Driver>, page: int, pageSize: int)
    ensures var q := Defaulted(page, pageSize);
      Skip(q.page, q.size) >= 0 && ListPage(docs, true, q.page, q.size).Success?
  {
  }

  // ---------------------------------------------------------------------------
  // The skip as the 64-bit arithmetic computes it

  const INT64_MIN := -0x8000_0000_0000_0000
  const INT64_MAX := 0x7fff_ffff_ffff_ffff

  predicate InInt64(x: int) { INT64_MIN <= x <= INT64_MAX }

  /** Two's-complement wrap-around of a mathematical integer into 64 bits. */
  function WrapInt64(x: int): (r: int)
    ensures InInt64(r)
    ensures InInt64(x) ==> r == x
  {
    (x - INT64_MIN) % 0x1_0000_0000_0000_0000 + INT64_MIN
  }

  /** `(page - 1) * pageSize` evaluated with 64-bit machine integers. */
  function Skip64(page: int, pageSize: int): (r: int)
    requires InInt64(page) && InInt64(pageSize)
    ensures InInt64(r)
    ensures InInt64(Skip(page, pageSize)) ==> r == Skip(page, pageSize)
  {
    WrapInt64(WrapInt64(page - 1) * pageSize)
  }

  /**
   * Page 2^62 + 1 of size 2 passes the defaulting untouched, yet its 64-bit
   * skip wraps to the most negative value, which the store refuses; the
   * unbounded skip is 2^63 and the page is simply empty.
   */
  lemma WrappedSkipGoesNegative(docs: seq<Driver>)
    requires |docs| < 0x8000_0000_0000_0000
    ensures var page, size := 0x4000_0000_0000_0001, 2;
      && Defaulted(page, size) == PageRequest(page, size)
      && Skip64(page, size) == INT64_MIN
      && Find(docs, true, Skip64(page, size), size) == Failure(NegativeSkip)
      && Skip(page, size) == 0x8000_0000_0000_0000
      && ListPage(docs, true, page, size) == Success([])
  {
    NewestFirstLength(docs);
  }

  // ---------------------------------------------------------------------------
  // Nearby query

  /** A driver's public fields and its distance from the query point. */
  datatype NearbyDriver = NearbyDriver(
    id: ObjectId,
    firstName: string,
    lastName: string,
    plate: string,
    taxiType: string,
    location: Location,
    distanceKm: real)

  function Project(d: Driver, distanceKm: real): NearbyDriver {
    NearbyDriver(d.id, d.firstName, d.lastName, d.plate, d.taxiType, d.location, distanceKm)
  }

  function DistanceTo(distance: Distance, lat: real, lon: real, d: Driver): real {
    distance(lat, lon, d.location.lat, d.location.lon)
  }

  predicate InRadius(distance: Distance, lat: real, lon: real, d: Driver) {
    DistanceTo(distance, lat, lon, d) <= NEARBY_RADIUS_KM
  }

  /** The result a driver yields for the query point. */
  function ProjectAt(distance: Distance, lat: real, lon: real, d: Driver): NearbyDriver {
    Project(d, DistanceTo(distance, lat, lon, d))
  }

  /** The projections of the candidates within the radius, in candidate order. */
  function Nearby(cands: seq<Driver>, lat: real, lon: real, distance: Distance): (r: seq<NearbyDriver>)
    ensures |r| <= |cands|
  {
    if cands == [] then []
    else
      var last := cands[|cands| - 1];
      var dist := DistanceTo(distance, lat, lon, last);
      Nearby(cands[..|cands| - 1], lat, lon, distance)
        + (if dist <= NEARBY_RADIUS_KM then [Project(last, dist)] else [])
  }

  /**
   * A result is in the nearby set if and only if it is the projection of a
   * candidate within the radius, carrying that candidate's distance.
   */
  lemma {:induction false} NearbyMembers(cands: seq<Driver>, lat: real, lon: real, distance: Distance)
    ensures forall x :: x in Nearby(cands, lat, lon, distance) <==>
      exists k :: 0 <= k < |cands| && DistanceTo(distance, lat, lon, cands[k]) <= NEARBY_RADIUS_KM
        && x == Project(cands[k], DistanceTo(distance, lat, lon, cands[k]))
  {
    if cands != [] {
      var init := cands[..|cands| - 1];
      NearbyMembers(init, lat, lon, distance);
      forall k | 0 <= k < |init| ensures init[k] == cands[k] { }
    }
  }

  /** A result carries the identifier of one of the candidates. */
  lemma {:induction false} NearbyAvoidsId(cands: seq<Driver>, lat: real, lon: real, distance: Distance, id: ObjectId)
    requires forall i :: 0 <= i < |cands| ==> cands[i].id != id
    ensures forall x :: x in Nearby(cands, lat, lon, distance) ==> x.id != id
  {
    if cands != [] {
      var init := cands[..|cands| - 1];
      assert forall i :: 0 <= i < |init| ==> init[i] == cands[i];
      NearbyAvoidsId(init, lat, lon, distance, id);
    }
  }

  /** Scanning one more candidate appends its result, if it is within the radius. */
  lemma NearbyExtend(cands: seq<Driver>, i: int, lat: real, lon: real, distance: Distance)
    requires 0 <= i < |cands|
    ensures Nearby(cands[..i + 1], lat, lon, distance) == Nearby(cands[..i], lat, lon, distance)
      + if InRadius(distance, lat, lon, cands[i]) then [ProjectAt(distance, lat, lon, cands[i])] else []
  {
    assert cands[..i + 1][..i] == cands[..i];
  }

  /** The results of the candidates before the last one and the last one's own. */
  lemma NearbySplit(cands: seq<Driver>, lat: real, lon: real, distance: Distance)
    requires cands != []
    ensures var last := cands[|cands| - 1];
      multiset(Nearby(cands, lat, lon, distance))
        == multiset(Nearby(cands[..|cands| - 1], lat, lon, distance))
         + if InRadius(distance, lat, lon, last) then multiset{ProjectAt(distance, lat, lon, last)} else multiset{}
  {
  }

  /** With distinct identifiers among the candidates, each one within the radius yields exactly one result. */
  lemma {:induction false} NearbyOnce(cands: seq<Driver>, lat: real, lon: real, distance: Distance, k: int)
    requires UniqueIds(cands)
    requires 0 <= k < |cands| && InRadius(distance, lat, lon, cands[k])
    ensures multiset(Nearby(cands, lat, lon, distance))[ProjectAt(distance, lat, lon, cands[k])] == 1
  {
    var n := |cands| - 1;
    var init := cands[..n];
    NearbySplit(cands, lat, lon, distance);
    if k == n {
      NearbyAvoidsId(init, lat, lon, distance, cands[n].id);
      assert ProjectAt(distance, lat, lon, cands[k]) !in multiset(Nearby(init, lat, lon, distance));
    } else {
      assert init[k] == cands[k];
      NearbyOnce(init, lat, lon, distance, k);
      assert ProjectAt(distance, lat, lon, cands[n]) != ProjectAt(distance, lat, lon, cands[k]);
    }
  }

  predicate SortedByDistance(s: seq<NearbyDriver>) {
    forall i, j :: 0 <= i < j < |s| ==> s[i].distanceKm <= s[j].distanceKm
  }

  /**
   * Every record of the requested type (any type for the empty filter)
   * within the radius appears exactly once in any arrangement of the nearby
   * set.
   */
  lemma NearbyExactlyOnce(docs: seq<Driver>, taxiType: string, lat: real, lon: real, distance: Distance,
                          results: seq<NearbyDriver>)
    requires ValidCollection(docs)
    requires multiset(results) == multiset(Nearby(Matching(docs, taxiType), lat, lon, distance))
    ensures forall d | d in docs && MatchesType(d, taxiType) && InRadius(distance, lat, lon, d) ::
      multiset(results)[ProjectAt(distance, lat, lon, d)] == 1
  {
    var cands := Matching(docs, taxiType);
    MatchingMembers(docs, taxiType);
    MatchingUniqueIds(docs, taxiType);
    forall d | d in docs && MatchesType(d, taxiType) && InRadius(distance, lat, lon, d)
      ensures multiset(results)[ProjectAt(distance, lat, lon, d)] == 1
    {
      assert d in cands;
      var k :| 0 <= k < |cands| && cands[k] == d;
      NearbyOnce(cands, lat, lon, distance, k);
    }
  }

  /**
   * Nothing else appears: every result is the projection of a record of the
   * requested type within the radius, with that record's distance.
   */
  lemma NearbyOnlyMatches(docs: seq<Driver>, taxiType: string, lat: real, lon: real, distance: Distance,
                          results: seq<NearbyDriver>)
    requires multiset(results) == multiset(Nearby(Matching(docs, taxiType), lat, lon, distance))
    ensures forall x | x in results ::
      exists d | d in docs && MatchesType(d, taxiType) && InRadius(distance, lat, lon, d) ::
        x == ProjectAt(distance, lat, lon, d)
    ensures forall k | 0 <= k < |results| ::
      results[k].distanceKm <= NEARBY_RADIUS_KM && (taxiType == "" || results[k].taxiType == taxiType)
  {
    var cands := Matching(docs, taxiType);
    MatchingMembers(docs, taxiType);
    NearbyMembers(cands, lat, lon, distance);
    forall x | x in results
      ensures exists d | d in docs && MatchesType(d, taxiType) && InRadius(distance, lat, lon, d) ::
        x == ProjectAt(distance, lat, lon, d)
    {
      assert x in multiset(results);
      assert x in Nearby(cands, lat, lon, distance);
      var k :| 0 <= k < |cands| && DistanceTo(distance, lat, lon, cands[k]) <= NEARBY_RADIUS_KM
        && x == Project(cands[k], DistanceTo(distance, lat, lon, cands[k]));
      assert cands[k] in cands;
    }
    forall k | 0 <= k < |results|
      ensures results[k].distanceKm <= NEARBY_RADIUS_KM && (taxiType == "" || results[k].taxiType == taxiType)
    {
      assert results[k] in results;
    }
  }

  method Swap(a: array<NearbyDriver>, i: int, j: int)
    requires 0 <= i < a.Length && 0 <= j < a.Length
    modifies a
    ensures a[i] == old(a[j]) && a[j] == old(a[i])
    ensures forall k :: 0 <= k < a.Length && k != i && k != j ==> a[k] == old(a[k])
    ensures multiset(a[..]) == old(multiset(a[..]))
  {
    a[i], a[j] := a[j], a[i];
  }

  /** Sorts the results in place by distance, nearest first; equal distances keep no promised order. */
  method SortByDistance(a: array<NearbyDriver>)
    modifies a
    ensures SortedByDistance(a[..])
    ensures multiset(a[..]) == old(multiset(a[..]))
  {
    var i := 0;
    while i < a.Length
      invariant 0 <= i <= a.Length
      invariant forall p, q :: 0 <= p < q < i ==> a[p].distanceKm <= a[q].distanceKm
      invariant multiset(a[..]) == old(multiset(a[..]))
    {
      var j := i;
      while j > 0 && a[j - 1].distanceKm > a[j].distanceKm
        invariant 0 <= j <= i
        invariant forall p, q :: 0 <= p < q <= i && p != j && q != j ==> a[p].distanceKm <= a[q].distanceKm
        invariant forall q :: j < q <= i ==> a[j].distanceKm < a[q].distanceKm
        invariant multiset(a[..]) == old(multiset(a[..]))
      {
        Swap(a, j - 1, j);
        j := j - 1;
      }
      i := i + 1;
    }
  }

  // ---------------------------------------------------------------------------
  // The service object

  class DriverService {
    const repo: DriverRepository

    constructor (repo: DriverRepository)
      ensures this.repo == repo
    {
      this.repo := repo;
    }

    /** Hands the record to the store and returns the store's answer unchanged. */
    method CreateDriver(d: Driver, now: Time, generated: ObjectId) returns (r: Result<string, Error>)
      requires repo.Valid()
      requires generated != NIL_OBJECT_ID && !HasId(repo.docs, generated)
      modifies repo
      ensures repo.Valid() && repo.available == old(repo.available)
      ensures Step(r, repo.docs) == CreateStep(old(repo.docs), old(repo.available), d, now, generated)
    {
      r := repo.Create(d, now, generated);
    }

    /** Hands the identifier and record to the store and returns the store's answer unchanged. */
    method UpdateDriver(id: string, d: Driver, now: Time) returns (r: Result<(), Error>)
      requires repo.Valid()
      modifies repo
      ensures repo.Valid() && repo.available == old(repo.available)
      ensures Step(r, repo.docs) == UpdateStep(old(repo.docs), old(repo.available), id, d, now)
    {
      r := repo.Update(id, d, now);
    }

    /** The store's listing for the defaulted page and page size. */
    method ListDrivers(page: int, pageSize: int) returns (r: Result<seq<Driver>, Error>)
      ensures var q := Defaulted(page, pageSize); r == ListPage(repo.docs, repo.available, q.page, q.size)
      ensures r.Success? <==> repo.available
      ensures r.Success? ==> |r.value| <= Defaulted(page, pageSize).size
    {
      var p, size := page, pageSize;
      if p < 1 {
        p := 1;
      }
      if size < 1 {
        size := DEFAULT_PAGE_SIZE;
      }
      DefaultedSkipNonNegative(repo.docs, page, pageSize);
      r := repo.List(p, size);
    }

    /**
     * The drivers of type `taxiType` (any type when empty) within the radius
     * of (lat, lon), each with its distance, nearest first.
     */
    method FindNearby(lat: real, lon: real, taxiType: string, distance: Distance)
      returns (r: Result<seq<NearbyDriver>, Error>)
      ensures !repo.available ==> r == Failure(StoreUnavailable)
      ensures r.Success? <==> repo.available
      ensures r.Success? ==> SortedByDistance(r.value)
      ensures r.Success? ==>
        multiset(r.value) == multiset(Nearby(Matching(repo.docs, taxiType), lat, lon, distance))
      ensures r.Success? ==> forall k :: 0 <= k < |r.value| ==>
        r.value[k].distanceKm <= NEARBY_RADIUS_KM && (taxiType == "" || r.value[k].taxiType == taxiType)
    {
      var candidates := repo.Search(taxiType);
      if candidates.Failure? {
        return Failure(candidates.error);
      }
      var cands := candidates.value;
      var results: seq<NearbyDriver> := [];
      var i := 0;
      while i < |cands|
        invariant 0 <= i <= |cands|
        invariant results == Nearby(cands[..i], lat, lon, distance)
      {
        var d := cands[i];
        var dist := distance(lat, lon, d.location.lat, d.location.lon);
        NearbyExtend(cands, i, lat, lon, distance);
        if dist <= NEARBY_RADIUS_KM {
          results := results + [Project(d, dist)];
        }
        i := i + 1;
      }
      assert cands[..i] == cands;
      var a := new NearbyDriver[|results|](k requires 0 <= k < |results| => results[k]);
      assert a[..] == results;
      SortByDistance(a);
      r := Success(a[..]);
      NearbyOnlyMatches(repo.docs, taxiType, lat, lon, distance, a[..]);
    }
  }
}
