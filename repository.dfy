/**
 * The "drivers" collection and the four store operations on it: create,
 * update by identifier, paginated newest-first listing, and a scan filtered
 * by taxi type. Each operation is a method of `DriverRepository` that is
 * proved against a function of the collection before the call; the lemmas
 * below state what those functions promise.
 */
module Repository {
  import opened Wrappers
  import opened ObjectIds
  import opened Models

  /** The errors a store call returns. */
  datatype Error =
    | InvalidIdFormat    // "invalid id format": the identifier text does not parse
    | DriverNotFound     // "driver not found": no record matched the identifier
    | DuplicateKey       // the insert carried an identifier already in the collection
    | NegativeSkip       // the store refuses a find whose skip is negative
    | StoreUnavailable   // the store did not answer

  /** What a store call returns, with the collection it leaves behind. */
  datatype Step<T> = Step(result: Result<T, Error>, docs: seq<Driver>)

  // ---------------------------------------------------------------------------
  // The collection and its invariant

  predicate HasId(docs: seq<Driver>, id: ObjectId) {
    exists i :: 0 <= i < |docs| && docs[i].id == id
  }

  predicate UniqueIds(docs: seq<Driver>) {
    forall i, j :: 0 <= i < j < |docs| ==> docs[i].id != docs[j].id
  }

  /** Every stored record has an identifier, and no two share one. */
  predicate ValidCollection(docs: seq<Driver>) {
    && UniqueIds(docs)
    && forall i :: 0 <= i < |docs| ==> docs[i].id != NIL_OBJECT_ID
  }

  /** Position of the first record with identifier `id`. */
  function IndexOfId(docs: seq<Driver>, id: ObjectId): (r: Option<nat>)
    ensures r.Some? ==> r.value < |docs| && docs[r.value].id == id
    ensures r.Some? ==> forall i :: 0 <= i < r.value ==> docs[i].id != id
    ensures r.None? <==> !HasId(docs, id)
  {
    if docs == [] then None
    else if docs[0].id == id then Some(0)
    else
      match IndexOfId(docs[1..], id)
      case None =>
        assert forall i :: 1 <= i < |docs| ==> docs[i] == docs[1..][i - 1];
        None
      case Some(k) => Some(k + 1)
  }

  // ---------------------------------------------------------------------------
  // Create

  /** The identifier an insert stores: the record's own unless it is nil. */
  function AssignedId(d: Driver, generated: ObjectId): ObjectId {
    if d.id == NIL_OBJECT_ID then generated else d.id
  }

  /** Inserting `d` at instant `now`; `generated` is the identifier the store would mint. */
  function CreateStep(docs: seq<Driver>, available: bool, d: Driver, now: Time, generated: ObjectId): (s: Step<string>)
    ensures s.result.Success? <==> available && !HasId(docs, AssignedId(d, generated))
    ensures s.result.Failure? ==> s.docs == docs
    ensures s.result.Success? ==>
      && |s.docs| == |docs| + 1
      && s.docs[..|docs|] == docs
      && s.result.value == Hex(s.docs[|docs|].id)
  {
    if !available then Step(Failure(StoreUnavailable), docs)
    else
      var id := AssignedId(d, generated);
      if HasId(docs, id) then Step(Failure(DuplicateKey), docs)
      else Step(Success(Hex(id)), docs + [d.(id := id, createdAt := now, updatedAt := now)])
  }

  /**
   * A successful insert appends one record that carries the caller's fields,
   * the assigned identifier, and `now` as both timestamps.
   */
  lemma CreateStampsRecord(docs: seq<Driver>, available: bool, d: Driver, now: Time, generated: ObjectId)
    requires CreateStep(docs, available, d, now, generated).result.Success?
    ensures var s := CreateStep(docs, available, d, now, generated);
      && s.docs == docs + [d.(id := AssignedId(d, generated), createdAt := now, updatedAt := now)]
      && s.docs[|docs|].createdAt == s.docs[|docs|].updatedAt == now
  {
  }

  /** An insert keeps every identifier present and distinct, provided the minted one is new. */
  lemma CreateKeepsValid(docs: seq<Driver>, available: bool, d: Driver, now: Time, generated: ObjectId)
    requires ValidCollection(docs)
    requires generated != NIL_OBJECT_ID
    ensures ValidCollection(CreateStep(docs, available, d, now, generated).docs)
  {
  }

  // ---------------------------------------------------------------------------
  // Update

  /** The `$set` document: the five mutable fields and `updatedAt`, taken from `d`. */
  function SetMutable(stored: Driver, d: Driver): Driver {
    stored.(firstName := d.firstName, lastName := d.lastName, plate := d.plate,
            taxiType := d.taxiType, location := d.location, updatedAt := d.updatedAt)
  }

  /** Updating the record named by the text `id` with the fields of `d` at instant `now`. */
  function UpdateStep(docs: seq<Driver>, available: bool, id: string, d: Driver, now: Time): (s: Step<()>)
    ensures |s.docs| == |docs|
    ensures s.result.Failure? ==> s.docs == docs
    ensures s.result.Success? <==>
      available && ObjectIdFromHex(id).Some? && HasId(docs, ObjectIdFromHex(id).value)
    ensures ObjectIdFromHex(id).Some? && !available ==> s.result == Failure(StoreUnavailable)
  {
    match ObjectIdFromHex(id)
    case None => Step(Failure(InvalidIdFormat), docs)
    case Some(oid) =>
      if !available then Step(Failure(StoreUnavailable), docs)
      else
        match IndexOfId(docs, oid)
        case None => Step(Failure(DriverNotFound), docs)
        case Some(i) => Step(Success(()), docs[i := SetMutable(docs[i], d.(updatedAt := now))])
  }

  /** A malformed identifier is refused before the store is consulted, whatever its state. */
  lemma UpdateRejectsMalformedId(docs: seq<Driver>, available: bool, id: string, d: Driver, now: Time)
    requires !IsObjectIdHex(id)
    ensures UpdateStep(docs, available, id, d, now) == Step(Failure(InvalidIdFormat), docs)
  {
    ObjectIdFromHexAccepts(id);
  }

  /** A well-formed identifier that names no record fails with "driver not found" on a live store. */
  lemma UpdateMissingId(docs: seq<Driver>, id: string, d: Driver, now: Time)
    requires IsObjectIdHex(id)
    requires forall i :: 0 <= i < |docs| ==> Some(docs[i].id) != ObjectIdFromHex(id)
    ensures UpdateStep(docs, true, id, d, now) == Step(Failure(DriverNotFound), docs)
  {
    ObjectIdFromHexAccepts(id);
  }

  /**
   * A successful update rewrites firstName, lastName, plate, taxiType,
   * location and updatedAt of the one record whose identifier the text
   * parses to; its identifier, car brand, car model and creation time stay,
   * and every other record is untouched.
   */
  lemma UpdateOverwritesMatch(docs: seq<Driver>, available: bool, id: string, d: Driver, now: Time)
    requires UniqueIds(docs)
    requires UpdateStep(docs, available, id, d, now).result.Success?
    ensures exists i :: 0 <= i < |docs| && Some(docs[i].id) == ObjectIdFromHex(id)
    ensures var after := UpdateStep(docs, available, id, d, now).docs;
      forall i :: 0 <= i < |docs| ==>
        if Some(docs[i].id) == ObjectIdFromHex(id) then
          && after[i].id == docs[i].id
          && after[i].carBrand == docs[i].carBrand
          && after[i].carModel == docs[i].carModel
          && after[i].createdAt == docs[i].createdAt
          && after[i].firstName == d.firstName
          && after[i].lastName == d.lastName
          && after[i].plate == d.plate
          && after[i].taxiType == d.taxiType
          && after[i].location == d.location
          && after[i].updatedAt == now
        else after[i] == docs[i]
  {
  }

  /** An update keeps every identifier present and distinct. */
  lemma UpdateKeepsValid(docs: seq<Driver>, available: bool, id: string, d: Driver, now: Time)
    requires ValidCollection(docs)
    ensures ValidCollection(UpdateStep(docs, available, id, d, now).docs)
  {
  }

  // ---------------------------------------------------------------------------
  // List: newest first, then skip and limit

  predicate NewestFirstOrdered(s: seq<Driver>) {
    forall i, j :: 0 <= i < j < |s| ==> s[i].createdAt >= s[j].createdAt
  }

  /** Places `d` into the newest-first `s` ahead of the first record no newer than it. */
  function InsertNewest(d: Driver, s: seq<Driver>): (r: seq<Driver>)
    ensures multiset(r) == multiset(s) + multiset{d}
    ensures |r| == |s| + 1 && (r[0] == d || (s != [] && r[0] == s[0]))
  {
    if s == [] || s[0].createdAt <= d.createdAt then [d] + s
    else
      assert s == [s[0]] + s[1..];
      [s[0]] + InsertNewest(d, s[1..])
  }

  /** Insertion keeps the newest-first order. */
  lemma {:induction false} InsertNewestOrdered(d: Driver, s: seq<Driver>)
    requires NewestFirstOrdered(s)
    ensures NewestFirstOrdered(InsertNewest(d, s))
  {
    if s != [] && s[0].createdAt > d.createdAt {
      var rest := InsertNewest(d, s[1..]);
      InsertNewestOrdered(d, s[1..]);
      assert rest[0].createdAt <= s[0].createdAt;
      var r := [s[0]] + rest;
      forall i, j | 0 <= i < j < |r| ensures r[i].createdAt >= r[j].createdAt {
        if i > 0 {
          assert r[i] == rest[i - 1] && r[j] == rest[j - 1];
        } else {
          assert r[j] == rest[j - 1];
          assert rest[0].createdAt >= rest[j - 1].createdAt;
        }
      }
    }
  }

  /** The collection ordered by creation time, newest first. */
  function NewestFirst(docs: seq<Driver>): (r: seq<Driver>)
    ensures multiset(r) == multiset(docs)
  {
    if docs == [] then []
    else
      assert docs == [docs[0]] + docs[1..];
      InsertNewest(docs[0], NewestFirst(docs[1..]))
  }

  lemma NewestFirstLength(docs: seq<Driver>)
    ensures |NewestFirst(docs)| == |docs|
  {
  }

  /** The listing order is newest first. */
  lemma {:induction false} NewestFirstIsOrdered(docs: seq<Driver>)
    ensures NewestFirstOrdered(NewestFirst(docs))
  {
    if docs != [] {
      NewestFirstIsOrdered(docs[1..]);
      InsertNewestOrdered(docs[0], NewestFirst(docs[1..]));
    }
  }

  /** At most `limit` records starting at offset `skip`; a zero limit means no limit. */
  function Window(s: seq<Driver>, skip: nat, limit: int): (w: seq<Driver>)
    ensures limit > 0 ==> |w| <= limit
    ensures limit > 0 && skip <= |s| ==> |w| == Min(limit, |s| - skip)
    ensures limit < 0 ==> |w| <= -limit
    ensures skip <= |s| && limit == 0 ==> w == s[skip..]
    ensures forall k :: 0 <= k < |w| ==> skip + k < |s| && w[k] == s[skip + k]
  {
    if skip >= |s| then []
    else
      var bound := if limit < 0 then -limit else limit;
      if limit == 0 || |s| - skip <= bound then s[skip..] else s[skip..skip + bound]
  }

  /** A find over the whole collection, sorted newest first, with a skip and a limit. */
  function Find(docs: seq<Driver>, available: bool, skip: int, limit: int): (r: Result<seq<Driver>, Error>)
    ensures r.Success? <==> available && skip >= 0
  {
    if !available then Failure(StoreUnavailable)
    else if skip < 0 then Failure(NegativeSkip)
    else Success(Window(NewestFirst(docs), skip, limit))
  }

  /** The offset of page `page` when pages hold `pageSize` records; the first page is 1. */
  function Skip(page: int, pageSize: int): (r: int)
    ensures pageSize >= 1 ==> (r >= 0 <==> page >= 1)
  {
    (page - 1) * pageSize
  }

  /** The store's page `page` of `pageSize` records. */
  function ListPage(docs: seq<Driver>, available: bool, page: int, pageSize: int): (r: Result<seq<Driver>, Error>)
    ensures r.Success? <==> available && Skip(page, pageSize) >= 0
    ensures r.Success? && pageSize > 0 ==> |r.value| <= pageSize
  {
    Find(docs, available, Skip(page, pageSize), pageSize)
  }

  /**
   * With positive page and page size, a live store returns the records at
   * positions `(page-1)*pageSize` onward of the newest-first order, at most
   * `pageSize` of them, and as many as remain up to that bound.
   */
  lemma ListPageWindow(docs: seq<Driver>, page: int, pageSize: int)
    requires page >= 1 && pageSize >= 1
    ensures var r := ListPage(docs, true, page, pageSize);
      && r.Success?
      && |r.value| <= pageSize
      && |r.value| == (if Skip(page, pageSize) >= |docs| then 0 else Min(pageSize, |docs| - Skip(page, pageSize)))
      && forall k :: 0 <= k < |r.value| ==> r.value[k] == NewestFirst(docs)[Skip(page, pageSize) + k]
  {
    var skip := Skip(page, pageSize);
    var sorted := NewestFirst(docs);
    NewestFirstLength(docs);
    var w := Window(sorted, skip, pageSize);
    assert ListPage(docs, true, page, pageSize) == Success(w);
  }

  function Min(a: int, b: int): int { if a <= b then a else b }

  /**
   * Every record shows up on a page: the record at position k of the
   * newest-first order is item k % pageSize of page k / pageSize + 1.
   */
  lemma RecordOnItsPage(docs: seq<Driver>, pageSize: int, k: int)
    requires pageSize >= 1 && 0 <= k < |docs|
    ensures var r := ListPage(docs, true, k / pageSize + 1, pageSize);
      r.Success? && k % pageSize < |r.value| && r.value[k % pageSize] == NewestFirst(docs)[k]
  {
    PagePosition(k, pageSize);
    ListPageWindow(docs, k / pageSize + 1, pageSize);
  }

  /** Position k lies on page k / pageSize + 1, at offset k % pageSize. */
  lemma PagePosition(k: nat, pageSize: int)
    requires pageSize >= 1
    ensures k / pageSize + 1 >= 1 && Skip(k / pageSize + 1, pageSize) + k % pageSize == k
  {
  }

  /** Removing the first record of a sequence removes one copy of it from its multiset. */
  lemma MultisetOfTail(s: seq<Driver>)
    requires s != []
    ensures multiset(s[1..]) == multiset(s) - multiset{s[0]}
    ensures multiset(s[1..]) <= multiset(s)
  {
    assert s == [s[0]] + s[1..];
  }

  /** No two different records among `m` share a creation time. */
  predicate CreationKeyed(m: multiset<Driver>) {
    forall x, y | x in m && y in m && x.createdAt == y.createdAt :: x == y
  }

  /**
   * Two newest-first arrangements of the same records are the same sequence
   * when no two different records share a creation time.
   */
  lemma {:induction false} OrderedArrangementUnique(s: seq<Driver>, t: seq<Driver>, m: multiset<Driver>)
    requires multiset(s) == multiset(t) && multiset(s) <= m && CreationKeyed(m)
    requires NewestFirstOrdered(s) && NewestFirstOrdered(t)
    ensures s == t
  {
    assert |s| == |multiset(s)| == |multiset(t)| == |t|;
    if s != [] {
      TailsCarry(s, t, m);
      OrderedArrangementUnique(s[1..], t[1..], m);
      SameHeadSameTail(s, t);
    }
  }

  /** The tails of two such arrangements are again two such arrangements, and the heads agree. */
  lemma TailsCarry(s: seq<Driver>, t: seq<Driver>, m: multiset<Driver>)
    requires s != [] && t != []
    requires multiset(s) == multiset(t) && multiset(s) <= m && CreationKeyed(m)
    requires NewestFirstOrdered(s) && NewestFirstOrdered(t)
    ensures s[0] == t[0]
    ensures multiset(s[1..]) == multiset(t[1..]) && multiset(s[1..]) <= m
    ensures NewestFirstOrdered(s[1..]) && NewestFirstOrdered(t[1..])
  {
    HeadsAgree(s, t, m);
    MultisetOfTail(s);
    MultisetOfTail(t);
    OrderedTail(s);
    OrderedTail(t);
  }

  lemma SameHeadSameTail(s: seq<Driver>, t: seq<Driver>)
    requires s != [] && t != [] && s[0] == t[0] && s[1..] == t[1..]
    ensures s == t
  {
    assert s == [s[0]] + s[1..] && t == [t[0]] + t[1..];
  }

  /** The newest record of two arrangements of the same records is the same one. */
  lemma HeadsAgree(s: seq<Driver>, t: seq<Driver>, m: multiset<Driver>)
    requires s != [] && t != []
    requires multiset(s) == multiset(t) && multiset(s) <= m && CreationKeyed(m)
    requires NewestFirstOrdered(s) && NewestFirstOrdered(t)
    ensures s[0] == t[0]
  {
    assert s[0] in multiset(t) && t[0] in multiset(s);
    var j :| 0 <= j < |t| && t[j] == s[0];
    var i :| 0 <= i < |s| && s[i] == t[0];
    assert s[0].createdAt == t[0].createdAt;
  }

  lemma OrderedTail(s: seq<Driver>)
    requires s != [] && NewestFirstOrdered(s)
    ensures NewestFirstOrdered(s[1..])
  {
    forall i, j | 0 <= i < j < |s| - 1 ensures s[1..][i].createdAt >= s[1..][j].createdAt {
      assert s[1..][i] == s[i + 1] && s[1..][j] == s[j + 1];
    }
  }

  /**
   * When creation times are distinct, every newest-first arrangement of the
   * collection is `NewestFirst` of it: any order the store picks for the
   * listing is this one, so separate page queries agree on it.
   */
  lemma NewestFirstIsTheOnlyOrder(docs: seq<Driver>, s: seq<Driver>)
    requires forall i, j | 0 <= i < j < |docs| :: docs[i].createdAt != docs[j].createdAt
    requires multiset(s) == multiset(docs) && NewestFirstOrdered(s)
    ensures s == NewestFirst(docs)
  {
    NewestFirstIsOrdered(docs);
    forall x, y | x in multiset(docs) && y in multiset(docs) && x.createdAt == y.createdAt ensures x == y {
      var i :| 0 <= i < |docs| && docs[i] == x;
      var j :| 0 <= j < |docs| && docs[j] == y;
      assert i == j;
    }
    OrderedArrangementUnique(s, NewestFirst(docs), multiset(docs));
  }

  // ---------------------------------------------------------------------------
  // Search

  /** Whether a record passes the taxi-type filter; the empty filter passes all. */
  predicate MatchesType(d: Driver, taxiType: string) {
    taxiType == "" || d.taxiType == taxiType
  }

  /** The records that pass the filter, in collection order. */
  function Matching(docs: seq<Driver>, taxiType: string): (r: seq<Driver>)
    ensures |r| <= |docs|
  {
    if docs == [] then []
    else (if MatchesType(docs[0], taxiType) then [docs[0]] else []) + Matching(docs[1..], taxiType)
  }

  /** The filtered scan keeps exactly the records of the requested type, and everything when none is requested. */
  lemma {:induction false} MatchingMembers(docs: seq<Driver>, taxiType: string)
    ensures taxiType == "" ==> Matching(docs, taxiType) == docs
    ensures forall x :: x in Matching(docs, taxiType) <==> x in docs && MatchesType(x, taxiType)
  {
    if docs != [] {
      MatchingMembers(docs[1..], taxiType);
      assert docs == [docs[0]] + docs[1..];
    }
  }

  /** Filtering keeps identifiers distinct. */
  lemma {:induction false} MatchingUniqueIds(docs: seq<Driver>, taxiType: string)
    requires UniqueIds(docs)
    ensures UniqueIds(Matching(docs, taxiType))
  {
    if docs != [] {
      var rest := Matching(docs[1..], taxiType);
      MatchingUniqueIds(docs[1..], taxiType);
      MatchingMembers(docs[1..], taxiType);
      forall j | 0 <= j < |rest| ensures rest[j].id != docs[0].id {
        assert rest[j] in docs[1..];
      }
    }
  }

  // ---------------------------------------------------------------------------
  // Create, then update, then list

  /**
   * The identifier a successful insert returns is accepted by a later update,
   * which rewrites that record; the rewritten record keeps its creation time
   * and is among the records the newest-first listing pages through.
   */
  lemma CreateThenUpdate(docs: seq<Driver>, d: Driver, t1: Time, generated: ObjectId, d2: Driver, t2: Time)
    requires ValidCollection(docs)
    requires generated != NIL_OBJECT_ID && !HasId(docs, AssignedId(d, generated))
    ensures var id := AssignedId(d, generated);
      && var created := CreateStep(docs, true, d, t1, generated);
      && created.result == Success(Hex(id))
      && var updated := UpdateStep(created.docs, true, created.result.value, d2, t2);
      && updated.result == Success(())
      && |updated.docs| == |docs| + 1
      && updated.docs[..|docs|] == docs
      && var rec := updated.docs[|docs|];
      && rec == d2.(id := id, carBrand := d.carBrand, carModel := d.carModel, createdAt := t1, updatedAt := t2)
      && rec in NewestFirst(updated.docs)
  {
    var id := AssignedId(d, generated);
    var created := CreateStep(docs, true, d, t1, generated);
    ObjectIdRoundTrip(id);
    assert created.docs[|docs|].id == id;
    assert IndexOfId(created.docs, id) == Some(|docs|);
    var updated := UpdateStep(created.docs, true, created.result.value, d2, t2);
    assert updated.docs[|docs|] in multiset(updated.docs);
  }

  // ---------------------------------------------------------------------------
  // The repository object

  class DriverRepository {
    /** The collection, in insertion order. */
    var docs: seq<Driver>
    /** Whether the store answers; when false every call returns `StoreUnavailable`. */
    var available: bool

    ghost predicate Valid()
      reads this
    {
      ValidCollection(docs)
    }

    constructor (available: bool)
      ensures Valid() && docs == [] && this.available == available
    {
      docs := [];
      this.available := available;
    }

    /**
     * Stamps both timestamps with `now` and inserts `d`; returns the text
     * form of the identifier stored. `generated` is the identifier the store
     * mints when `d` carries none.
     */
    method Create(d: Driver, now: Time, generated: ObjectId) returns (r: Result<string, Error>)
      requires Valid()
      requires generated != NIL_OBJECT_ID && !HasId(docs, generated)
      modifies this
      ensures Valid() && available == old(available)
      ensures Step(r, docs) == CreateStep(old(docs), old(available), d, now, generated)
    {
      var stamped := d.(createdAt := now, updatedAt := now);
      if !available {
        return Failure(StoreUnavailable);
      }
      var id := if stamped.id == NIL_OBJECT_ID then generated else stamped.id;
      if HasId(docs, id) {
        return Failure(DuplicateKey);
      }
      docs := docs + [stamped.(id := id)];
      r := Success(Hex(id));
    }

    /** Parses `id`, then sets the mutable fields of the matching record from `d`, stamped with `now`. */
    method Update(id: string, d: Driver, now: Time) returns (r: Result<(), Error>)
      requires Valid()
      modifies this
      ensures Valid() && available == old(available)
      ensures Step(r, docs) == UpdateStep(old(docs), old(available), id, d, now)
    {
      var oid := ObjectIdFromHex(id);
      if oid.None? {
        return Failure(InvalidIdFormat);
      }
      var stamped := d.(updatedAt := now);
      if !available {
        return Failure(StoreUnavailable);
      }
      var i := IndexOfId(docs, oid.value);
      if i.None? {
        return Failure(DriverNotFound);
      }
      docs := docs[i.value := SetMutable(docs[i.value], stamped)];
      r := Success(());
    }

    /** Page `page` of `pageSize` records, newest first. */
    method List(page: int, pageSize: int) returns (r: Result<seq<Driver>, Error>)
      ensures r == ListPage(docs, available, page, pageSize)
      ensures r.Success? <==> available && Skip(page, pageSize) >= 0
      ensures r.Success? && pageSize > 0 ==> |r.value| <= pageSize
      ensures r.Success? ==> forall k :: 0 <= k < |r.value| ==>
        r.value[k] == NewestFirst(docs)[Skip(page, pageSize) + k]
    {
      var skip := (page - 1) * pageSize;
      r := Find(docs, available, skip, pageSize);
    }

    /** Every record, or only those whose taxi type is `taxiType` when it is not empty. */
    method Search(taxiType: string) returns (r: Result<seq<Driver>, Error>)
      ensures !available ==> r == Failure(StoreUnavailable)
      ensures r.Success? <==> available
      ensures r.Success? ==> r.value == Matching(docs, taxiType)
      ensures r.Success? && taxiType == "" ==> r.value == docs
      ensures r.Success? ==> forall x :: x in r.value <==> x in docs && MatchesType(x, taxiType)
    {
      if !available {
        return Failure(StoreUnavailable);
      }
      MatchingMembers(docs, taxiType);
      r := Success(Matching(docs, taxiType));
    }
  }
}
