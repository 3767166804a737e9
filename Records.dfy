/** The saved outfit entries of the app and the two list computations that the
    handlers perform on them: prepending a new entry and removing by id. */
module Records {

  datatype Option<T> = None | Some(value: T)

  /** One logged outfit. `image` is absent when no photo was kept. Ids are the
      decimal text of a millisecond clock, so two records may share one. */
  datatype OutfitRecord = OutfitRecord(
    id: string,
    date: string,
    style: string,
    image: Option<string>,
    note: string)

  /** The record `saveRecord` builds from the clock readings and the current draw.
      The image is `capturedImage || undefined`: JavaScript's `||` treats both a
      missing image and the empty string as false, so neither is kept. */
  function MakeRecord(id: string, date: string, style: string, captured: Option<string>, note: string): (r: OutfitRecord)
    ensures r.id == id && r.date == date && r.style == style && r.note == note
    ensures r.image.Some? <==> captured.Some? && captured.value != ""
    ensures r.image.Some? ==> r.image == captured
  {
    var image := if captured.Some? && captured.value != "" then captured else None;
    OutfitRecord(id, date, style, image, note)
  }

  /** `[newRecord, ...records]`: the list after one save, newest first. */
  function Saved(records: seq<OutfitRecord>, rec: OutfitRecord): (r: seq<OutfitRecord>)
    ensures |r| == |records| + 1 && r[0] == rec && r[1..] == records
  {
    [rec] + records
  }

  /** The list after saving each record of `batch`, in order, one at a time. */
  function SavedAll(records: seq<OutfitRecord>, batch: seq<OutfitRecord>): (r: seq<OutfitRecord>)
    ensures |r| == |records| + |batch|
    decreases |batch|
  {
    if batch == [] then records else SavedAll(Saved(records, batch[0]), batch[1..])
  }

  /** Reversal, defined on its own, as the reference `SavedAllNewestFirst` is stated against. */
  function Reversed<T>(s: seq<T>): (r: seq<T>)
    ensures |r| == |s|
  {
    if s == [] then [] else Reversed(s[1..]) + [s[0]]
  }

  /** `records.filter(r => r.id !== id)`. */
  function RemoveId(records: seq<OutfitRecord>, id: string): (r: seq<OutfitRecord>)
    ensures |r| <= |records|
    ensures forall x :: x in r <==> x in records && x.id != id
  {
    if records == [] then []
    else if records[0].id == id then RemoveId(records[1..], id)
    else [records[0]] + RemoveId(records[1..], id)
  }

  /** `a` is `b` with some elements left out, the rest in their order. */
  ghost predicate IsSubsequence<T>(a: seq<T>, b: seq<T>)
    decreases |b|
  {
    a == [] || (b != [] && ((a[0] == b[0] && IsSubsequence(a[1..], b[1..])) || IsSubsequence(a, b[1..])))
  }

  /** Every save puts its record in front: after saving `batch` in order, the list
      holds the batch newest first, followed by the list as it was. */
  lemma {:induction false} SavedAllNewestFirst(records: seq<OutfitRecord>, batch: seq<OutfitRecord>)
    ensures SavedAll(records, batch) == Reversed(batch) + records
    decreases |batch|
  {
    if batch != [] {
      SavedAllNewestFirst(Saved(records, batch[0]), batch[1..]);
      assert Reversed(batch) == Reversed(batch[1..]) + [batch[0]];
    }
  }

  /** After any non-empty run of saves, the last record saved is listed first. */
  lemma LastSavedIsFirst(records: seq<OutfitRecord>, batch: seq<OutfitRecord>)
    requires batch != []
    ensures SavedAll(records, batch)[0] == batch[|batch| - 1]
  {
    SavedAllNewestFirst(records, batch);
    ReversedFirst(batch);
  }

  lemma {:induction false} ReversedFirst<T>(s: seq<T>)
    requires s != []
    ensures Reversed(s)[0] == s[|s| - 1]
    decreases |s|
  {
    if |s| > 1 {
      ReversedFirst(s[1..]);
    }
  }

  /** Deleting an id that no record carries leaves the list as it was. */
  lemma {:induction false} RemoveAbsentId(records: seq<OutfitRecord>, id: string)
    requires forall i :: 0 <= i < |records| ==> records[i].id != id
    ensures RemoveId(records, id) == records
    decreases |records|
  {
    if records != [] {
      RemoveAbsentId(records[1..], id);
    }
  }

  /** Deleting twice is deleting once. */
  lemma RemoveIdIdempotent(records: seq<OutfitRecord>, id: string)
    ensures RemoveId(RemoveId(records, id), id) == RemoveId(records, id)
  {
    var once := RemoveId(records, id);
    forall i | 0 <= i < |once| ensures once[i].id != id {
      assert once[i] in once;
    }
    RemoveAbsentId(once, id);
  }

  /** The filter works piecewise, so the kept records keep their relative order. */
  lemma {:induction false} RemoveIdAppend(a: seq<OutfitRecord>, b: seq<OutfitRecord>, id: string)
    ensures RemoveId(a + b, id) == RemoveId(a, id) + RemoveId(b, id)
    decreases |a|
  {
    if a != [] {
      assert (a + b)[1..] == a[1..] + b;
      RemoveIdAppend(a[1..], b, id);
    } else {
      assert a + b == b;
    }
  }

  /** The kept records appear in the list in the same relative order. */
  lemma {:induction false} RemoveIdKeepsOrder(records: seq<OutfitRecord>, id: string)
    ensures IsSubsequence(RemoveId(records, id), records)
    decreases |records|
  {
    if records != [] {
      RemoveIdKeepsOrder(records[1..], id);
      var rest := RemoveId(records[1..], id);
      if records[0].id != id {
        assert ([records[0]] + rest)[1..] == rest;
      }
    }
  }

  /** Each record with another id is kept as many times as it occurred; no copy of
      a record with the deleted id survives, whether or not ids are unique. */
  lemma {:induction false} RemoveIdCounts(records: seq<OutfitRecord>, id: string, x: OutfitRecord)
    ensures multiset(RemoveId(records, id))[x] == if x.id == id then 0 else multiset(records)[x]
    decreases |records|
  {
    if records != [] {
      RemoveIdCounts(records[1..], id, x);
      assert records == [records[0]] + records[1..];
    }
  }

  /** Saving a record and then deleting its id leaves every older record of another
      id in place, and, if the id was new, the list exactly as it was before. */
  lemma SaveThenDelete(records: seq<OutfitRecord>, rec: OutfitRecord)
    ensures RemoveId(Saved(records, rec), rec.id) == RemoveId(records, rec.id)
    ensures (forall i :: 0 <= i < |records| ==> records[i].id != rec.id) ==>
              RemoveId(Saved(records, rec), rec.id) == records
  {
    assert Saved(records, rec)[1..] == records;
    if forall i :: 0 <= i < |records| ==> records[i].id != rec.id {
      RemoveAbsentId(records, rec.id);
    }
  }
}
