/**
 * The date bucketing of the review scraper: the reviews fetched from the store are
 * filtered to a `[start, end]` range of timestamps and appended, in the order they were
 * fetched, to the bucket of their own day, one bucket being created in advance for every
 * day from the start stepping one day at a time while still at or before the end.
 */
module Scraper {
  import opened Wrappers
  import opened Records

  /**
   * A review as the store returns it: the four carried fields, and the remaining fields of
   * the store's record (user name, thumbs-up count, reply, app version, ...) by name.
   */
  datatype FetchedReview = FetchedReview(
    content: string,
    score: int,
    at: Timestamp,
    reviewId: string,
    otherFields: map<string, string>)

  /** The bucketed record: only `content`, `score`, `at` and `reviewId` are carried over. */
  function Carry(r: FetchedReview): (c: Review)
    ensures c.content == r.content && c.score == r.score && c.at == r.at && c.reviewId == Some(r.reviewId)
  {
    Review(r.content, r.score, r.at, Some(r.reviewId))
  }

  /**
   * A day gets a bucket when it is reached by stepping one day at a time from `start` (at the
   * time of day of `start`) without passing `end`.
   */
  predicate IsKeyDay(start: Timestamp, end: Timestamp, d: int) {
    start.day <= d && AtOrBefore(Timestamp(d, start.micros), end)
  }

  /** The last day that gets a bucket: the end day itself only when the start's time of day is not later than the end's. */
  function LastKeyDay(start: Timestamp, end: Timestamp): int {
    if start.micros <= end.micros then end.day else end.day - 1
  }

  /** The buckets are exactly the days from the start day to the last key day. */
  lemma KeyDaysAreARange(start: Timestamp, end: Timestamp, d: int)
    ensures IsKeyDay(start, end, d) <==> start.day <= d <= LastKeyDay(start, end)
  {
  }

  /** A fetched review is kept when it lies in `[start, end]` and its day has a bucket. */
  predicate Keeps(start: Timestamp, end: Timestamp, r: FetchedReview) {
    AtOrBefore(start, r.at) && AtOrBefore(r.at, end) && IsKeyDay(start, end, r.at.day)
  }

  /** The bucket of day `d` after the filtering loop: the kept reviews of that day, carried, in fetch order. */
  function Bucket(fetched: seq<FetchedReview>, start: Timestamp, end: Timestamp, d: int): seq<Review> {
    if fetched == [] then []
    else
      var r := fetched[|fetched| - 1];
      Bucket(fetched[..|fetched| - 1], start, end, d) + (if Keeps(start, end, r) && r.at.day == d then [Carry(r)] else [])
  }

  /** Bucketing keeps the fetch order: the bucket of a concatenation is the concatenation of the buckets. */
  lemma {:induction false} BucketOfConcat(a: seq<FetchedReview>, b: seq<FetchedReview>, start: Timestamp, end: Timestamp, d: int)
    ensures Bucket(a + b, start, end, d) == Bucket(a, start, end, d) + Bucket(b, start, end, d)
    decreases |b|
  {
    if b == [] {
      assert a + b == a;
    } else {
      var n := |b| - 1;
      assert (a + b)[..|a + b| - 1] == a + b[..n];
      BucketOfConcat(a, b[..n], start, end, d);
    }
  }

  /**
   * Every record in the bucket of day `d` comes from a kept review of that day, and every
   * kept review of that day is carried into it: everything else is dropped.
   */
  lemma {:induction false} BucketMembers(fetched: seq<FetchedReview>, start: Timestamp, end: Timestamp, d: int)
    ensures forall x :: x in Bucket(fetched, start, end, d) ==>
      exists i :: 0 <= i < |fetched| && Keeps(start, end, fetched[i]) && fetched[i].at.day == d && x == Carry(fetched[i])
    ensures forall i :: 0 <= i < |fetched| && Keeps(start, end, fetched[i]) && fetched[i].at.day == d ==>
      Carry(fetched[i]) in Bucket(fetched, start, end, d)
  {
    if fetched != [] {
      var n := |fetched| - 1;
      var init := fetched[..n];
      BucketMembers(init, start, end, d);
      assert forall i :: 0 <= i < n ==> init[i] == fetched[i];
    }
  }

  /** A review outside `[start, end]`, or on a day without a bucket, reaches no bucket. */
  lemma DroppedReviewReachesNoBucket(fetched: seq<FetchedReview>, start: Timestamp, end: Timestamp, r: FetchedReview, d: int)
    requires !Keeps(start, end, r)
    ensures Bucket(fetched + [r], start, end, d) == Bucket(fetched, start, end, d)
  {
    assert (fetched + [r])[..|fetched|] == fetched;
  }

  /**
   * When the start's time of day is later than the end's, the end day gets no bucket, so a
   * review on the end day, even one inside `[start, end]`, changes no bucket.
   */
  lemma EndDayWithoutBucket(fetched: seq<FetchedReview>, start: Timestamp, end: Timestamp, r: FetchedReview, d: int)
    requires start.micros > end.micros && r.at.day == end.day
    ensures !IsKeyDay(start, end, end.day)
    ensures Bucket(fetched + [r], start, end, d) == Bucket(fetched, start, end, d)
  {
    assert !Keeps(start, end, r);
    DroppedReviewReachesNoBucket(fetched, start, end, r, d);
  }

  /** The organising part of `scrape_reviews_by_date_range`, for the reviews `fetched` by the paging loop. */
  method BucketByDate(fetched: seq<FetchedReview>, start: Timestamp, end: Timestamp)
    returns (buckets: map<int, seq<Review>>)
    ensures forall d :: d in buckets <==> IsKeyDay(start, end, d)
    ensures forall d :: d in buckets ==> buckets[d] == Bucket(fetched, start, end, d)
  {
    buckets := map[];
    var current := start.day;
    while AtOrBefore(Timestamp(current, start.micros), end)
      invariant start.day <= current
      invariant forall d :: d in buckets <==> start.day <= d < current
      invariant forall d :: d in buckets ==> buckets[d] == [] && IsKeyDay(start, end, d)
      decreases end.day + 1 - current
    {
      buckets := buckets[current := []];
      current := current + 1;
    }
    assert forall d :: IsKeyDay(start, end, d) ==> d < current;

    var i := 0;
    while i < |fetched|
      invariant 0 <= i <= |fetched|
      invariant forall d :: d in buckets <==> IsKeyDay(start, end, d)
      invariant forall d :: d in buckets ==> buckets[d] == Bucket(fetched[..i], start, end, d)
    {
      var r := fetched[i];
      if AtOrBefore(start, r.at) && AtOrBefore(r.at, end) {
        var key := r.at.day;
        if key in buckets {
          buckets := buckets[key := buckets[key] + [Carry(r)]];
        }
      }
      assert fetched[..i + 1][..i] == fetched[..i];
      i := i + 1;
    }
    assert fetched[..i] == fetched;
  }

  /** The first microsecond of a day, 00:00:00.000000. */
  function DayStart(day: int): Timestamp {
    Timestamp(day, 0)
  }

  /** The last microsecond of a day, 23:59:59.999999. */
  function DayEnd(day: int): Timestamp {
    Timestamp(day, MicrosPerDay - 1)
  }

  /** All fetched reviews of one day, carried, in fetch order. */
  function OnDay(fetched: seq<FetchedReview>, day: int): seq<Review> {
    if fetched == [] then []
    else
      var r := fetched[|fetched| - 1];
      OnDay(fetched[..|fetched| - 1], day) + (if r.at.day == day then [Carry(r)] else [])
  }

  /** Over a whole day, the only bucket is that day's, and it keeps every review of the day. */
  lemma {:induction false} WholeDayBucket(fetched: seq<FetchedReview>, day: int)
    ensures forall d :: IsKeyDay(DayStart(day), DayEnd(day), d) <==> d == day
    ensures Bucket(fetched, DayStart(day), DayEnd(day), day) == OnDay(fetched, day)
  {
    if fetched != [] {
      WholeDayBucket(fetched[..|fetched| - 1], day);
    }
  }

  /**
   * `scrape_single_day`: the reviews of the target day (`get` with an empty default, which
   * the day's own bucket makes unnecessary).
   */
  method ScrapeSingleDay(fetched: seq<FetchedReview>, target: Timestamp) returns (reviews: seq<Review>)
    ensures reviews == OnDay(fetched, target.day)
  {
    var buckets := BucketByDate(fetched, DayStart(target.day), DayEnd(target.day));
    WholeDayBucket(fetched, target.day);
    reviews := if target.day in buckets then buckets[target.day] else [];
  }
}
