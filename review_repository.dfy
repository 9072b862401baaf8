/**
 * The review repository of the chat-bot server: the review table, read
 * filtered by product and newest first, and the summary table, one record
 * per product, written by upsert and read only while it has not expired.
 * Time is an integer number of milliseconds supplied by the caller.
 */
module ReviewRepository {
  import opened Wrappers

  /** One day, and the lifetime of a stored summary (seven days), in milliseconds. */
  const DayMs: int := 24 * 60 * 60 * 1000
  const SummaryTtlMs: int := 7 * DayMs

  /** A row of the review table. `createdAt` is a timestamp in milliseconds. */
  datatype Review = Review(id: int, productId: int, author: string, content: string, rating: int, createdAt: int)

  /** A row of the summary table. */
  datatype Summary = Summary(productId: int, content: string, generatedAt: int, expiresAt: int)

  /** `rs` is ordered by creation time, newest first. */
  predicate NewestFirst(rs: seq<Review>)
  {
    forall i, j :: 0 <= i < j < |rs| ==> rs[i].createdAt >= rs[j].createdAt
  }

  /** The rows of `rs` that belong to `productId`, in table order. */
  function OfProduct(rs: seq<Review>, productId: int): (r: seq<Review>)
    ensures forall x :: x in r <==> x in rs && x.productId == productId
    ensures forall x :: multiset(r)[x] == if x.productId == productId then multiset(rs)[x] else 0
    ensures multiset(r) <= multiset(rs)
    ensures |r| <= |rs|
  {
    if rs == [] then []
    else
      assert rs == [rs[0]] + rs[1..];
      if rs[0].productId == productId then [rs[0]] + OfProduct(rs[1..], productId)
      else OfProduct(rs[1..], productId)
  }

  /** A row no older than every row of a newest-first sequence can go in front of it. */
  lemma ConsNewestFirst(h: Review, rs: seq<Review>)
    requires NewestFirst(rs)
    requires forall j :: 0 <= j < |rs| ==> h.createdAt >= rs[j].createdAt
    ensures NewestFirst([h] + rs)
  {
    var r := [h] + rs;
    forall i, j | 0 <= i < j < |r| ensures r[i].createdAt >= r[j].createdAt {
      if i > 0 { assert r[i] == rs[i - 1] && r[j] == rs[j - 1]; }
      else { assert r[j] == rs[j - 1]; }
    }
  }

  /** Puts `x` in front of the first row of `rs` that is not newer than it. */
  function InsertNewestFirst(x: Review, rs: seq<Review>): (r: seq<Review>)
    requires NewestFirst(rs)
    ensures NewestFirst(r)
    ensures multiset(r) == multiset(rs) + multiset{x}
    ensures forall y :: y in r ==> y in rs || y == x
  {
    if rs == [] || rs[0].createdAt <= x.createdAt then
      ConsNewestFirst(x, rs);
      [x] + rs
    else
      assert rs == [rs[0]] + rs[1..];
      var tail := InsertNewestFirst(x, rs[1..]);
      forall j | 0 <= j < |tail| ensures rs[0].createdAt >= tail[j].createdAt {
        assert tail[j] in tail;
        if tail[j] != x {
          var k :| 0 <= k < |rs[1..]| && rs[1..][k] == tail[j];
          assert rs[k + 1] == tail[j];
        }
      }
      ConsNewestFirst(rs[0], tail);
      [rs[0]] + tail
  }

  /** The `orderBy: { createdAt: "desc" }` of the review query: a permutation of `rs`, newest first. */
  function SortNewestFirst(rs: seq<Review>): (r: seq<Review>)
    ensures NewestFirst(r)
    ensures multiset(r) == multiset(rs)
    ensures |r| == |rs|
  {
    if rs == [] then []
    else
      assert rs == [rs[0]] + rs[1..];
      InsertNewestFirst(rs[0], SortNewestFirst(rs[1..]))
  }

  /** Two sequences with the same multiset have the same elements. */
  lemma SameElements(a: seq<Review>, b: seq<Review>)
    requires multiset(a) == multiset(b)
    ensures forall x :: x in a <==> x in b
  {
    forall x
      ensures x in a <==> x in b
    {
      assert x in a <==> x in multiset(a);
      assert x in b <==> x in multiset(b);
    }
  }

  /** `take: limit`: no limit keeps everything, otherwise the first `limit` rows. */
  function Take(rs: seq<Review>, limit: Option<nat>): (r: seq<Review>)
    ensures limit.None? ==> r == rs
    ensures limit.Some? ==> |r| == if limit.value < |rs| then limit.value else |rs|
    ensures r <= rs
  {
    match limit
    case None => rs
    case Some(n) => if n < |rs| then rs[..n] else rs
  }

  /** The summary of `productId` in `summaries` if its record has not expired at `now`. */
  function LiveSummary(summaries: map<int, Summary>, productId: int, now: int): (r: Option<string>)
    ensures r.Some? <==> productId in summaries && now < summaries[productId].expiresAt
    ensures r.Some? ==> r.value == summaries[productId].content
  {
    if productId in summaries && summaries[productId].expiresAt > now
    then Some(summaries[productId].content)
    else None
  }

  /** The record an upsert at `now` writes for `productId`, used both to create and to update. */
  function SummaryRecord(productId: int, content: string, now: int): (s: Summary)
    ensures s.productId == productId && s.content == content
    ensures s.generatedAt == now && s.expiresAt - s.generatedAt == 7 * 24 * 60 * 60 * 1000
  {
    Summary(productId, content, now, now + SummaryTtlMs)
  }

  /** Every record is stored under its own product and expires seven days after it was generated. */
  predicate WellFormed(summaries: map<int, Summary>)
  {
    forall p :: p in summaries ==>
      summaries[p].productId == p && summaries[p].expiresAt == summaries[p].generatedAt + SummaryTtlMs
  }

  /** The summary table after an upsert of `content` for `productId` at `now`. */
  function Upsert(summaries: map<int, Summary>, productId: int, content: string, now: int): (m: map<int, Summary>)
    ensures m.Keys == summaries.Keys + {productId}
    ensures m[productId] == SummaryRecord(productId, content, now)
    ensures forall p :: p in summaries && p != productId ==> m[p] == summaries[p]
  {
    summaries[productId := SummaryRecord(productId, content, now)]
  }

  /** The repository: the review table and the summary table, updated in place. */
  class Repository {
    var reviews: seq<Review>
    var summaries: map<int, Summary>

    ghost predicate Valid()
      reads this
    {
      WellFormed(summaries)
    }

    constructor (reviews: seq<Review>)
      ensures Valid()
      ensures this.reviews == reviews && summaries == map[]
    {
      this.reviews := reviews;
      summaries := map[];
    }

    /** `getReviews(productId, limit)`: the product's reviews, newest first, at most `limit` of them. */
    function GetReviews(productId: int, limit: Option<nat>): (r: seq<Review>)
      reads this
      ensures forall x :: x in r ==> x in reviews && x.productId == productId
      ensures NewestFirst(r)
      ensures limit.None? ==> multiset(r) == multiset(OfProduct(reviews, productId))
      ensures limit.Some? ==> |r| <= limit.value
      ensures limit.Some? ==> |r| == if limit.value < |OfProduct(reviews, productId)| then limit.value else |OfProduct(reviews, productId)|
      ensures r <= SortNewestFirst(OfProduct(reviews, productId))
    {
      var matching := OfProduct(reviews, productId);
      var sorted := SortNewestFirst(matching);
      SameElements(sorted, matching);
      Take(sorted, limit)
    }

    /** `storeReviewSummary(productId, summary)` at time `now`: upsert of one whole record. */
    method StoreReviewSummary(productId: int, summary: string, now: int) returns (stored: Summary)
      requires Valid()
      modifies this
      ensures Valid()
      ensures stored == SummaryRecord(productId, summary, now)
      ensures summaries == Upsert(old(summaries), productId, summary, now)
      ensures reviews == old(reviews)
    {
      stored := SummaryRecord(productId, summary, now);
      summaries := summaries[productId := stored];
    }

    /** `getReviewSummary(productId)` at time `now`: the content while `expiresAt > now`, otherwise null. */
    function GetReviewSummary(productId: int, now: int): (r: Option<string>)
      reads this
      ensures r.Some? <==> productId in summaries && now < summaries[productId].expiresAt
      ensures r.Some? ==> r.value == summaries[productId].content
    {
      LiveSummary(summaries, productId, now)
    }
  }

  /** Storing at `t` and reading at `t'` gives the stored text exactly when `t' < t + 7 days`. */
  lemma ReadAfterStore(summaries: map<int, Summary>, productId: int, content: string, t: int, t': int)
    ensures LiveSummary(Upsert(summaries, productId, content, t), productId, t') ==
            if t' < t + SummaryTtlMs then Some(content) else None
  {
  }

  /** Storing for one product changes what every other product reads at any time: nothing. */
  lemma StoreLeavesOthers(summaries: map<int, Summary>, productId: int, content: string, t: int, other: int, t': int)
    requires other != productId
    ensures LiveSummary(Upsert(summaries, productId, content, t), other, t') == LiveSummary(summaries, other, t')
  {
  }

  /** An upsert keeps the table well formed, whether or not the product already had a record. */
  lemma UpsertKeepsWellFormed(summaries: map<int, Summary>, productId: int, content: string, now: int)
    requires WellFormed(summaries)
    ensures WellFormed(Upsert(summaries, productId, content, now))
  {
  }

  /**
   * In a well-formed table, a summary that reads as live belongs to the
   * product asked for and was generated less than seven days before `now`.
   */
  lemma LiveSummaryIsRecent(summaries: map<int, Summary>, productId: int, now: int)
    requires WellFormed(summaries)
    requires LiveSummary(summaries, productId, now).Some?
    ensures summaries[productId].productId == productId
    ensures now < summaries[productId].generatedAt + SummaryTtlMs
  {
  }

  /** Once a summary reads as absent it stays absent as time goes on, until the next store. */
  lemma ExpiredStaysExpired(summaries: map<int, Summary>, productId: int, t: int, t': int)
    requires t <= t'
    requires LiveSummary(summaries, productId, t).None?
    ensures LiveSummary(summaries, productId, t').None?
  {
  }
}
