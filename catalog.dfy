/** Products, their reviews and their images, and the list logic that the
    product routes (server/routes/product.js) apply to them. */
module Catalog {
  import opened Values
  import opened Lists

  /** Document ids (MongoDB ObjectIds) compared through their string form. */
  type Id = string

  /** A review as stored in a product: `_id`, `user`, `name`, `rating`, `comment`. */
  datatype Review = Review(id: Id, user: Id, name: string, rating: real, comment: string)

  /** An image of a product: the image host's public id and the address of the
      hosted copy. The model identifies that address with the uploaded file. */
  datatype Image = Image(publicId: nat, url: string)

  datatype Product = Product(
    owner: Id,
    name: string,
    price: real,
    stock: int,
    images: seq<Image>,
    reviews: seq<Review>,
    rating: Num,
    numOfReviews: int)

  // ---------------------------------------------------------------------------
  // Reviews

  predicate ReviewedBy(rs: seq<Review>, user: Id) {
    exists i :: 0 <= i < |rs| && rs[i].user == user
  }

  function ReviewId(r: Review): Id { r.id }
  function Reviewer(r: Review): Id { r.user }
  function RatingOf(r: Review): real { r.rating }

  predicate OneReviewPerUser(rs: seq<Review>) {
    UniqueKeys(rs, Reviewer)
  }

  /** Review ids are unique: Mongoose gives every review pushed into the list a
      fresh `_id`. */
  predicate UniqueReviewIds(rs: seq<Review>) {
    UniqueKeys(rs, ReviewId)
  }

  /** The bookkeeping every stored product keeps: one review per user, unique
      review ids and a review count equal to the length of the review list. */
  predicate WellFormed(p: Product) {
    OneReviewPerUser(p.reviews) && UniqueReviewIds(p.reviews) && p.numOfReviews == |p.reviews|
  }

  /** `reviews.reduce((acc, item) => item.rating + acc, 0)`, folded left to right. */
  function SumRatings(rs: seq<Review>): (s: real)
    ensures (forall i :: 0 <= i < |rs| ==> 0.0 <= rs[i].rating) ==> 0.0 <= s
  {
    Sum(rs, RatingOf)
  }

  /** Every rating of `rs` lies in [lo, hi]. */
  predicate RatingsWithin(rs: seq<Review>, lo: real, hi: real) {
    forall i :: 0 <= i < |rs| ==> lo <= rs[i].rating <= hi
  }

  /** When every rating lies in [lo, hi], the sum lies between n*lo and n*hi. */
  lemma {:induction false} SumRatingsBounds(rs: seq<Review>, lo: real, hi: real)
    requires RatingsWithin(rs, lo, hi)
    ensures lo * (|rs| as real) <= SumRatings(rs) <= hi * (|rs| as real)
    decreases |rs|
  {
    if rs != [] {
      var init, last := rs[..|rs| - 1], rs[|rs| - 1];
      assert RatingsWithin(init, lo, hi) by {
        forall i | 0 <= i < |init| ensures lo <= init[i].rating <= hi {
          assert init[i] == rs[i];
        }
      }
      SumRatingsBounds(init, lo, hi);
      SumRatingsLast(rs);
      BoundsStep(SumRatings(init), last.rating, |init| as real, lo, hi);
    }
  }

  lemma SumRatingsLast(rs: seq<Review>)
    requires rs != []
    ensures SumRatings(rs) == SumRatings(rs[..|rs| - 1]) + rs[|rs| - 1].rating
  {
  }

  lemma BoundsStep(s: real, x: real, n: real, lo: real, hi: real)
    requires lo * n <= s <= hi * n && lo <= x <= hi
    ensures lo * (n + 1.0) <= s + x <= hi * (n + 1.0)
  {
    assert lo * (n + 1.0) == lo * n + lo;
    assert hi * (n + 1.0) == hi * n + hi;
  }

  /** A mean of ratings that all lie in [lo, hi] lies in [lo, hi] too. */
  lemma MeanWithinBounds(rs: seq<Review>, lo: real, hi: real)
    requires rs != [] && RatingsWithin(rs, lo, hi)
    ensures Divide(SumRatings(rs), |rs|).Finite?
    ensures lo <= Divide(SumRatings(rs), |rs|).value <= hi
  {
    SumRatingsBounds(rs, lo, hi);
    QuotientBounds(SumRatings(rs), |rs| as real, lo, hi);
  }

  lemma QuotientBounds(s: real, n: real, lo: real, hi: real)
    requires n > 0.0 && lo * n <= s <= hi * n
    ensures lo <= s / n <= hi
  {
  }

  /** The `forEach` of the review handler: every review by `user` gets the new
      comment and rating; the others stay as they are. */
  function EditReviews(rs: seq<Review>, user: Id, rating: real, comment: string): (r: seq<Review>)
    ensures |r| == |rs|
    ensures forall i :: 0 <= i < |rs| ==>
      r[i].id == rs[i].id && r[i].user == rs[i].user && r[i].name == rs[i].name
  {
    seq(|rs|, i requires 0 <= i < |rs| =>
      if rs[i].user == user then rs[i].(comment := comment, rating := rating) else rs[i])
  }

  /** The review list after `PUT /review`: edit the user's review in place, or
      append the new one. */
  function UpsertReviews(rs: seq<Review>, review: Review): (r: seq<Review>)
    ensures |rs| <= |r| <= |rs| + 1
    ensures forall i :: 0 <= i < |rs| ==> r[i].id == rs[i].id && r[i].user == rs[i].user
    ensures forall i :: |rs| <= i < |r| ==> r[i] == review
  {
    if ReviewedBy(rs, review.user) then EditReviews(rs, review.user, review.rating, review.comment)
    else rs + [review]
  }

  /** The product after `PUT /review`. The review count is only assigned on the
      append branch; the rating is the sum of the ratings over the new length. */
  function UpsertProduct(p: Product, review: Review): (q: Product)
    ensures q.reviews != []
    ensures q.(reviews := p.reviews, rating := p.rating, numOfReviews := p.numOfReviews) == p
  {
    var rs := UpsertReviews(p.reviews, review);
    p.(reviews := rs,
       numOfReviews := if ReviewedBy(p.reviews, review.user) then p.numOfReviews else |rs|,
       rating := Divide(SumRatings(rs), |rs|))
  }

  /** An existing reviewer's entry is edited in place: the list keeps its
      length, that user's entries carry the new comment and rating and nothing
      else changes, and so does the review count. */
  lemma UpsertEditsInPlace(p: Product, review: Review)
    requires ReviewedBy(p.reviews, review.user)
    ensures var q := UpsertProduct(p, review);
      |q.reviews| == |p.reviews| && q.numOfReviews == p.numOfReviews &&
      forall i :: 0 <= i < |p.reviews| ==>
        if p.reviews[i].user == review.user
        then q.reviews[i] == p.reviews[i].(comment := review.comment, rating := review.rating)
        else q.reviews[i] == p.reviews[i]
  {
  }

  /** A first review by a user is appended at the end and the count becomes the
      new length. */
  lemma UpsertAppends(p: Product, review: Review)
    requires !ReviewedBy(p.reviews, review.user)
    ensures var q := UpsertProduct(p, review);
      q.reviews == p.reviews + [review] && q.numOfReviews == |q.reviews|
  {
  }

  /** Reviews of other users keep their place and their content. */
  lemma UpsertLeavesOthers(p: Product, review: Review, i: nat)
    requires i < |p.reviews| && p.reviews[i].user != review.user
    ensures var q := UpsertProduct(p, review); i < |q.reviews| && q.reviews[i] == p.reviews[i]
  {
  }

  /** One review per user survives an upsert, and the user then has exactly one. */
  lemma UpsertKeepsOneReviewPerUser(p: Product, review: Review)
    requires OneReviewPerUser(p.reviews)
    ensures var q := UpsertProduct(p, review);
      OneReviewPerUser(q.reviews) && ReviewedBy(q.reviews, review.user)
  {
    var rs := UpsertReviews(p.reviews, review);
    if ReviewedBy(p.reviews, review.user) {
      var k :| 0 <= k < |p.reviews| && p.reviews[k].user == review.user;
      assert rs[k].user == review.user;
      forall i, j | 0 <= i < j < |rs| ensures rs[i].user != rs[j].user {
        assert rs[i].user == p.reviews[i].user && rs[j].user == p.reviews[j].user;
      }
    } else {
      assert rs[|p.reviews|].user == review.user;
    }
  }

  /** After an upsert the rating times the number of reviews is the sum of all
      ratings, so the rating is the mean of the current review set. */
  lemma UpsertRatingIsMean(p: Product, review: Review)
    ensures var q := UpsertProduct(p, review);
      q.reviews != [] && q.rating.Finite? &&
      q.rating.value * (|q.reviews| as real) == SumRatings(q.reviews)
  {
  }

  /** Ratings on the 1 to 5 scale give a rating on the 1 to 5 scale. */
  lemma UpsertRatingInRange(p: Product, review: Review)
    requires RatingsWithin(p.reviews, 1.0, 5.0) && 1.0 <= review.rating <= 5.0
    ensures var q := UpsertProduct(p, review);
      q.rating.Finite? && 1.0 <= q.rating.value <= 5.0
  {
    var rs := UpsertReviews(p.reviews, review);
    forall i | 0 <= i < |rs| ensures 1.0 <= rs[i].rating <= 5.0 {
      if i < |p.reviews| {
        assert rs[i].rating == p.reviews[i].rating || rs[i].rating == review.rating;
      }
    }
    MeanWithinBounds(rs, 1.0, 5.0);
  }

  /** A review added by an upsert carries an id no stored review has, so the
      ids stay unique. */
  lemma UpsertKeepsUniqueReviewIds(p: Product, review: Review)
    requires UniqueReviewIds(p.reviews)
    requires forall k :: 0 <= k < |p.reviews| ==> p.reviews[k].id != review.id
    ensures UniqueReviewIds(UpsertProduct(p, review).reviews)
  {
    var rs := UpsertReviews(p.reviews, review);
    forall i, j | 0 <= i < j < |rs| ensures ReviewId(rs[i]) != ReviewId(rs[j]) {
      assert rs[i].id == p.reviews[i].id;
      if j < |p.reviews| {
        assert rs[j].id == p.reviews[j].id;
      }
    }
  }

  /** An upsert with a fresh review id keeps a well-formed product well-formed. */
  lemma UpsertKeepsWellFormed(p: Product, review: Review)
    requires WellFormed(p)
    requires forall k :: 0 <= k < |p.reviews| ==> p.reviews[k].id != review.id
    ensures WellFormed(UpsertProduct(p, review))
  {
    UpsertKeepsOneReviewPerUser(p, review);
    UpsertKeepsUniqueReviewIds(p, review);
  }

  /** The `filter` of `DELETE /reviews`: the reviews whose id differs from `id`,
      in their order. */
  function WithoutReview(rs: seq<Review>, id: Id): (r: seq<Review>)
    ensures |r| <= |rs|
    ensures forall k :: 0 <= k < |r| ==> r[k].id != id
  {
    Without(rs, ReviewId, id)
  }

  lemma WithoutReviewRatingsWithin(rs: seq<Review>, id: Id, lo: real, hi: real)
    requires RatingsWithin(rs, lo, hi)
    ensures RatingsWithin(WithoutReview(rs, id), lo, hi)
  {
    var r := WithoutReview(rs, id);
    forall i | 0 <= i < |r| ensures lo <= r[i].rating <= hi {
      WithoutMember(rs, ReviewId, id, r[i]);
      var m :| 0 <= m < |rs| && rs[m] == r[i];
    }
  }

  /** The product after `DELETE /reviews`, as the handler computes it: the
      filtered list, its length as the count, and as rating the sum over the
      list BEFORE filtering divided by the length AFTER filtering. */
  function RemoveReview(p: Product, id: Id): (q: Product)
    ensures q.(reviews := p.reviews, rating := p.rating, numOfReviews := p.numOfReviews) == p
    ensures q.numOfReviews == |q.reviews| <= |p.reviews|
    ensures forall k :: 0 <= k < |q.reviews| ==> q.reviews[k].id != id
    ensures q.reviews != [] ==>
      q.rating.Finite? && q.rating.value * (|q.reviews| as real) == SumRatings(p.reviews)
  {
    var kept := WithoutReview(p.reviews, id);
    p.(reviews := kept, numOfReviews := |kept|, rating := Divide(SumRatings(p.reviews), |kept|))
  }

  /** The rating `DELETE /reviews` evidently means to store: the mean of the
      reviews that remain (NaN, as 0/0, when none remains). */
  function IntendedRemoveReview(p: Product, id: Id): (q: Product)
    ensures q.(reviews := p.reviews, rating := p.rating, numOfReviews := p.numOfReviews) == p
    ensures q.numOfReviews == |q.reviews| <= |p.reviews|
    ensures forall k :: 0 <= k < |q.reviews| ==> q.reviews[k].id != id
    ensures q.reviews != [] ==>
      q.rating.Finite? && q.rating.value * (|q.reviews| as real) == SumRatings(q.reviews)
  {
    var kept := WithoutReview(p.reviews, id);
    p.(reviews := kept, numOfReviews := |kept|, rating := Divide(SumRatings(kept), |kept|))
  }

  /** Delete keeps the bookkeeping: one review per user, unique review ids and
      a count equal to the length. */
  lemma RemoveReviewKeepsWellFormed(p: Product, id: Id)
    requires OneReviewPerUser(p.reviews) && UniqueReviewIds(p.reviews)
    ensures WellFormed(RemoveReview(p, id)) && WellFormed(IntendedRemoveReview(p, id))
  {
    WithoutKeepsUniqueKeys(p.reviews, ReviewId, id, Reviewer);
    WithoutKeepsUniqueKeys(p.reviews, ReviewId, id, ReviewId);
  }

  /** With unique review ids, deleting the id found at index k removes exactly
      that review: the others stay, in their order. */
  lemma RemoveReviewAt(p: Product, k: nat)
    requires UniqueReviewIds(p.reviews) && k < |p.reviews|
    ensures RemoveReview(p, p.reviews[k].id).reviews == p.reviews[..k] + p.reviews[k + 1..]
  {
    WithoutAt(p.reviews, ReviewId, k);
  }

  /** As written, deleting the review at index k leaves a rating that exceeds
      the mean of the remaining reviews by the deleted rating over the new
      count, and with no review left it divides by zero. */
  lemma RemoveReviewOvershoots(p: Product, k: nat)
    requires UniqueReviewIds(p.reviews) && k < |p.reviews|
    ensures var q := RemoveReview(p, p.reviews[k].id);
      q.reviews == p.reviews[..k] + p.reviews[k + 1..] &&
      q.numOfReviews == |p.reviews| - 1 &&
      q.rating == Divide(SumRatings(q.reviews) + p.reviews[k].rating, |q.reviews|) &&
      (q.reviews == [] && p.reviews[k].rating > 0.0 ==> q.rating == PosInfinity)
  {
    var q := RemoveReview(p, p.reviews[k].id);
    var rest := p.reviews[..k] + p.reviews[k + 1..];
    RemoveReviewAt(p, k);
    assert q.reviews == rest;
    SumRatingsWithout(p.reviews, k);
    assert SumRatings(q.reviews) == SumRatings(rest);
  }

  /** The sum of all ratings is the sum without index k plus the rating at k. */
  lemma SumRatingsWithout(rs: seq<Review>, k: nat)
    requires k < |rs|
    ensures SumRatings(rs) == SumRatings(rs[..k] + rs[k + 1..]) + rs[k].rating
  {
    assert rs == rs[..k] + [rs[k]] + rs[k + 1..];
    SumRatingsSplit(rs[..k], rs[k], rs[k + 1..]);
  }

  lemma SumRatingsSplit(front: seq<Review>, x: Review, back: seq<Review>)
    ensures SumRatings(front + [x] + back) == SumRatings(front + back) + x.rating
  {
    var withX := front + [x];
    assert withX[..|withX| - 1] == front;
    SumAppend(withX, back, RatingOf);
    SumAppend(front, back, RatingOf);
  }

  /** A concrete input showing the discrepancy: ratings 4 and 2, delete the 2.
      As written the stored rating is 6, off the 1 to 5 scale; intended is 4. */
  lemma RemoveReviewCounterexample()
    ensures var p := Product("admin", "p", 1.0, 1, [], [Review("r1", "u1", "a", 4.0, ""), Review("r2", "u2", "b", 2.0, "")], Finite(3.0), 2);
      RemoveReview(p, "r2").rating == Finite(6.0) &&
      IntendedRemoveReview(p, "r2").rating == Finite(4.0)
  {
    var r1 := Review("r1", "u1", "a", 4.0, "");
    var r2 := Review("r2", "u2", "b", 2.0, "");
    var rs := [r1, r2];
    assert WithoutReview(rs, "r2") == [r1] by {
      assert rs[1..] == [r2];
      assert WithoutReview([r2], "r2") == [] by { assert [r2][1..] == []; }
    }
    assert rs[..1] == [r1];
    assert [r1][..0] == [];
  }

  /** The corrected rating is the mean of the remaining reviews and stays on
      the rating scale. */
  lemma IntendedRemoveIsMean(p: Product, id: Id)
    requires RatingsWithin(p.reviews, 1.0, 5.0)
    ensures var q := IntendedRemoveReview(p, id);
      q.reviews != [] ==>
        q.rating.Finite? && q.rating.value * (|q.reviews| as real) == SumRatings(q.reviews) &&
        1.0 <= q.rating.value <= 5.0
  {
    var kept := WithoutReview(p.reviews, id);
    if kept != [] {
      WithoutReviewRatingsWithin(p.reviews, id, 1.0, 5.0);
      MeanWithinBounds(kept, 1.0, 5.0);
    }
  }

  // ---------------------------------------------------------------------------
  // Images

  /** The `images` field of a create or update request: missing, one string, or
      a list of strings. */
  datatype ImagesField = Absent | Single(file: string) | Many(files: seq<string>)

  /** `typeof images === "string" ? [images] : images`; `None` stands for
      `undefined`. */
  function ImageList(f: ImagesField): (r: Option<seq<string>>)
    ensures r.None? <==> f.Absent?
    ensures f.Single? ==> r == Some([f.file])
    ensures f.Many? ==> r == Some(f.files)
  {
    match f
    case Absent => None
    case Single(file) => Some([file])
    case Many(files) => Some(files)
  }

  /** A call to the image host. */
  datatype HostCall = Upload(file: string) | Destroy(publicId: nat)

  function UploadCalls(files: seq<string>): seq<HostCall> {
    seq(|files|, i requires 0 <= i < |files| => Upload(files[i]))
  }

  function DestroyCalls(images: seq<Image>): seq<HostCall> {
    seq(|images|, i requires 0 <= i < |images| => Destroy(images[i].publicId))
  }

  /** The links an upload loop builds when the host has already answered
      `start` calls: one image per file, in order, each with the number of the
      call as its public id. */
  function HostedImages(start: nat, files: seq<string>): (links: seq<Image>)
    ensures |links| == |files|
    ensures forall i :: 0 <= i < |files| ==>
      links[i].url == files[i] && start <= links[i].publicId < start + |files|
  {
    seq(|files|, i requires 0 <= i < |files| => Image(start + i, files[i]))
  }

  /** The uploaded links keep the files' order and get distinct public ids,
      all issued after the first `start` calls. */
  lemma HostedImagesInOrder(start: nat, files: seq<string>)
    ensures var links := HostedImages(start, files);
      |links| == |files| &&
      (forall i :: 0 <= i < |files| ==> links[i].url == files[i] && links[i].publicId >= start) &&
      (forall i, j :: 0 <= i < j < |files| ==> links[i].publicId < links[j].publicId)
  {
  }
}
