/** The request handlers of server/routes/product.js over the in-memory store. */
module ProductRoutes {
  import opened Values
  import opened Catalog
  import opened Store

  /** The body of `POST /admin/product/new`. */
  datatype NewProduct = NewProduct(name: string, price: real, stock: int, images: ImagesField)

  /** The body of `PUT /admin/product/:id`: the fields it sets, if any. */
  datatype ProductPatch = ProductPatch(name: Option<string>, price: Option<real>, stock: Option<int>, images: ImagesField)

  const ProductNotFound: Failure := HttpError(404, "Product not found")

  /** The product record `Product.create` stores: the body's fields, the
      uploaded images, the requesting user, and no reviews yet. */
  function CreatedProduct(user: Id, body: NewProduct, images: seq<Image>): (p: Product)
    ensures WellFormed(p) && p.images == images && p.owner == user
  {
    Product(user, body.name, body.price, body.stock, images, [], Finite(0.0), 0)
  }

  /** `findByIdAndUpdate(id, body)`: the fields the patch sets are replaced,
      the others kept; `images` is the list to store. */
  function Patched(p: Product, patch: ProductPatch, images: seq<Image>): (q: Product)
    ensures q.reviews == p.reviews && q.numOfReviews == p.numOfReviews && q.rating == p.rating
    ensures WellFormed(p) ==> WellFormed(q)
  {
    p.(name := if patch.name.Some? then patch.name.value else p.name,
       price := if patch.price.Some? then patch.price.value else p.price,
       stock := if patch.stock.Some? then patch.stock.value else p.stock,
       images := images)
  }

  /** The upload loop of create and update: one host call per file, in order. */
  method UploadAll(db: Db, files: seq<string>) returns (links: seq<Image>)
    requires db.Valid()
    modifies db
    ensures db.Valid()
    ensures links == HostedImages(|old(db.hostLog)|, files)
    ensures db.hostLog == old(db.hostLog) + UploadCalls(files)
    ensures db.products == old(db.products) && db.orders == old(db.orders)
  {
    links := [];
    var i := 0;
    while i < |files|
      invariant 0 <= i <= |files|
      invariant db.Valid()
      invariant links == HostedImages(|old(db.hostLog)|, files[..i])
      invariant db.hostLog == old(db.hostLog) + UploadCalls(files[..i])
      invariant db.products == old(db.products) && db.orders == old(db.orders)
    {
      var image := db.UploadImage(files[i]);
      links := links + [image];
      i := i + 1;
    }
    assert files[..i] == files;
  }

  /** The destroy loop of update and delete: one host call per stored image. */
  method DestroyAll(db: Db, images: seq<Image>)
    requires db.Valid()
    modifies db
    ensures db.Valid()
    ensures db.hostLog == old(db.hostLog) + DestroyCalls(images)
    ensures db.products == old(db.products) && db.orders == old(db.orders)
  {
    var i := 0;
    while i < |images|
      invariant 0 <= i <= |images|
      invariant db.Valid()
      invariant db.hostLog == old(db.hostLog) + DestroyCalls(images[..i])
      invariant db.products == old(db.products) && db.orders == old(db.orders)
    {
      db.DestroyImage(images[i].publicId);
      i := i + 1;
    }
    assert images[..i] == images;
  }

  /** `POST /admin/product/new`. Without an `images` field the loop reads the
      length of `undefined` and fails before anything is stored. */
  method CreateProduct(db: Db, user: Id, body: NewProduct, newId: Id) returns (r: Outcome<Product>)
    requires db.Valid() && newId !in db.products
    modifies db
    ensures db.Valid()
    ensures body.images.Absent? ==> r == Fail(TypeError) && unchanged(db)
    ensures !body.images.Absent? ==>
      var files := ImageList(body.images).value;
      var p := CreatedProduct(user, body, HostedImages(|old(db.hostLog)|, files));
      r == Ok(p) &&
      db.products == old(db.products)[newId := p] &&
      db.hostLog == old(db.hostLog) + UploadCalls(files) &&
      db.orders == old(db.orders)
  {
    var images := ImageList(body.images);
    if images.None? {
      return Fail(TypeError);
    }
    var links := UploadAll(db, images.value);
    var p := CreatedProduct(user, body, links);
    db.products := db.products[newId := p];
    r := Ok(p);
  }

  /** `GET /product/:id`. */
  function GetProduct(db: Db, id: Id): (r: Outcome<Product>)
    reads db
    ensures r == Fail(ProductNotFound) <==> id !in db.products
    ensures r.Ok? ==> r.value == db.products[id]
  {
    if id in db.products then Ok(db.products[id]) else Fail(ProductNotFound)
  }

  /** `PUT /admin/product/:id`. Without an `images` field the stored images are
      kept and the host is not called; otherwise every stored image is
      destroyed and every sent image uploaded, in order. */
  method UpdateProduct(db: Db, id: Id, patch: ProductPatch) returns (r: Outcome<Product>)
    requires db.Valid()
    modifies db
    ensures db.Valid()
    ensures id !in old(db.products) ==> r == Fail(ProductNotFound) && unchanged(db)
    ensures id in old(db.products) && patch.images.Absent? ==>
      var p := Patched(old(db.products)[id], patch, old(db.products)[id].images);
      r == Ok(p) &&
      db.products == old(db.products)[id := p] &&
      db.hostLog == old(db.hostLog) && db.orders == old(db.orders)
    ensures id in old(db.products) && !patch.images.Absent? ==>
      var before := old(db.products)[id];
      var files := ImageList(patch.images).value;
      var links := HostedImages(|old(db.hostLog)| + |before.images|, files);
      var p := Patched(before, patch, links);
      r == Ok(p) &&
      db.products == old(db.products)[id := p] &&
      db.hostLog == old(db.hostLog) + DestroyCalls(before.images) + UploadCalls(files) &&
      db.orders == old(db.orders)
  {
    if id !in db.products {
      return Fail(ProductNotFound);
    }
    var product := db.products[id];
    var images := ImageList(patch.images);
    var stored := product.images;
    if images.Some? {
      DestroyAll(db, product.images);
      stored := UploadAll(db, images.value);
    }
    var p := Patched(product, patch, stored);
    db.products := db.products[id := p];
    r := Ok(p);
  }

  /** `DELETE /admin/product/:id`: the product's images are destroyed on the
      host, then the product is removed. */
  method DeleteProduct(db: Db, id: Id) returns (r: Outcome<()>)
    requires db.Valid()
    modifies db
    ensures db.Valid()
    ensures id !in old(db.products) ==> r == Fail(ProductNotFound) && unchanged(db)
    ensures id in old(db.products) ==>
      r == Ok(()) &&
      db.products == old(db.products) - {id} &&
      db.hostLog == old(db.hostLog) + DestroyCalls(old(db.products)[id].images) &&
      db.orders == old(db.orders)
  {
    if id !in db.products {
      return Fail(ProductNotFound);
    }
    DestroyAll(db, db.products[id].images);
    db.products := db.products - {id};
    r := Ok(());
  }

  /** `PUT /review`. The handler does not check that the product exists: a
      missing one fails on `product.reviews`. Otherwise it looks for a review
      by the user (`find`), edits every such review in place (`forEach`) or
      appends a new one, and stores the mean rating. `reviewId` stands for the
      fresh `_id` Mongoose gives the pushed review, so no stored review has it. */
  method PutReview(db: Db, user: Id, userName: string, productId: Id, rating: real, comment: string, reviewId: Id)
    returns (r: Outcome<()>)
    requires db.Valid()
    requires productId in db.products ==>
      forall k :: 0 <= k < |db.products[productId].reviews| ==> db.products[productId].reviews[k].id != reviewId
    modifies db
    ensures db.Valid()
    ensures productId !in old(db.products) ==> r == Fail(TypeError) && unchanged(db)
    ensures productId in old(db.products) ==>
      r == Ok(()) &&
      db.products == old(db.products)[productId :=
        UpsertProduct(old(db.products)[productId], Review(reviewId, user, userName, rating, comment))] &&
      db.hostLog == old(db.hostLog) && db.orders == old(db.orders)
  {
    var review := Review(reviewId, user, userName, rating, comment);
    if productId !in db.products {
      return Fail(TypeError);
    }
    var product := db.products[productId];
    var reviews := product.reviews;

    var i := 0;
    while i < |reviews| && reviews[i].user != user
      invariant 0 <= i <= |reviews|
      invariant forall k :: 0 <= k < i ==> reviews[k].user != user
    {
      i := i + 1;
    }
    var isReviewed := i < |reviews|;
    assert isReviewed == ReviewedBy(reviews, user);

    var numOfReviews := product.numOfReviews;
    if isReviewed {
      var j := 0;
      while j < |reviews|
        invariant 0 <= j <= |reviews| == |product.reviews|
        invariant forall k :: 0 <= k < j ==>
          reviews[k] == EditReviews(product.reviews, user, rating, comment)[k]
        invariant forall k :: j <= k < |reviews| ==> reviews[k] == product.reviews[k]
      {
        if reviews[j].user == user {
          reviews := reviews[j := reviews[j].(comment := comment, rating := rating)];
        }
        j := j + 1;
      }
      assert reviews == EditReviews(product.reviews, user, rating, comment);
    } else {
      reviews := reviews + [review];
      numOfReviews := |reviews|;
    }

    var p := product.(reviews := reviews, numOfReviews := numOfReviews,
                      rating := Divide(SumRatings(reviews), |reviews|));
    UpsertKeepsWellFormed(product, review);
    db.products := db.products[productId := p];
    r := Ok(());
  }

  /** `GET /reviews`: the product's reviews; a missing product fails on
      `product.reviews`. */
  function GetReviews(db: Db, productId: Id): (r: Outcome<seq<Review>>)
    reads db
    ensures r == Fail(TypeError) <==> productId !in db.products
    ensures r.Ok? ==> r.value == db.products[productId].reviews
  {
    if productId in db.products then Ok(db.products[productId].reviews) else Fail(TypeError)
  }

  /** `DELETE /reviews`: filter the review out and store the counters as the
      handler computes them (see `Catalog.RemoveReview`). */
  method DeleteReviews(db: Db, productId: Id, reviewId: Id) returns (r: Outcome<()>)
    requires db.Valid()
    modifies db
    ensures db.Valid()
    ensures productId !in old(db.products) ==> r == Fail(TypeError) && unchanged(db)
    ensures productId in old(db.products) ==>
      r == Ok(()) &&
      db.products == old(db.products)[productId := RemoveReview(old(db.products)[productId], reviewId)] &&
      db.hostLog == old(db.hostLog) && db.orders == old(db.orders)
    ensures productId in old(db.products) ==>
      var before := old(db.products)[productId].reviews;
      forall k :: 0 <= k < |before| && before[k].id == reviewId ==>
        db.products[productId].reviews == before[..k] + before[k + 1..]
  {
    if productId !in db.products {
      return Fail(TypeError);
    }
    var product := db.products[productId];
    RemoveReviewKeepsWellFormed(product, reviewId);
    forall k | 0 <= k < |product.reviews| && product.reviews[k].id == reviewId {
      RemoveReviewAt(product, k);
    }
    db.products := db.products[productId := RemoveReview(product, reviewId)];
    r := Ok(());
  }
}
