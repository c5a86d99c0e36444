/** The document store and the image host, held in memory. */
module Store {
  import opened Values
  import opened Catalog
  import opened Sales

  /** Every stored image carries a public id among the first `issued` the host
      has handed out. */
  predicate ImagesIssued(products: map<Id, Product>, issued: nat) {
    forall id, i :: id in products && 0 <= i < |products[id].images| ==>
      products[id].images[i].publicId < issued
  }

  /** The product collection (by id), the order collection (in store order)
      and the log of calls made to the image host. */
  class Db {
    var products: map<Id, Product>
    var orders: seq<Order>
    var hostLog: seq<HostCall>

    /** Every stored product keeps its review bookkeeping, every stored image
        was issued by the host, and order ids are unique. */
    ghost predicate Valid()
      reads this
    {
      (forall id :: id in products ==> WellFormed(products[id])) &&
      ImagesIssued(products, |hostLog|) &&
      UniqueOrderIds(orders)
    }

    constructor (products: map<Id, Product>, orders: seq<Order>, hostLog: seq<HostCall>)
      requires forall id :: id in products ==> WellFormed(products[id])
      requires ImagesIssued(products, |hostLog|)
      requires UniqueOrderIds(orders)
      ensures Valid()
      ensures this.products == products && this.orders == orders && this.hostLog == hostLog
    {
      this.products := products;
      this.orders := orders;
      this.hostLog := hostLog;
    }

    /** `cloudinary.v2.uploader.upload(file)`: the host stores the file and
        answers with a public id; the model issues the number of the call,
        which no stored image carries yet. */
    method UploadImage(file: string) returns (image: Image)
      requires Valid()
      modifies this
      ensures Valid()
      ensures image == Image(|old(hostLog)|, file)
      ensures forall id, i :: id in products && 0 <= i < |products[id].images| ==>
        products[id].images[i].publicId != image.publicId
      ensures hostLog == old(hostLog) + [Upload(file)]
      ensures products == old(products) && orders == old(orders)
    {
      image := Image(|hostLog|, file);
      hostLog := hostLog + [Upload(file)];
    }

    /** `cloudinary.v2.uploader.destroy(publicId)`. */
    method DestroyImage(publicId: nat)
      requires Valid()
      modifies this
      ensures Valid()
      ensures hostLog == old(hostLog) + [Destroy(publicId)]
      ensures products == old(products) && orders == old(orders)
    {
      hostLog := hostLog + [Destroy(publicId)];
    }
  }
}
