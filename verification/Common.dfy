/** Vocabulary shared by the modules: options, and the listing record that the
    extraction worker produces and the queue stores. */
module Common {
  datatype Option<+T> = None | Some(value: T)

  /** One extracted product card. Every field but the first four may be missing;
      the text fields use "" for missing, as both ends of the wire do. */
  datatype Listing = Listing(
    marketplace: string,
    externalId: string,
    title: string,
    url: string,
    imageUrl: string,
    seller: string,
    price: Option<int>,
    originalPrice: Option<int>,
    shipping: Option<int>,
    currency: string,
    available: Option<bool>,
    rating: Option<real>,
    reviews: Option<int>,
    sold: Option<int>,
    sponsored: Option<bool>)

  /** What makes two listings the same product. */
  datatype Key = Key(marketplace: string, externalId: string)

  function KeyOf(item: Listing): Key {
    Key(item.marketplace, item.externalId)
  }

  /** Both the extractor and the store ignore a listing without id, title or URL. */
  predicate Usable(item: Listing) {
    item.externalId != "" && item.title != "" && item.url != ""
  }

  lemma {:induction false} SubsetCount<T>(a: set<T>, b: set<T>)
    requires a <= b
    ensures |a| <= |b|
    ensures |a| == |b| ==> a == b
  {
    if a != {} {
      var x :| x in a;
      SubsetCount(a - {x}, b - {x});
    }
  }
}
