/** The product catalog as the farmer controller edits it: creation with its
    required-field check, and the owner-only field merge of an update. */
module Products {
  import opened Wrappers
  import opened Domain

  datatype Product = Product(
    name: string,
    description: string,
    price: real,
    quantity: real,
    farmName: string,
    location: string,
    images: seq<string>,
    farmer: FarmerId)

  type Catalog = map<ProductId, Product>

  /** The product fields of a request body; an absent string field is "". */
  datatype ProductFields = ProductFields(
    name: string,
    description: string,
    price: Option<real>,
    quantity: Option<real>,
    farmName: string,
    location: string,
    images: Option<seq<string>>)

  /** Every field truthy and at least one image: what creation insists on. */
  predicate Complete(f: ProductFields)
  {
    && f.name != "" && f.description != ""
    && Truthy(f.price) && Truthy(f.quantity)
    && f.farmName != "" && f.location != ""
    && f.images.Some? && |f.images.value| > 0
  }

  /** Create a product owned by the calling farmer under a fresh id. */
  function CreateProduct(catalog: Catalog, id: ProductId, caller: FarmerId, f: ProductFields): (r: Result<Catalog, Error>)
    requires id !in catalog
    ensures r.Err? <==> !Complete(f)
    ensures r.Err? ==> r.error == MissingFields
    ensures r.Ok? ==> r.value.Keys == catalog.Keys + {id}
    ensures r.Ok? ==> forall p :: p in catalog ==> r.value[p] == catalog[p]
    ensures r.Ok? ==> var made := r.value[id];
      && made.farmer == caller && made.name == f.name && made.description == f.description
      && made.price != 0.0 && Some(made.price) == f.price
      && made.quantity != 0.0 && Some(made.quantity) == f.quantity
      && made.farmName == f.farmName && made.location == f.location
      && |made.images| > 0 && Some(made.images) == f.images
  {
    if !Complete(f) then Err(MissingFields)
    else
      Ok(catalog[id := Product(f.name, f.description, f.price.value, f.quantity.value,
                               f.farmName, f.location, f.images.value, caller)])
  }

  /** A string field after an update: the supplied value unless it is empty, then the current one. */
  function OrText(supplied: string, current: string): string
  {
    if supplied != "" then supplied else current
  }

  /** A numeric field after an update: the supplied value when it is truthy, else the current one. */
  function OrNumber(supplied: Option<real>, current: real): real
  {
    if Truthy(supplied) then supplied.value else current
  }

  /** The image list after an update: any supplied list, even an empty one (an empty array is truthy in JavaScript), else the current one. */
  function OrImages(supplied: Option<seq<string>>, current: seq<string>): seq<string>
  {
    if supplied.Some? then supplied.value else current
  }

  /** The field merge of an update: each field replaced only by a truthy value. */
  function Merge(p: Product, f: ProductFields): Product
  {
    Product(OrText(f.name, p.name), OrText(f.description, p.description),
            OrNumber(f.price, p.price), OrNumber(f.quantity, p.quantity),
            OrText(f.farmName, p.farmName), OrText(f.location, p.location),
            OrImages(f.images, p.images), p.farmer)
  }

  /** Update a product: refused unless the caller is the product's farmer. */
  function UpdateProduct(catalog: Catalog, id: ProductId, caller: FarmerId, f: ProductFields): (r: Result<Catalog, Error>)
    ensures r == Err(ProductNotFound) <==> id !in catalog
    ensures r == Err(NotProductOwner) <==> id in catalog && catalog[id].farmer != caller
    ensures r.Ok? <==> id in catalog && catalog[id].farmer == caller
    ensures r.Ok? ==> r.value.Keys == catalog.Keys
    ensures r.Ok? ==> forall p :: p in catalog && p != id ==> r.value[p] == catalog[p]
    ensures r.Ok? ==> var old_ := catalog[id]; var new_ := r.value[id];
      && new_.farmer == old_.farmer
      && (f.name != "" ==> new_.name == f.name) && (f.name == "" ==> new_.name == old_.name)
      && (f.description != "" ==> new_.description == f.description)
      && (f.description == "" ==> new_.description == old_.description)
      && (Truthy(f.price) ==> new_.price == f.price.value) && (!Truthy(f.price) ==> new_.price == old_.price)
      && (Truthy(f.quantity) ==> new_.quantity == f.quantity.value)
      && (!Truthy(f.quantity) ==> new_.quantity == old_.quantity)
      && (f.farmName != "" ==> new_.farmName == f.farmName) && (f.farmName == "" ==> new_.farmName == old_.farmName)
      && (f.location != "" ==> new_.location == f.location) && (f.location == "" ==> new_.location == old_.location)
      && (f.images.Some? ==> new_.images == f.images.value) && (f.images.None? ==> new_.images == old_.images)
  {
    if id !in catalog then Err(ProductNotFound)
    else if catalog[id].farmer != caller then Err(NotProductOwner)
    else Ok(catalog[id := Merge(catalog[id], f)])
  }

  /** Applying the same update twice is applying it once. */
  lemma UpdateProductIdempotent(catalog: Catalog, id: ProductId, caller: FarmerId, f: ProductFields)
    requires UpdateProduct(catalog, id, caller, f).Ok?
    ensures UpdateProduct(UpdateProduct(catalog, id, caller, f).value, id, caller, f)
         == UpdateProduct(catalog, id, caller, f)
  {
    var once := Merge(catalog[id], f);
    assert Merge(once, f) == once;
    assert catalog[id := once][id := once] == catalog[id := once];
  }

  /** The text fields and price of a product as creation guarantees them: all set. Stock is
      left out, since a checkout may take it to zero. */
  predicate Described(p: Product)
  {
    && p.name != "" && p.description != "" && p.farmName != "" && p.location != ""
    && p.price != 0.0
  }

  /** A product with at least one image, as creation guarantees. */
  predicate Illustrated(p: Product)
  {
    |p.images| > 0
  }

  /** Every product of the catalog is described and illustrated. */
  predicate WellListed(catalog: Catalog)
  {
    forall id :: id in catalog ==> Described(catalog[id]) && Illustrated(catalog[id])
  }

  /** Creation keeps every product of the catalog described and illustrated. */
  lemma CreateKeepsListing(catalog: Catalog, id: ProductId, caller: FarmerId, f: ProductFields)
    requires id !in catalog && WellListed(catalog)
    ensures var r := CreateProduct(catalog, id, caller, f);
      r.Ok? ==> WellListed(r.value) && r.value[id].farmer == caller
  {
    var r := CreateProduct(catalog, id, caller, f);
    if r.Ok? {
      forall p | p in r.value ensures Described(r.value[p]) && Illustrated(r.value[p]) {
        if p != id {
          assert r.value[p] == catalog[p];
        }
      }
    }
  }

  /** An update keeps every product described: a field is only ever replaced by a truthy value. */
  lemma UpdateKeepsDescription(catalog: Catalog, id: ProductId, caller: FarmerId, f: ProductFields)
    requires forall p :: p in catalog ==> Described(catalog[p])
    ensures var r := UpdateProduct(catalog, id, caller, f);
      r.Ok? ==> forall p :: p in r.value ==> Described(r.value[p])
  {
    var r := UpdateProduct(catalog, id, caller, f);
    if r.Ok? {
      forall p | p in r.value ensures Described(r.value[p]) {
        if p != id {
          assert r.value[p] == catalog[p];
        }
      }
    }
  }

  /** An update can leave a product with no image: an empty list is truthy, so it replaces the
      images that creation insisted on. */
  lemma UpdateCanDropImages()
    ensures var before := map["P" := Product("Honey", "Raw", 5.0, 3.0, "Hill", "Vale", ["h.png"], "F")];
            var f := ProductFields("", "", None, None, "", "", Some([]));
            var r := UpdateProduct(before, "P", "F", f);
      && WellListed(before) && r.Ok? && !WellListed(r.value) && r.value["P"].images == []
  {
    var before := map["P" := Product("Honey", "Raw", 5.0, 3.0, "Hill", "Vale", ["h.png"], "F")];
    assert Illustrated(before["P"]);
  }

  /** An update that supplies quantity 0 leaves the stock as it was: 0 is falsy. */
  lemma UpdateCannotZeroStock(catalog: Catalog, id: ProductId, caller: FarmerId, f: ProductFields)
    requires f.quantity == Some(0.0)
    requires UpdateProduct(catalog, id, caller, f).Ok?
    ensures UpdateProduct(catalog, id, caller, f).value[id].quantity == catalog[id].quantity
  {
  }

  /** A product with price 0 or quantity 0 cannot be created. */
  lemma CreateRejectsZero(catalog: Catalog, id: ProductId, caller: FarmerId, f: ProductFields)
    requires id !in catalog
    requires f.price == Some(0.0) || f.quantity == Some(0.0)
    ensures CreateProduct(catalog, id, caller, f) == Err(MissingFields)
  {
  }
}
