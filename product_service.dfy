/** The product records and the business rules of ProductService: creation, lookup, the field merge
    of an update with its tag replacement, and the soft delete. The product table, the category
    table, the tag table and the product/tag link table are fields of `Catalog`. */
module ProductService {
  import opened Common

  /** Product.StockStatus. Only SOLD_OUT is named by the modelled services; any other value is
      carried by name. */
  datatype StockStatus = SoldOut | OtherStockStatus(name: string)

  /** A product row. The tags of a product are the rows of the link table that name it. */
  datatype Product = Product(
    id: int,
    stock: int,
    productName: string,
    description: Option<string>,
    price: int,
    forwardDate: int,
    score: int,
    thumbnailPath: string,
    stockStatus: StockStatus,
    categoryId: Option<int>)

  /** One row of the product_tag link table. */
  datatype ProductTag = ProductTag(productId: int, tagId: int)

  datatype ProductRequest = ProductRequest(
    stock: int,
    productName: string,
    description: Option<string>,
    price: int,
    forwardDate: int,
    thumbnailPath: string,
    stockStatus: StockStatus,
    categoryId: int)

  /** ProductUpdateRequest; `tags == None` is a request whose tag list is null. */
  datatype UpdateRequest = UpdateRequest(
    stock: int,
    productName: string,
    description: Option<string>,
    price: int,
    stockStatus: StockStatus,
    categoryId: int,
    tags: Option<seq<string>>)

  datatype CatalogError = DataNotFound(entity: string, id: int)

  datatype StockError = InsufficientStock

  // ---------------------------------------------------------------------------------------------
  // The stock counter of a product (Product.decreaseStock / Product.increaseStock)
  // ---------------------------------------------------------------------------------------------

  /** Takes `quantity` units out of stock; refuses, leaving the product as it was, when fewer than
      `quantity` units are in stock. */
  function DecreaseStock(p: Product, quantity: int): (r: Result<Product, StockError>)
    ensures r.Ok? <==> quantity <= p.stock
    ensures r.Ok? ==> r.value.stock == p.stock - quantity && r.value.(stock := p.stock) == p
  {
    if p.stock < quantity then Err(InsufficientStock) else Ok(p.(stock := p.stock - quantity))
  }

  /** Puts `quantity` units back into stock, with no upper bound. */
  function IncreaseStock(p: Product, quantity: int): (r: Product)
    ensures r.stock == p.stock + quantity && r.(stock := p.stock) == p
  {
    p.(stock := p.stock + quantity)
  }

  /** Taking units out and putting the same number back restores the product exactly. */
  lemma StockRoundTrip(p: Product, quantity: int)
    requires quantity <= p.stock
    ensures DecreaseStock(p, quantity).Ok?
    ensures IncreaseStock(DecreaseStock(p, quantity).value, quantity) == p
  {
  }

  /** A successful decrease of a non-negative quantity never drives stock below zero and never
      raises it. */
  lemma DecreaseKeepsStockNonNegative(p: Product, quantity: int)
    requires 0 <= quantity
    requires DecreaseStock(p, quantity).Ok?
    ensures 0 <= DecreaseStock(p, quantity).value.stock <= p.stock
  {
  }

  // ---------------------------------------------------------------------------------------------
  // Record rules of updateProduct and deleteProduct
  // ---------------------------------------------------------------------------------------------

  /** The record updateProduct saves: stock, name, price, stock status and category come from the
      request, the description from the request unless it is null, and id, forward date, score
      and thumbnail stay those of the stored product. */
  function MergeUpdate(p: Product, req: UpdateRequest): (r: Product)
    ensures r.id == p.id && r.forwardDate == p.forwardDate && r.score == p.score
    ensures r.thumbnailPath == p.thumbnailPath
    ensures r.stock == req.stock && r.productName == req.productName && r.price == req.price
    ensures r.stockStatus == req.stockStatus && r.categoryId == Some(req.categoryId)
    ensures req.description.None? ==> r.description == p.description
    ensures req.description.Some? ==> r.description == req.description
  {
    Product(p.id, req.stock, req.productName,
            if req.description.None? then p.description else req.description,
            req.price, p.forwardDate, p.score, p.thumbnailPath, req.stockStatus,
            Some(req.categoryId))
  }

  /** The record deleteProduct saves: stock 0 and SOLD_OUT, everything else copied. */
  function SoftDelete(p: Product): (r: Product)
    ensures r.stock == 0 && r.stockStatus == SoldOut
    ensures r.(stock := p.stock, stockStatus := p.stockStatus) == p
  {
    p.(stock := 0, stockStatus := SoldOut)
  }

  /** Repeating an update with the same request changes nothing more. */
  lemma MergeIdempotent(p: Product, req: UpdateRequest)
    ensures MergeUpdate(MergeUpdate(p, req), req) == MergeUpdate(p, req)
  {
  }

  /** A later update that carries a description overrides every field an earlier update set. */
  lemma MergeLastWriterWins(p: Product, first: UpdateRequest, second: UpdateRequest)
    requires second.description.Some?
    ensures MergeUpdate(MergeUpdate(p, first), second) == MergeUpdate(p, second)
  {
  }

  /** Deleting an updated product gives the record of an update that itself asked for stock 0 and
      SOLD_OUT. */
  lemma DeleteAfterUpdate(p: Product, req: UpdateRequest)
    ensures SoftDelete(MergeUpdate(p, req)) == MergeUpdate(p, req.(stock := 0, stockStatus := SoldOut))
  {
  }

  /** Deleting twice is deleting once. */
  lemma SoftDeleteIdempotent(p: Product)
    ensures SoftDelete(SoftDelete(p)) == SoftDelete(p)
  {
  }

  // ---------------------------------------------------------------------------------------------
  // The link table
  // ---------------------------------------------------------------------------------------------

  /** The link rows left after deleteByProductId(id), in table order. */
  function Unlinked(links: seq<ProductTag>, id: int): (r: seq<ProductTag>)
    ensures |r| <= |links|
    ensures forall l :: l in r <==> l in links && l.productId != id
  {
    if links == [] then []
    else if links[0].productId == id then Unlinked(links[1..], id)
    else [links[0]] + Unlinked(links[1..], id)
  }

  /** The link rows the tag loop adds for `names`, given the final name-to-id tag map. */
  function LinksFor(id: int, names: seq<string>, tags: map<string, int>): (r: seq<ProductTag>)
    requires forall n :: n in names ==> n in tags
    ensures |r| == |names|
    ensures forall k :: 0 <= k < |names| ==> r[k] == ProductTag(id, tags[names[k]])
  {
    if names == [] then [] else LinksFor(id, names[..|names| - 1], tags) + [ProductTag(id, tags[names[|names| - 1]])]
  }

  /** The set of names a tag list mentions. */
  function NameSet(names: seq<string>): (r: set<string>)
    ensures forall n :: n in r <==> n in names
  {
    if names == [] then {} else NameSet(names[..|names| - 1]) + {names[|names| - 1]}
  }

  class Catalog {
    var products: map<int, Product>
    var categories: set<int>
    /** The tag table, by name (findByName). */
    var tags: map<string, int>
    var links: seq<ProductTag>
    var nextProductId: int
    var nextTagId: int

    /** Stored products sit under their own id, identifiers handed out next are fresh, and no
        two tag names share a tag id. */
    ghost predicate Valid()
      reads this
    {
      && (forall id :: id in products ==> products[id].id == id && id < nextProductId)
      && (forall n :: n in tags ==> tags[n] < nextTagId)
      && DistinctIds(tags)
    }

    constructor (categories: set<int>)
      ensures Valid()
      ensures this.categories == categories && products == map[] && tags == map[] && links == []
    {
      this.categories := categories;
      products := map[];
      tags := map[];
      links := [];
      nextProductId := 1;
      nextTagId := 1;
    }

    /** saveProduct: a new product with score 0; an unknown category is stored as null. */
    method SaveProduct(req: ProductRequest) returns (p: Product)
      requires Valid()
      modifies this`products, this`nextProductId
      ensures Valid()
      ensures p.id == old(nextProductId) && p.id !in old(products)
      ensures products == old(products)[p.id := p]
      ensures p.score == 0 && p.stock == req.stock && p.productName == req.productName
      ensures p.description == req.description && p.price == req.price
      ensures p.forwardDate == req.forwardDate && p.thumbnailPath == req.thumbnailPath
      ensures p.stockStatus == req.stockStatus
      ensures p.categoryId == (if req.categoryId in categories then Some(req.categoryId) else None)
    {
      var category := if req.categoryId in categories then Some(req.categoryId) else None;
      p := Product(nextProductId, req.stock, req.productName, req.description, req.price,
                   req.forwardDate, 0, req.thumbnailPath, req.stockStatus, category);
      products := products[p.id := p];
      nextProductId := nextProductId + 1;
    }

    /** getProductById. */
    method GetProductById(id: int) returns (r: Result<Product, CatalogError>)
      ensures r.Ok? <==> id in products
      ensures r.Ok? ==> r.value == products[id]
      ensures r.Err? ==> r.error == DataNotFound("product", id)
    {
      if id in products {
        r := Ok(products[id]);
      } else {
        r := Err(DataNotFound("product", id));
      }
    }

    /** updateProduct: both lookups happen before anything is saved; then the merged record is
        saved and, when the request carries a tag list, the product's links are replaced by one
        link per listed name, reusing a tag of that name or creating it. */
    method UpdateProduct(id: int, req: UpdateRequest) returns (r: Result<Product, CatalogError>)
      requires Valid()
      modifies this`products, this`tags, this`links, this`nextTagId
      ensures Valid()
      ensures id !in old(products) ==> r == Err(DataNotFound("product", id))
      ensures id in old(products) && req.categoryId !in categories ==>
                r == Err(DataNotFound("category", req.categoryId))
      ensures r.Err? ==> products == old(products) && tags == old(tags) && links == old(links)
      ensures r.Ok? <==> id in old(products) && req.categoryId in categories
      ensures r.Ok? ==> r.value == MergeUpdate(old(products)[id], req)
      ensures r.Ok? ==> products == old(products)[id := r.value]
      ensures r.Ok? && req.tags.None? ==> tags == old(tags) && links == old(links)
      ensures r.Ok? && req.tags.Some? ==>
                && tags.Keys == old(tags).Keys + NameSet(req.tags.value)
                && (forall n :: n in old(tags) ==> n in tags && tags[n] == old(tags)[n])
                && (forall n :: n in tags && n !in old(tags) ==> old(nextTagId) <= tags[n])
                && (forall n :: n in req.tags.value ==> n in tags)
                && links == Unlinked(old(links), id) + LinksFor(id, req.tags.value, tags)
    {
      if id !in products {
        return Err(DataNotFound("product", id));
      }
      if req.categoryId !in categories {
        return Err(DataNotFound("category", req.categoryId));
      }
      var updated := MergeUpdate(products[id], req);
      products := products[id := updated];
      if req.tags.Some? {
        ReplaceTags(id, req.tags.value);
      }
      r := Ok(updated);
    }

    /** The tag loop of updateProduct: all links of the product are deleted, then each listed name
        is looked up in the tag table, created there when absent, and linked to the product. */
    method ReplaceTags(id: int, names: seq<string>)
      requires Valid()
      modifies this`tags, this`links, this`nextTagId
      ensures Valid()
      ensures tags.Keys == old(tags).Keys + NameSet(names)
      ensures forall n :: n in old(tags) ==> n in tags && tags[n] == old(tags)[n]
      ensures forall n :: n in tags && n !in old(tags) ==> old(nextTagId) <= tags[n]
      ensures forall n :: n in names ==> n in tags
      ensures links == Unlinked(old(links), id) + LinksFor(id, names, tags)
    {
      var table, rows, next := LinkTags(id, names, tags, Unlinked(links, id), nextTagId);
      tags, links, nextTagId := table, rows, next;
    }

    /** deleteProduct: the stored product becomes stock 0 and SOLD_OUT. */
    method DeleteProduct(id: int) returns (r: Result<Product, CatalogError>)
      requires Valid()
      modifies this`products
      ensures Valid()
      ensures r.Ok? <==> id in old(products)
      ensures r.Err? ==> r.error == DataNotFound("product", id) && products == old(products)
      ensures r.Ok? ==> r.value == SoftDelete(old(products)[id]) && products == old(products)[id := r.value]
    {
      if id !in products {
        return Err(DataNotFound("product", id));
      }
      var p := SoftDelete(products[id]);
      products := products[id := p];
      r := Ok(p);
    }
  }

  /** The loop of the tag replacement over the tag table, the link rows kept so far and the
      next tag id: each name is looked up, added under a fresh id when absent, and linked to the
      product. */
  method LinkTags(id: int, names: seq<string>, tags: map<string, int>, kept: seq<ProductTag>, nextTagId: int)
    returns (table: map<string, int>, rows: seq<ProductTag>, next: int)
    requires forall n :: n in tags ==> tags[n] < nextTagId
    requires DistinctIds(tags)
    ensures forall n :: n in table ==> table[n] < next
    ensures table.Keys == tags.Keys + NameSet(names)
    ensures forall n :: n in tags ==> table[n] == tags[n]
    ensures forall n :: n in table && n !in tags ==> nextTagId <= table[n]
    ensures DistinctIds(table)
    ensures forall n :: n in names ==> n in table
    ensures rows == kept + LinksFor(id, names, table)
  {
    table, rows, next := tags, kept, nextTagId;
    var i := 0;
    while i < |names|
      invariant 0 <= i <= |names|
      invariant Linked(id, names[..i], tags, nextTagId, kept, table, rows, next)
    {
      var tagId;
      var before, beforeNext := table, next;
      if names[i] in table {
        tagId := table[names[i]];
      } else {
        tagId := next;
        table := table[names[i] := tagId];
        next := next + 1;
      }
      TagStep(id, names, i, tags, nextTagId, kept, before, rows, beforeNext, table, tagId, next);
      rows := rows + [ProductTag(id, tagId)];
      i := i + 1;
    }
    assert names[..i] == names;
  }

  /** What the tag loop has built after linking `names`: the tag table grew by exactly the new
      names under fresh ids, and one link row was added per name. */
  ghost predicate Linked(id: int, names: seq<string>, tags: map<string, int>, start: int, kept: seq<ProductTag>,
                         table: map<string, int>, rows: seq<ProductTag>, next: int) {
    TableGrown(names, tags, start, table, next) && rows == kept + LinksFor(id, names, table)
  }

  ghost predicate TableGrown(names: seq<string>, tags: map<string, int>, start: int, table: map<string, int>, next: int) {
    && start <= next
    && (forall n :: n in table ==> table[n] < next)
    && table.Keys == tags.Keys + NameSet(names)
    && (forall n :: n in tags ==> table[n] == tags[n])
    && (forall n :: n in table && n !in tags ==> start <= table[n])
    && DistinctIds(table)
    && (forall n :: n in names ==> n in table)
  }

  /** No two names of a tag table share a tag id. */
  ghost predicate DistinctIds(table: map<string, int>) {
    forall a, b :: a in table && b in table && a != b ==> table[a] != table[b]
  }

  /** One pass of the tag loop: the name at position i is found in the table, or added under
      the next id, and linked. */
  lemma TagStep(id: int, names: seq<string>, i: nat, tags: map<string, int>, start: int, kept: seq<ProductTag>,
                before: map<string, int>, rows: seq<ProductTag>, beforeNext: int,
                table: map<string, int>, tagId: int, next: int)
    requires i < |names|
    requires Linked(id, names[..i], tags, start, kept, before, rows, beforeNext)
    requires names[i] in before ==> table == before && tagId == before[names[i]] && next == beforeNext
    requires names[i] !in before ==> table == before[names[i] := beforeNext] && tagId == beforeNext && next == beforeNext + 1
    ensures Linked(id, names[..i + 1], tags, start, kept, table, rows + [ProductTag(id, tagId)], next)
  {
    TableStep(names, i, tags, start, before, beforeNext, table, tagId, next);
    RowsStep(id, names, i, kept, before, rows, table, tagId);
  }

  lemma TableStep(names: seq<string>, i: nat, tags: map<string, int>, start: int, before: map<string, int>, beforeNext: int,
                  table: map<string, int>, tagId: int, next: int)
    requires i < |names|
    requires TableGrown(names[..i], tags, start, before, beforeNext)
    requires names[i] in before ==> table == before && tagId == before[names[i]] && next == beforeNext
    requires names[i] !in before ==> table == before[names[i] := beforeNext] && tagId == beforeNext && next == beforeNext + 1
    ensures TableGrown(names[..i + 1], tags, start, table, next)
    ensures names[i] in table && table[names[i]] == tagId
    ensures forall n :: n in before ==> n in table && table[n] == before[n]
  {
    var prefix := names[..i + 1];
    assert prefix == names[..i] + [names[i]];
    assert NameSet(prefix) == NameSet(names[..i]) + {names[i]};
    assert forall n :: n in prefix ==> n in names[..i] || n == names[i];
    if names[i] in before {
      TableKept(names[..i], prefix, names[i], tags, start, before, beforeNext);
    } else {
      TableAdded(names[..i], prefix, names[i], tags, start, before, beforeNext);
    }
  }

  /** A name already in the table: the table is what it was. */
  lemma TableKept(names: seq<string>, longer: seq<string>, name: string, tags: map<string, int>, start: int,
                  table: map<string, int>, next: int)
    requires TableGrown(names, tags, start, table, next) && name in table
    requires NameSet(longer) == NameSet(names) + {name}
    requires forall n :: n in longer ==> n in names || n == name
    ensures TableGrown(longer, tags, start, table, next)
  {
  }

  /** A name not yet in the table: it is added under the next id. */
  lemma TableAdded(names: seq<string>, longer: seq<string>, name: string, tags: map<string, int>, start: int,
                   before: map<string, int>, next: int)
    requires TableGrown(names, tags, start, before, next) && name !in before
    requires NameSet(longer) == NameSet(names) + {name}
    requires forall n :: n in longer ==> n in names || n == name
    ensures TableGrown(longer, tags, start, before[name := next], next + 1)
  {
    var table := before[name := next];
    forall n | n in table ensures table[n] < next + 1 {
      if n != name { assert n in before; }
    }
    assert table.Keys == tags.Keys + NameSet(longer) by {
      assert table.Keys == before.Keys + {name};
    }
    forall n | n in tags ensures table[n] == tags[n] {
      assert n in before && n != name;
    }
    forall n | n in table && n !in tags ensures start <= table[n] {
      if n != name { assert n in before; }
    }
    FreshInsert(before, name, next);
    forall n | n in longer ensures n in table {
      if n != name { assert n in names; }
    }
  }

  /** A name added under an id above every id in use keeps the ids distinct. */
  lemma FreshInsert(table: map<string, int>, name: string, id: int)
    requires DistinctIds(table) && name !in table
    requires forall n :: n in table ==> table[n] < id
    ensures DistinctIds(table[name := id])
  {
  }

  lemma RowsStep(id: int, names: seq<string>, i: nat, kept: seq<ProductTag>, before: map<string, int>,
                 rows: seq<ProductTag>, table: map<string, int>, tagId: int)
    requires i < |names|
    requires forall n :: n in names[..i] ==> n in before
    requires forall n :: n in before ==> n in table && table[n] == before[n]
    requires names[i] in table && table[names[i]] == tagId
    requires rows == kept + LinksFor(id, names[..i], before)
    ensures forall n :: n in names[..i + 1] ==> n in table
    ensures rows + [ProductTag(id, tagId)] == kept + LinksFor(id, names[..i + 1], table)
  {
    var prefix := names[..i + 1];
    assert prefix[..i] == names[..i] && prefix[i] == names[i];
    LinksForExtend(id, names[..i], before, table);
    var earlier, link := LinksFor(id, names[..i], table), ProductTag(id, tagId);
    assert LinksFor(id, prefix, table) == earlier + [link];
    assert rows + [link] == kept + (earlier + [link]);
  }

  /** Links computed against an older tag map stay the same once the map only grows. */
  lemma {:induction false} LinksForExtend(id: int, names: seq<string>, older: map<string, int>, newer: map<string, int>)
    requires forall n :: n in names ==> n in older
    requires forall n :: n in older ==> n in newer && newer[n] == older[n]
    ensures LinksFor(id, names, older) == LinksFor(id, names, newer)
  {
    if names != [] {
      LinksForExtend(id, names[..|names| - 1], older, newer);
    }
  }
}
