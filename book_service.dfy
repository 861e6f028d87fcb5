/** The business rules of BookService: saving a book with find-or-create of its publisher, the two
    lookups, and deleting a book, which zeroes its product and unlinks it. */
module BookService {
  import opened Common
  import opened ProductService

  /** A book row; `productId == None` is a book with no product link. */
  datatype Book = Book(
    id: int,
    title: string,
    description: string,
    isbn: string,
    publisherId: int,
    publishDate: string,
    productId: Option<int>)

  datatype BookRequest = BookRequest(
    title: string,
    description: string,
    isbn: string,
    publisher: string,
    publishDate: string)

  /** `BookNotFound` stands for both the "book not found" runtime exception and the empty
      Optional of findById; `NullProduct` for dereferencing a book with no product link. */
  datatype BookError = BookNotFound | NullProduct | ProductNotFound

  /** The product record deleteBookById saves. It is built with the constructor that takes no
      description, so the description is lost; otherwise it is deleteProduct's record. */
  function ZeroedProduct(p: Product): (r: Product)
    ensures r.stock == 0 && r.stockStatus == SoldOut && r.description.None?
    ensures r.(description := p.description) == SoftDelete(p)
  {
    p.(stock := 0, stockStatus := SoldOut, description := None)
  }

  class BookStore {
    var books: map<int, Book>
    /** The publisher table, by name (findByName). */
    var publishers: map<string, int>
    var products: map<int, Product>
    var nextBookId: int
    var nextPublisherId: int

    /** Books sit under their own id, fresh identifiers are fresh, and a product is linked to at
        most one book (findByProductId returns a single book). */
    ghost predicate Valid()
      reads this
    {
      && (forall id :: id in books ==> books[id].id == id && id < nextBookId)
      && (forall n :: n in publishers ==> publishers[n] < nextPublisherId)
      && (forall a, b ::
            a in books && b in books && books[a].productId.Some? && books[a].productId == books[b].productId
            ==> a == b)
    }

    constructor (products: map<int, Product>)
      ensures Valid()
      ensures this.products == products && books == map[] && publishers == map[]
    {
      this.products := products;
      books := map[];
      publishers := map[];
      nextBookId := 1;
      nextPublisherId := 1;
    }

    /** saveBook(BookRequest): the publisher is looked up by name and created only when absent;
        the new book carries the request's title, description, isbn and date, that publisher and
        no product. */
    method SaveBook(req: BookRequest) returns (b: Book)
      requires Valid()
      modifies this`books, this`publishers, this`nextBookId, this`nextPublisherId
      ensures Valid()
      ensures req.publisher in old(publishers) ==> publishers == old(publishers)
      ensures req.publisher !in old(publishers) ==>
                publishers == old(publishers)[req.publisher := old(nextPublisherId)]
      ensures req.publisher in publishers && b.publisherId == publishers[req.publisher]
      ensures b.title == req.title && b.description == req.description && b.isbn == req.isbn
      ensures b.publishDate == req.publishDate && b.productId.None?
      ensures b.id !in old(books) && books == old(books)[b.id := b]
    {
      var publisherId;
      if req.publisher in publishers {
        publisherId := publishers[req.publisher];
      } else {
        publisherId := nextPublisherId;
        publishers := publishers[req.publisher := publisherId];
        nextPublisherId := nextPublisherId + 1;
      }
      b := Book(nextBookId, req.title, req.description, req.isbn, publisherId, req.publishDate, None);
      books := books[b.id := b];
      nextBookId := nextBookId + 1;
    }

    /** getBookById. */
    method GetBookById(id: int) returns (r: Result<Book, BookError>)
      ensures r.Ok? <==> id in books
      ensures r.Ok? ==> r.value == books[id]
      ensures r.Err? ==> r.error == BookNotFound
    {
      if id in books {
        r := Ok(books[id]);
      } else {
        r := Err(BookNotFound);
      }
    }

    /** getBookByProductId: the one book linked to the product, if any. */
    method GetBookByProductId(productId: int) returns (r: Result<Book, BookError>)
      requires Valid()
      ensures r.Ok? <==> exists id :: id in books && books[id].productId == Some(productId)
      ensures r.Ok? ==> r.value.id in books && books[r.value.id] == r.value
      ensures r.Ok? ==> r.value.productId == Some(productId)
      ensures r.Err? ==> r.error == BookNotFound
    {
      if id :| id in books && books[id].productId == Some(productId) {
        r := Ok(books[id]);
      } else {
        r := Err(BookNotFound);
      }
    }

    /** deleteBookById: every lookup happens before anything is written; then the linked product
        is saved with stock 0 and SOLD_OUT and the book loses its product link. */
    method DeleteBookById(id: int) returns (r: Result<Book, BookError>)
      requires Valid()
      modifies this`books, this`products
      ensures Valid()
      ensures id !in old(books) ==> r == Err(BookNotFound)
      ensures id in old(books) && old(books)[id].productId.None? ==> r == Err(NullProduct)
      ensures (id in old(books) && old(books)[id].productId.Some? &&
               old(books)[id].productId.value !in old(products)) ==> r == Err(ProductNotFound)
      ensures r.Err? ==> books == old(books) && products == old(products)
      ensures r.Ok? ==>
                && id in old(books) && old(books)[id].productId.Some?
                && var pid := old(books)[id].productId.value;
                && pid in old(products)
                && products == old(products)[pid := ZeroedProduct(old(products)[pid])]
                && r.value == old(books)[id].(productId := None)
                && books == old(books)[id := r.value]
    {
      if id !in books {
        return Err(BookNotFound);
      }
      var book := books[id];
      if book.productId.None? {
        return Err(NullProduct);
      }
      var pid := book.productId.value;
      if pid !in products {
        return Err(ProductNotFound);
      }
      products := products[pid := ZeroedProduct(products[pid])];
      var unlinked := book.(productId := None);
      books := books[id := unlinked];
      r := Ok(unlinked);
    }
  }
}
