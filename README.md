# Bookstore core services in Dafny

This project models the core of a Spring bookstore backend. Each module covers one service:

- **OrderService** places orders, changes the status of an order's details (customer and administrator paths, each guarded by eligibility rules) and changes one detail at a time.
- **OrderService readOrders / readMyOrders** groups the flat order-detail rows it reads into one response per order token and pages the groups.
- **ProductService** saves, reads, updates (with its tag replacement) and soft-deletes products. It also holds the stock counter that orders decrement and cancellations restore.
- **BookService** saves books (find-or-create of the publisher), looks them up, and deletes a book while zeroing its product.
- **PointServiceImpl** keeps an append-only point log per user, with a running balance in Java `int` arithmetic, plus the point policies.
- **UserServiceImpl** is the account registry: login check, login stamp with one retry, registration with the NORMAL grade log, deactivation and activation.

Tables the services read and write through repositories become fields of a class: `OrderStore`, `Catalog`, `BookStore`, `PointLedger` and `UserRegistry`. Every repository lookup becomes a function over those fields.

`OrderStore.Valid` is the order store's invariant: order and detail ids are distinct and below the next ids handed out, and every registered status is held under its own constructor (a row named PAID is `Paid`, never an unknown status that happens to be called PAID). Every method of the store requires it and keeps it.

A transaction that rolls back on an exception is modelled as "no field changes on the error path". An exception becomes an error value of a `Result` or `Option`. A null the source dereferences also becomes an error value (`OrderNotFound`, `NullUser`, `OrderDetailNotFound`, `NullProduct`).

Other inputs become parameters:

- the clock (`now`, in seconds);
- the values repository update queries report (`updateLoginDate`, `updateStatus`);
- the parsed address id of an order request.

Order statuses are one datatype, and a status named in a request resolves by name (`OrderRules.FromName`).

The paging total is the size of the returned page (OrderService.java:187 and :252).

## Model

| member | source | states |
|---|---|---|
| ProductService.DecreaseStock | src/main/java/store/buzzbook/core/service/order/OrderService.java:304 | Taking stock out succeeds exactly when the quantity is at most the stock. It then lowers the stock by the quantity and changes no other field. |
| ProductService.IncreaseStock | src/main/java/store/buzzbook/core/service/order/OrderService.java:636-639 | Putting stock back raises it by the quantity and changes no other field. |
| ProductService.StockRoundTrip | src/main/java/store/buzzbook/core/service/order/OrderService.java:304 | Taking a quantity out and putting it back restores the product exactly. |
| ProductService.DecreaseKeepsStockNonNegative | src/main/java/store/buzzbook/core/service/order/OrderService.java:304 | A successful decrease of a non-negative quantity leaves stock between 0 and the old stock. |
| ProductService.MergeUpdate | src/main/java/store/buzzbook/core/service/product/ProductService.java:98-108 | The updated record takes stock, name, price, stock status and category from the request. It keeps the stored description when the request's is null. Id, forward date, score and thumbnail stay those of the stored product. |
| ProductService.SoftDelete | src/main/java/store/buzzbook/core/service/product/ProductService.java:129-141 | A deleted product has stock 0 and SOLD_OUT, with every other field unchanged. |
| ProductService.MergeIdempotent | src/main/java/store/buzzbook/core/service/product/ProductService.java:98-108 | Applying the same update twice equals applying it once. |
| ProductService.MergeLastWriterWins | src/main/java/store/buzzbook/core/service/product/ProductService.java:98-108 | A later update that carries a description overrides everything an earlier update set. |
| ProductService.DeleteAfterUpdate | src/main/java/store/buzzbook/core/service/product/ProductService.java:98-141 | Deleting an updated product equals an update that asked for stock 0 and SOLD_OUT. |
| ProductService.SoftDeleteIdempotent | src/main/java/store/buzzbook/core/service/product/ProductService.java:129-141 | Deleting twice equals deleting once. |
| ProductService.Unlinked | src/main/java/store/buzzbook/core/service/product/ProductService.java:116-117 | Deleting a product's links keeps exactly the link rows of other products. |
| ProductService.LinksFor | src/main/java/store/buzzbook/core/service/product/ProductService.java:118-123 | One link row per listed tag name, in list order, pointing at that name's tag id. |
| ProductService.NameSet | src/main/java/store/buzzbook/core/service/product/ProductService.java:118-123 | The set of names a tag list mentions. |
| ProductService.LinkTags | src/main/java/store/buzzbook/core/service/product/ProductService.java:116-123 | The tag loop: every listed name ends up in the tag table. Existing tags keep their ids. Each new tag gets an id at or above the old next tag id, below the new one, and different from every other tag's id. The link rows are the kept rows plus one row per listed name. |
| ProductService.LinksForExtend | src/main/java/store/buzzbook/core/service/product/ProductService.java:118-123 | Links computed against a tag table stay the same after the table only grows. |
| ProductService.Catalog.SaveProduct | src/main/java/store/buzzbook/core/service/product/ProductService.java:44-63 | saveProduct stores a new product under a fresh id, with score 0 and the request's fields. The category is linked only when it exists. |
| ProductService.Catalog.GetProductById | src/main/java/store/buzzbook/core/service/product/ProductService.java:82-90 | getProductById returns the stored product, or DataNotFound for an unknown id. |
| ProductService.Catalog.UpdateProduct | src/main/java/store/buzzbook/core/service/product/ProductService.java:92-126 | updateProduct refuses an unknown product, then an unknown category, and then changes nothing. Otherwise it saves the merged record. A null tag list leaves the tags untouched; a list replaces the product's links, and new tags get fresh ids distinct from all others. |
| ProductService.Catalog.ReplaceTags | src/main/java/store/buzzbook/core/service/product/ProductService.java:116-123 | All of the product's links are deleted, then the names are linked. The tag table only grows, and every new tag's id is fresh (at or above the old next tag id) and distinct from every other tag's id. |
| ProductService.Catalog.DeleteProduct | src/main/java/store/buzzbook/core/service/product/ProductService.java:129-141 | deleteProduct soft-deletes a stored product, or returns DataNotFound for an unknown id. |
| BookService.ZeroedProduct | src/main/java/store/buzzbook/core/service/product/BookService.java:119-129 | The product record saved by deleteBookById has stock 0, SOLD_OUT and no description; otherwise it is the soft delete of the product. |
| BookService.BookStore.SaveBook | src/main/java/store/buzzbook/core/service/product/BookService.java:33-48 | The publisher is reused when its name is on record and created otherwise. The book gets a fresh id, the request's fields and no product link. |
| BookService.BookStore.GetBookById | src/main/java/store/buzzbook/core/service/product/BookService.java:62-68 | getBookById returns the stored book, or BookNotFound. |
| BookService.BookStore.GetBookByProductId | src/main/java/store/buzzbook/core/service/product/BookService.java:70-76 | getBookByProductId returns the book linked to the product exactly when one exists. |
| BookService.BookStore.DeleteBookById | src/main/java/store/buzzbook/core/service/product/BookService.java:119-129 | deleteBookById refuses an unknown book, a book without a product and a missing product, with nothing written. Otherwise the product is saved zeroed and the book is kept with its product link cleared. |
| OrderRules.FromName | src/main/java/store/buzzbook/core/service/order/OrderService.java:460 | A requested status name resolves to the status of that name; an unknown name to an unregistered status. |
| OrderRules.NameRoundTrip | src/main/java/store/buzzbook/core/service/order/OrderService.java:421-453 | Resolving a status's own name gives back the status, so comparing by entity equals comparing by name. |
| OrderRules.NamesDistinguish | src/main/java/store/buzzbook/core/service/order/OrderService.java:421-453 | Two statuses are equal exactly when their names are. |
| OrderRules.Guard | src/main/java/store/buzzbook/core/service/order/OrderService.java:347-457 | The guard loop passes exactly when every selected detail passes the target's clauses. Otherwise it reports the violation of the first failing detail. |
| OrderRules.RefundEligibility | src/main/java/store/buzzbook/core/service/order/OrderService.java:419-433 | A refund passes exactly when every detail is SHIPPED and created no earlier than ten days before now. |
| OrderRules.BreakageRefundEligibility | src/main/java/store/buzzbook/core/service/order/OrderService.java:435-449 | A breakage refund passes exactly when every detail is SHIPPED and created no earlier than thirty days before now. |
| OrderRules.CancelEligibility | src/main/java/store/buzzbook/core/service/order/OrderService.java:451-457 | A cancellation passes exactly when every detail is PAID, and otherwise fails with NotPaid. |
| OrderRules.ShippingOutEligibility | src/main/java/store/buzzbook/core/service/order/OrderService.java:347-353 | SHIPPING_OUT is refused only on the administrator path, exactly when some detail is already SHIPPING_OUT. |
| OrderRules.UnguardedTargets | src/main/java/store/buzzbook/core/service/order/OrderService.java:347-457 | Any other target status is never refused. |
| OrderRules.PathsAgreeOffShippingOut | src/main/java/store/buzzbook/core/service/order/OrderService.java:355-457 | The customer and administrator guards agree on every target except SHIPPING_OUT. |
| OrderRules.AlreadyRefundedFailsAnyRefund | src/main/java/store/buzzbook/core/service/order/OrderService.java:421-424 | A refunded or breakage-refunded detail fails any further refund with AlreadyRefunded. |
| OrderRules.RefundWindows | src/main/java/store/buzzbook/core/service/order/OrderService.java:480-483 | The refund window is strict: 9 and 10 days pass, 11 days fail; for breakage, 29 days pass and 31 fail. |
| OrderRules.IsCreatedBeforeDays | src/main/java/store/buzzbook/core/service/order/OrderService.java:480-483 | A detail is created before the window exactly when its age exceeds the window's days in seconds. A detail exactly that many days old is not. |
| OrderRules.RefundImpliesBreakageRefund | src/main/java/store/buzzbook/core/service/order/OrderService.java:355-381 | Whatever may be refunded may also be refunded for breakage. |
| OrderRules.AdminAsWrittenRefusesAll | src/main/java/store/buzzbook/core/service/order/OrderService.java:355-389 | As written, the administrator path refuses every refund and breakage refund of a non-empty order with NotShipped, and every cancellation with NotPaid. Its SHIPPING_OUT clause never fires. |
| OrderRules.AdminAsWrittenDiscrepancy | src/main/java/store/buzzbook/core/service/order/OrderService.java:355-367 | On an order with one SHIPPED detail created today, the code as written refuses a refund that the by-name reading allows. |
| OrderGrouping.DetailsWith | src/main/java/store/buzzbook/core/service/order/OrderService.java:168-173 | The details of the rows carrying a token: at most one per row (their membership is stated by DetailsWithMembers). |
| OrderGrouping.DetailsWithMembers | src/main/java/store/buzzbook/core/service/order/OrderService.java:167-173 | Every detail of a row carrying the token is collected, and every collected detail comes from such a row. |
| OrderGrouping.ViewOf | src/main/java/store/buzzbook/core/service/order/OrderService.java:137-176 | The group of a token carries the token, the header of the token's first row (with the order e-mail exactly in readOrders, none in readMyOrders) and the token's details. |
| OrderGrouping.FirstIndex | src/main/java/store/buzzbook/core/service/order/OrderService.java:143-147 | The first row carrying the token. |
| OrderGrouping.GroupRows | src/main/java/store/buzzbook/core/service/order/OrderService.java:137-176 | One group per distinct order token, none repeated and none missing. Each group is the header of its token's first row plus the details of all its rows. |
| OrderGrouping.AppendView | src/main/java/store/buzzbook/core/service/order/OrderService.java:140-176 | Adding the group of a new token keeps the groups faithful and distinct. |
| OrderGrouping.BuildView | src/main/java/store/buzzbook/core/service/order/OrderService.java:143-175 | One group: the first row's header (the order e-mail only in readOrders) and the token's details. |
| OrderGrouping.FindFirst | src/main/java/store/buzzbook/core/service/order/OrderService.java:143-147 | findFirst returns the first row of the token. |
| OrderGrouping.CollectDetails | src/main/java/store/buzzbook/core/service/order/OrderService.java:168-173 | The while loop collects exactly the details of the token's rows. |
| OrderGrouping.Paginate | src/main/java/store/buzzbook/core/service/order/OrderService.java:178-187 | The page is groups min((page-1)*size, n) to min(page*size, n). As subList does, it fails with IndexOutOfBounds exactly when the start is negative and with IllegalArgument exactly when the start is past the end. The total is the page length, and a page from 1 up with a size from 0 up never fails and holds at most size groups. |
| OrderGrouping.PagesAbut | src/main/java/store/buzzbook/core/service/order/OrderService.java:181-182 | Each page starts where the previous page ends. |
| OrderGrouping.PagesCover | src/main/java/store/buzzbook/core/service/order/OrderService.java:181-184 | The first k pages, laid end to end, are the groups up to position min(k*size, n). |
| OrderGrouping.ReadOrders | src/main/java/store/buzzbook/core/service/order/OrderService.java:129-193 | readOrders groups the rows into exactly one group per distinct token, none repeated, each the header of its token's first row (with the order e-mail) and all its details, and returns the page of those groups. It fails with IndexOutOfBounds exactly when the window starts below 0 and with IllegalArgument exactly when it starts past its end; otherwise it returns window-width distinct groups and a total equal to the page length. |
| OrderGrouping.ReadMyOrders | src/main/java/store/buzzbook/core/service/order/OrderService.java:195-258 | readMyOrders: the same grouping, paging and two error kinds, with groups whose header carries no order e-mail. |
| OrderGrouping.GroupingExample | src/main/java/store/buzzbook/core/service/order/OrderService.java:137-176 | Rows A, B, A make two groups, A holding both of its details in row order. |
| OrderGrouping.PagingExample | src/main/java/store/buzzbook/core/service/order/OrderService.java:178-187 | Five groups in pages of two: page 1 reports a total of 2 and page 3 a total of 1. |
| OrderGrouping.PageErrorExample | src/main/java/store/buzzbook/core/service/order/OrderService.java:181-184 | On one group, page 1 with size -1 asks for subList(0, -1) and fails with IllegalArgument; page 0 with size 1 starts at -1 and fails with IndexOutOfBounds. |
| OrderService.PlaceLinesStock | src/main/java/store/buzzbook/core/service/order/OrderService.java:288-304 | After the line loop, each product's stock is lower by exactly the total quantity ordered of it. No other product field changes. |
| OrderService.PlaceLinesDetails | src/main/java/store/buzzbook/core/service/order/OrderService.java:288-310 | Line k becomes a detail with consecutive id k, its quantity, wrap, status and product, and the wrapping it names (UNPACKAGED for 0). The price is the product's price before the order. |
| OrderService.PlaceLinesIds | src/main/java/store/buzzbook/core/service/order/OrderService.java:288-309 | The saved details carry consecutive ids from the next detail id, one per line, in line order. |
| OrderService.MissingReferenceAborts | src/main/java/store/buzzbook/core/service/order/OrderService.java:289-302 | A line naming a missing status, wrapping or product aborts the order. |
| OrderService.PlaceLinesSucceedsIffStock | src/main/java/store/buzzbook/core/service/order/OrderService.java:288-304 | With non-negative stock and quantities and resolvable lines, the order goes through exactly when no product is ordered beyond its stock. No stock then becomes negative. |
| OrderService.PlaceLinesFailurePersists | src/main/java/store/buzzbook/core/service/order/OrderService.java:288-319 | The first failing line decides the outcome of the whole loop. |
| OrderService.PlaceLine | src/main/java/store/buzzbook/core/service/order/OrderService.java:288-310 | One line succeeds exactly when its status, its wrapping (UNPACKAGED for 0) and its product exist and the quantity is at most the stock. The detail then carries the product's current price and the next detail id, and the product table keeps its ids while that product's stock drops by the quantity. |
| OrderService.PlaceLines | src/main/java/store/buzzbook/core/service/order/OrderService.java:288-319 | The line loop yields one detail per line over the same product ids, or one of the loop's four errors (OrderStatusNotFound, WrappingNotFound, ProductNotFound, OutOfStock). |
| OrderService.CreateResult | src/main/java/store/buzzbook/core/service/order/OrderService.java:262-325 | createOrder's outcome: UserNotFound for an unknown non-blank login, then AddressNotFound for a missing address when the address text is empty; otherwise success exactly when the line loop succeeds, giving the order under the next order id with the request's token and one detail per line. |
| OrderService.FindOrderByStr | src/main/java/store/buzzbook/core/service/order/OrderService.java:414 | findByOrderStr returns an order with that token, or reports that none exists. |
| OrderService.IndexOfDetail | src/main/java/store/buzzbook/core/service/order/OrderService.java:653-654 | findById finds the detail with that id, or reports that none exists. |
| OrderService.DetailsOfMembers | src/main/java/store/buzzbook/core/service/order/OrderService.java:344 | findAllByOrder_Id returns exactly the rows of that order. |
| OrderService.Selected | src/main/java/store/buzzbook/core/service/order/OrderService.java:416-417 | The details a bulk update reads are rows of that order. On the customer path they are all of them when the order is the caller's and none otherwise; on the administrator path they are all of them. |
| OrderService.BulkUpdateError | src/main/java/store/buzzbook/core/service/order/OrderService.java:342-478 | A bulk update fails with OrderNotFound exactly when no order has the token. When it raises nothing, the order was found, belongs to a user, and its selected details passed the guards. |
| OrderService.FirstMissingRef | src/main/java/store/buzzbook/core/service/order/OrderService.java:462-470 | The write loop fails exactly when some detail's product or wrapping is gone: a missing product raises ProductNotFound, a missing wrapping IllegalArgumentException (IllegalWrapping). |
| OrderService.NoMissingRef | src/main/java/store/buzzbook/core/service/order/OrderService.java:393-401 | When every row of the order resolves, the write loop raises nothing. |
| OrderService.FirstFailingRow | src/main/java/store/buzzbook/core/service/order/OrderService.java:393-401 | The first row of the order with a missing product or wrapping decides the exception: ProductNotFound for the product, IllegalArgumentException (IllegalWrapping) for the wrapping. |
| OrderService.StatusAppliedDetails | src/main/java/store/buzzbook/core/service/order/OrderService.java:393-395 | After the write loop, the order's details read back as before, in the same order, each with the new status. Every other order's details read back unchanged. |
| OrderService.AppendKeepsFreshIds | src/main/java/store/buzzbook/core/service/order/OrderService.java:277-309 | Saving the order and its details under the next ids keeps every id distinct and fresh. |
| OrderService.OrderStore.CreateOrder | src/main/java/store/buzzbook/core/service/order/OrderService.java:262-325 | createOrder refuses an unknown non-blank login, then a missing address when the address text is empty, then the first failing line. A refused order saves nothing and leaves all stock as it was. A placed order saves the order and its details and applies the stock change above. |
| OrderService.OrderStore.SaveOrder | src/main/java/store/buzzbook/core/service/order/OrderService.java:274-309 | The order and its details are appended under the next ids, the id counters move past them, and all ids stay distinct and fresh. |
| OrderService.OrderStore.PlaceOrderLines | src/main/java/store/buzzbook/core/service/order/OrderService.java:288-319 | The line loop yields the details and product table that PlaceLines describes, or its first error with the product table restored. |
| OrderService.OrderStore.ApplyStatus | src/main/java/store/buzzbook/core/service/order/OrderService.java:393-406 | Every detail of the order gets the status, or, if a product or wrapping is gone, nothing changes. |
| OrderService.OrderStore.UpdateOrder | src/main/java/store/buzzbook/core/service/order/OrderService.java:413-478 | Customer path: the guards run over the caller's details of the order before anything is written. Then those details get the status. An order that is not the caller's is left alone, and a guest order fails on its missing user. Stock never changes. |
| OrderService.OrderStore.UpdateOrderWithAdmin | src/main/java/store/buzzbook/core/service/order/OrderService.java:342-409 | Administrator path, with statuses compared by name: its guards run over all the order's details, then all of them get the status. A guest order fails on its missing user with nothing written. |
| OrderService.OrderStore.UpdateOrderDetail | src/main/java/store/buzzbook/core/service/order/OrderService.java:617-648 | Customer single-detail update: the caller's detail is saved with the new status and time, every other field kept. Its product regains the quantity exactly for CANCELED, PARTIAL_CANCELED, REFUND and PARTIAL_REFUND. Any failure writes nothing. |
| OrderService.OrderStore.OwnedBy | src/main/java/store/buzzbook/core/service/order/OrderService.java:619 | findByIdAndOrder_User_LoginId sees a detail exactly when some order with the detail's order id belongs to that login. |
| OrderService.OrderStore.UpdateOrderDetailWithAdmin | src/main/java/store/buzzbook/core/service/order/OrderService.java:650-677 | Administrator single-detail update: the same save for any detail, with no stock change. |
| PointService.Wrap32 | src/main/java/store/buzzbook/core/service/point/impl/PointServiceImpl.java:88 | Java int addition: the result is the exact value whenever that fits in 32 bits. |
| PointService.Wrap32Add | src/main/java/store/buzzbook/core/service/point/impl/PointServiceImpl.java:88 | Wrapping after every addition equals wrapping once at the end. |
| PointService.LastOf | src/main/java/store/buzzbook/core/service/point/impl/PointServiceImpl.java:72 | findLastByUserId returns a log of the user that no later log of the user follows (the newest), or none exactly when the user has no log. |
| PointService.NextBalance | src/main/java/store/buzzbook/core/service/point/impl/PointServiceImpl.java:72-90 | A new log's balance is its delta when the user has no log; otherwise it is the newest balance plus the delta whenever that sum fits in a Java int. |
| PointService.BalanceIsSumOfDeltas | src/main/java/store/buzzbook/core/service/point/impl/PointServiceImpl.java:67-92 | In a chained log, every user's balance is the sum of that user's deltas wrapped to 32 bits. When the sum fits, the balance is the sum itself. |
| PointService.ChainedAppend | src/main/java/store/buzzbook/core/service/point/impl/PointServiceImpl.java:72-91 | Appending a log whose balance was computed from the newest previous log keeps the log chained. |
| PointService.AppendMovesOneBalance | src/main/java/store/buzzbook/core/service/point/impl/PointServiceImpl.java:82-90 | A new log moves only its own user's balance, by its delta. |
| PointService.PointLedger.CreatePointLogWithDelta | src/main/java/store/buzzbook/core/service/point/impl/PointServiceImpl.java:67-92 | An unknown user is refused with nothing saved. Otherwise one log is appended with the delta, the user and a balance equal to the delta (no previous log) or to the last balance plus the delta. |
| PointService.PointLedger.CreatePointLogForUser | src/main/java/store/buzzbook/core/service/point/impl/PointServiceImpl.java:94-96 | The User overload behaves as the id overload for the user's id. |
| PointService.PointLedger.UpdatePointPolicy | src/main/java/store/buzzbook/core/service/point/impl/PointServiceImpl.java:46-52 | An existing policy gets the new point and rate, with nothing else changed. An unknown id fails with PointPolicyNotFound. |
| PointService.PointLedger.DeletePointPolicy | src/main/java/store/buzzbook/core/service/point/impl/PointServiceImpl.java:55-60 | An existing policy is marked deleted and stays on record. An unknown id fails with PointPolicyNotFound. |
| UserService.FindByLoginId | src/main/java/store/buzzbook/core/service/user/implement/UserServiceImpl.java:45 | findByLoginId returns an account with that login id, or none exactly when there is none. |
| UserService.IndexOfId | src/main/java/store/buzzbook/core/service/user/implement/UserServiceImpl.java:115-118 | findById finds the account with that id, or none exactly when there is none. |
| UserService.IsDeactivated | src/main/java/store/buzzbook/core/service/user/implement/UserServiceImpl.java:47 | existsById is true exactly when some deactivation record names the account. |
| UserService.LoginCheck | src/main/java/store/buzzbook/core/service/user/implement/UserServiceImpl.java:44-55 | Login is allowed exactly for a known login id whose account has no deactivation on record. It fails with UserNotFound first and Deactivated second. |
| UserService.RegisterThenLogin | src/main/java/store/buzzbook/core/service/user/implement/UserServiceImpl.java:44-100 | A freshly registered account can log in as itself. |
| UserService.DeactivatedCannotLogin | src/main/java/store/buzzbook/core/service/user/implement/UserServiceImpl.java:44-136 | Once a deactivation is recorded for an account, login refuses it. |
| UserService.LoginIgnoresStatus | src/main/java/store/buzzbook/core/service/user/implement/UserServiceImpl.java:44-151 | Login never reads the status, so activation does not readmit a deactivated account. |
| UserService.UserRegistry.RequestLogin | src/main/java/store/buzzbook/core/service/user/implement/UserServiceImpl.java:44-55 | requestLogin returns the login decision above. |
| UserService.UserRegistry.GetUserInfoByLoginId | src/main/java/store/buzzbook/core/service/user/implement/UserServiceImpl.java:154-166 | Returns the account's public fields, or UserNotFound exactly when the login id is unknown. |
| UserService.UserRegistry.UpdateLoginDate | src/main/java/store/buzzbook/core/service/user/implement/UserServiceImpl.java:61-63 | Stamps the login date of the accounts with that login id and changes nothing else. |
| UserService.UserRegistry.SuccessLogin | src/main/java/store/buzzbook/core/service/user/implement/UserServiceImpl.java:58-67 | The login date is updated once, or twice when the first update reports false, then the account's info is returned. |
| UserService.UserRegistry.RequestRegister | src/main/java/store/buzzbook/core/service/user/implement/UserServiceImpl.java:71-100 | Fails with GradeNotFound when NORMAL is missing, checked before UserAlreadyExists for a taken login id, with nothing saved. Otherwise it adds exactly one account and one NORMAL grade-log entry for it, and returns status 200. |
| UserService.UserRegistry.Deactivate | src/main/java/store/buzzbook/core/service/user/implement/UserServiceImpl.java:104-136 | Fails with UserNotFound for an unknown id. Otherwise it records one deactivation, marks the account withdrawn and answers true. |
| UserService.UserRegistry.Activate | src/main/java/store/buzzbook/core/service/user/implement/UserServiceImpl.java:139-151 | Fails with UserNotFound for an unknown login id. Otherwise the status update runs and, as written, UnknownUser is raised when the update reports true. |

## Findings

| source | as written | input that shows it | evidently intended | confidence | as-written member | corrected member |
|---|---|---|---|---|---|---|
| src/main/java/store/buzzbook/core/service/order/OrderService.java:349-385 | The administrator path compares the detail's `OrderStatus` entity with a `String` constant, which is never equal. So every REFUND and BREAKAGE_REFUND is refused with NotShipped, every CANCELED with NotPaid, and the SHIPPING_OUT clause never fires. | An order with one SHIPPED detail created today, with target REFUND. | Compare the status by name, as the customer path does (lines 421-453) with resolved status entities. | not executed | OrderRules.AdminAsWrittenDiscrepancy | OrderService.OrderStore.UpdateOrderWithAdmin |

## Left out

- Caching (`@CacheEvict`), the service's self-proxy for `getOrders`, logging and the response DTOs are left out. The model returns the stored records instead of response objects.
- `OrderService.updatePointLog` is left out: its points come from `double` rate multiplications cast to `int`, which is floating point.
- CRUD pass-throughs with no logic of their own are left out: order status, delivery policy and wrapping administration, `getAllProducts`, `getProductsByCriteria`, `getAllBooks`, `createPointPolicy`, `getPointPolicies` and `getPointLogs`.
- ImageService and the Elasticsearch services are left out.
- `OrderGrouping.Paginate`: Java `int` overflow of `page * size` is not modelled; the window is computed on unbounded integers.
- `OrderGrouping.GroupRows` models the iteration order of the token `HashSet` as an arbitrary choice, so the order of the groups is not fixed.
- `OrderRules.Guard`: the customer path resolves its constant statuses through findByName (OrderService.java:421-453). The model takes them as registered, so that a comparison with a missing (null) status never arises.
- `OrderService.OrderStore.UpdateOrderDetail`: `OrderDetailNotFound` stands for the NullPointerException raised when findByIdAndOrder_User_LoginId returns null (OrderService.java:619). The administrator path (`UpdateOrderDetailWithAdmin`, :653) throws a real OrderDetailNotFoundException.
- `BookService.BookStore.GetBookById`, `GetBookByProductId` and `DeleteBookById`: `BookNotFound` stands for both RuntimeException("book not found") (BookService.java:65 and :73) and the NoSuchElementException of `orElseThrow()` (:120).
- `UserService.UserRegistry.Deactivate` and `UserService.IsDeactivated`: the Deactivation entity is not part of this model. Its id is taken to be its user's id, which is what lets existsById(user.getId()) (UserServiceImpl.java:47) ask whether the account has a record. A repeated deactivation is modelled as appending a second record; what the repository does with a second save under the same key is not modelled.
- `OrderRules.FromName`: an unregistered status name resolves to an `Other` status by name. The source stores `null` for it instead.
- Rows with the same order token that belong to different orders are not distinguished. The token is treated as a key.
- `OrderService.OrderStore.CreateOrder`: `Long.parseLong` of the address id is a parameter that was already parsed, so NumberFormatException is not modelled.
- `OrderService.IsBlank` (in CreateOrder) recognises the whitespace of the Basic Latin block only, not the other Unicode space separators of `String.isBlank`.
- The mappers OrderMapper, OrderDetailMapper and RegisterUserRequest.toUser are not part of this model. The order record keeps only the token, the user, the address and the address id. A new account is assumed active, not an administrator, and without a login date.
- Product.decreaseStock and Product.increaseStock are not part of this model. Decreasing below zero is assumed to fail with an exception, and increasing has no upper bound.
- The User entity is not part of this model. `deactivate()` is taken to set the WITHDRAW status used by the commented-out code, and `updateLoginDate`/`updateStatus` are taken to update the rows with that login id.
- `UserService.UserRegistry.Activate`: the repository's boolean answer is a parameter. The status change persists even when UnknownUser is raised, because the method runs without a transaction.
- `PointService.PointLedger.UpdatePointPolicy` and `DeletePointPolicy` change the policy in memory; whether the change is flushed without a transaction is not modelled.
- Duplicate names in the tag or publisher table (`findByName` returning one of several) are not modelled: each table maps a name to one id.
- Times are whole seconds since an epoch; LocalDate and LocalDateTime parsing and time zones are left out.
- `OrderService.OrderStore.UpdateOrderDetail` returns the detail as saved, with the new status, because saving a record with the same id merges onto the managed entity that the response is built from.
- `OrderService.OrderStore.CreateOrder` saves the order after its lines instead of before them. Under the rollback that a failure causes, the resulting tables are the same.
- `saveBook(Book)`, `getAllBooksExistProductId`, `getBooksByProductIdList`, `readOrder`, `readOrderStr` and the other read-only queries delegated to the database are left out.
- The `ProductResponse` returned by updateProduct lists the tags as they were before the update; the model returns the stored product only.
