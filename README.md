# E-Gas order, account and dashboard rules in Dafny

E-Gas is a gas-cylinder delivery service. Its web server (Express over a
MongoDB order collection) takes orders, lists them with search, status filter
and pages, updates and deletes them and reports statistics. It also signs
employees in and lets users and administrators edit accounts. The browser
client validates the sign-up, sign-in and order forms, builds the profile
update, filters the user table and computes the inventory and delivery
dashboards' counters and reports. A guard keeps staff pages behind a stored
token.

This project models that behaviour and proves what it promises:

- The server's order controller is a class over an ordered order collection. Its handlers are proved against specification functions for filtering, sorting, paging and statistics, and the order schema's validity is kept by every write.
- The order-id generator is proved to decode back to its clock and random parts.
- The employee and user controllers are classes over their collections.
- The client pages are classes holding the page state; their validators and builders are functions with lemmas stating what they accept.
- Clocks, random draws, password hashes, token decoding, date formatting and server replies are parameters.

Modules, one per source file, plus four shared helper modules:

- `Wrappers`: Option and the HTTP reply shape.
- `Text`: whitespace trimming, ASCII lower case, substring search, decimal digits.
- `Tally`: `filter().length` and `reduce` sums.
- `Patterns`: the regular expressions of the forms.

Per source file:

- `OrderModel`: `order.model.js`.
- `OrderIds`, `OrderController` and `OrderQueries`: `order.controller.js`.
- `OrderService`: `orderService.js`.
- `OrderManagement`: `OrderManagement.jsx`.
- `OrderForm`: `OrderForm.jsx`.
- `EmployeeController`: `employee.controller.js`.
- `UserController`: `user.controller.js`.
- `SignUp`: `SignUp.jsx`.
- `SignIn`: `SignIn.jsx`.
- `Profile`: `Profile.jsx`.
- `UserTable`: `Usertable.jsx`.
- `Inventory`: `InventoryManagement.jsx`.
- `Delivery`: `DeliveryTaskManagement.jsx`.
- `PrivateRoute`: `PrivateRoute.jsx`.

The order collection is a sequence in the database's natural order, not a map
from id to order. Listing, sorting ties and statistics depend on that order,
and each stored order carries its own id. Uniqueness of ids and order numbers
is part of the collection's validity predicate.

## Model

| member | source | states |
|---|---|---|
| Wrappers.OrElse | E-Gas/client/src/services/orderService.js:7 | `a \|\| b` on text: the value when it is present and non-empty, the fallback otherwise |
| Text.TrimStartShape | E-Gas/client/src/pages/OrderManagement/OrderForm.jsx:46 | `trimStart` removes exactly a prefix of white space and leaves a result that is empty or starts with a non-space |
| Text.TrimEndShape | E-Gas/client/src/pages/OrderManagement/OrderForm.jsx:46 | `trimEnd` removes exactly a suffix of white space and leaves a result that is empty or ends with a non-space |
| Text.BlankIffAllSpace | E-Gas/client/src/pages/OrderManagement/OrderForm.jsx:46 | `!s.trim()` holds exactly when every character is white space |
| Text.TrimmedPiece | E-Gas/client/src/pages/UserManagement/Profile.jsx:112-127 | the trimmed text occurs inside the original and has no white space at either end |
| Text.Lower | E-Gas/client/src/pages/UserManagement/Usertable.jsx:47-50 | `toLowerCase` keeps the length and lowers each ASCII capital, leaving other characters alone |
| Text.Includes | E-Gas/client/src/pages/UserManagement/Usertable.jsx:48-49 | `includes` is true exactly when the needle occurs at some position of the text |
| Text.ParseNatToString | E-Gas/server/controllers/order.controller.js:6 | reading back the decimal text of a number gives the number |
| Text.IntToStringReadsAs | E-Gas/client/src/services/orderService.js:203-204 | the decimal text of any integer, with its '-' sign when negative, reads back as that integer |
| Text.LengthOfNatToString | E-Gas/server/controllers/order.controller.js:6 | a number at least 10^k has more than k decimal digits |
| Text.ParseSuffix | E-Gas/server/controllers/order.controller.js:6 | the last k digits of a number's text read as the number modulo 10^k |
| Text.ParseSuffixStep | E-Gas/server/controllers/order.controller.js:6 | the last k digits of a number are the last k-1 digits of its tenth followed by its last digit, and spell it modulo 10^k |
| Text.PadStart | E-Gas/server/controllers/order.controller.js:7 | `padStart` fills on the left up to the width and never shortens |
| Text.SliceLast | E-Gas/server/controllers/order.controller.js:6 | `slice(-k)` is the last k characters, or the whole text when shorter or when k is 0 (`-0` is `0`) |
| OrderModel.AppendKeepsValid | E-Gas/server/models/order.model.js:5-87 | inserting a schema-valid order with a fresh id and an unused order number keeps the collection valid, with order numbers unique |
| OrderModel.ReplaceKeepsValid | E-Gas/server/models/order.model.js:5-87 | replacing an order by a valid one with the same id and an order number no other order has keeps the collection valid |
| OrderModel.RemoveKeepsValid | E-Gas/server/models/order.model.js:5-87 | deleting an order keeps the collection valid |
| OrderIds.GenerateOrderId | E-Gas/server/controllers/order.controller.js:5-9 | the id is "EG" followed only by digits: up to 8 of the clock and 2 of the draw |
| OrderIds.DrawPart | E-Gas/server/controllers/order.controller.js:7 | a draw below 100 zero-padded to 2 places is two digits that read back as the draw |
| OrderIds.ClockPart | E-Gas/server/controllers/order.controller.js:6 | from an 8-digit clock on, the clock part has eight digits that read back as the clock modulo 10^8 |
| OrderIds.DecodeOrderId | E-Gas/server/controllers/order.controller.js:5-9 | from an 8-digit clock on, the id has 12 characters and its digits decode to the clock modulo 10^8 and the draw |
| OrderIds.ParseInjective | E-Gas/server/controllers/order.controller.js:6-8 | two digit strings of equal length with equal values are equal |
| OrderIds.OrderIdsCollide | E-Gas/server/controllers/order.controller.js:5-9 | two ids coincide exactly when the clocks agree modulo 10^8 and the draws are equal |
| OrderController.NewOrder | E-Gas/server/controllers/order.controller.js:37-53 | a created order's total is price times quantity; missing special instructions become ''; the user id is set only when truthy; the status is 'Confirmed' |
| OrderController.NewOrderValidity | E-Gas/server/models/order.model.js:5-87 | an order created from a body with all required fields satisfies every schema constraint |
| OrderController.WithTotal | E-Gas/server/controllers/order.controller.js:185-187 | the total is recomputed as price times quantity exactly when the patch has a truthy quantity and a cylinder; otherwise the patch is untouched |
| OrderController.UpdateMovesBetweenAccounts | E-Gas/server/controllers/order.controller.js:182-193 | an update that sets `userId` puts the order in the new account's listing and takes it out of the old one's |
| OrderController.PatchKeepsValid | E-Gas/server/controllers/order.controller.js:189-193 | applying a patch that passes the update validators to a valid order gives a valid order with the same id |
| OrderController.UpdateKeepsTotalConsistent | E-Gas/server/controllers/order.controller.js:185-193 | an update carrying quantity and cylinder, or neither, keeps the total equal to price times quantity |
| OrderController.QuantityAloneKeepsOldTotal | E-Gas/server/controllers/order.controller.js:185-187 | a patch changing only the quantity leaves the old total, which then no longer matches |
| OrderController.FindId | E-Gas/server/controllers/order.controller.js:135 | `findById` finds an order with that id, or none exists |
| OrderController.FindOrderId | E-Gas/server/controllers/order.controller.js:159 | `findOne({orderId})` finds an order with that number, or none has it |
| OrderController.OrderStore.constructor | E-Gas/server/models/order.model.js:1-101 | an empty, valid collection |
| OrderController.OrderStore.CreateOrder | E-Gas/server/controllers/order.controller.js:12-67 | missing or falsy required fields give 400 and store nothing; a schema violation or a taken order number gives 500 and stores nothing; otherwise 201 with the new order appended |
| OrderController.OrderStore.GetOrders | E-Gas/server/controllers/order.controller.js:70-128 | the reply is the listing of the filtered, sorted, paged collection |
| OrderController.OrderStore.GetOrdersByUser | E-Gas/server/controllers/order.controller.js:307-336 | the reply is the user's orders, newest first, paged |
| OrderController.OrderStore.GetOrderById | E-Gas/server/controllers/order.controller.js:131-152 | 200 with the order exactly when one has the id, otherwise 404 'Order not found' |
| OrderController.OrderStore.GetOrderByOrderId | E-Gas/server/controllers/order.controller.js:155-176 | 200 with the order exactly when one has the order number, otherwise 404 |
| OrderController.OrderStore.UpdateOrder | E-Gas/server/controllers/order.controller.js:179-211 | an invalid patch gives 500, an unknown id 404, both leaving the collection; otherwise only that order is replaced by the patched one, total recomputed as WithTotal says |
| OrderController.OrderStore.UpdateOrderStatus | E-Gas/server/controllers/order.controller.js:214-248 | a status outside the five gives 400 and writes nothing; an unknown id gives 404; otherwise only that order's status changes |
| OrderController.OrderStore.DeleteOrder | E-Gas/server/controllers/order.controller.js:251-272 | an unknown id gives 404 and changes nothing; otherwise the found order is cut out with 200 and the store stays valid |
| OrderController.OrderStore.GetOrderStats | E-Gas/server/controllers/order.controller.js:275-304 | the statistics of the whole collection |
| OrderController.DeleteRemovesExactly | E-Gas/server/controllers/order.controller.js:255 | deleting a found id leaves exactly the stored orders with another id |
| OrderController.CutOut | E-Gas/server/controllers/order.controller.js:255 | cutting out one order keeps every order valid, order numbers and ids unique and ids below the next one |
| OrderController.RemoveOnlyThat | E-Gas/server/controllers/order.controller.js:255 | with unique ids, cutting out position k removes exactly the orders with that order's id |
| OrderController.OrderApiWalkthrough | E-Gas/server/test-order-api.js:6-86 | the test order of 2 cylinders at 1482 is created with total 2964, listed, fetched, set to 'Processing', counted in the statistics, deleted and then not found |
| OrderController.CreateListFetch | E-Gas/server/test-order-api.js:29-58 | in an empty store the test order is created with status 'Confirmed' and total 2964, is the only order of page 1 and is fetched by its id |
| OrderController.UpdateCountDelete | E-Gas/server/test-order-api.js:60-86 | the only stored order set to 'Processing' forms the one statistics group with its total, is deleted with 200 and is then answered with 404 |
| OrderQueries.Select | E-Gas/server/controllers/order.controller.js:84-94 | `find(filter)` keeps exactly the orders that match and no more than there were |
| OrderQueries.OfUser | E-Gas/server/controllers/order.controller.js:314 | keeps exactly the orders whose user id is the given one |
| OrderQueries.Insert | E-Gas/server/controllers/order.controller.js:97-98 | inserting adds exactly one copy of the order to the multiset |
| OrderQueries.SortBy | E-Gas/server/controllers/order.controller.js:97-98 | sorting is a permutation |
| OrderQueries.InsertSorted | E-Gas/server/controllers/order.controller.js:97-98 | inserting into a sorted list keeps it sorted |
| OrderQueries.SortBySorted | E-Gas/server/controllers/order.controller.js:97-98 | the sort's result is ordered by the key in the requested direction and is a permutation of its input |
| OrderQueries.SortByLength | E-Gas/server/controllers/order.controller.js:103-104 | sorting keeps the number of orders |
| OrderQueries.Window | E-Gas/server/controllers/order.controller.js:101-107 | `skip(k).limit(n)` returns at most n orders, the ones from position k on |
| OrderQueries.CeilDiv | E-Gas/server/controllers/order.controller.js:118 | `Math.ceil(a / b)` is the least page count covering a |
| OrderQueries.PaginateMeaning | E-Gas/server/controllers/order.controller.js:101-122 | page below 1 fails; otherwise the page holds at most `limit` orders from (page-1)*limit on; currentPage is the page asked for; totalPages is the least page count covering the total, i.e. ceil(total/limit); hasNext iff a later page exists; hasPrev iff page > 1 |
| OrderQueries.OrderOnItsPage | E-Gas/server/controllers/order.controller.js:101-107 | the i-th match appears on page i/limit + 1 at position i mod limit |
| OrderQueries.FilterOfMeaning | E-Gas/server/controllers/order.controller.js:84-94 | an order matches iff the search is empty or hits customer name, e-mail or order number ignoring case, and the status is empty or equal |
| OrderQueries.WindowRows | E-Gas/server/controllers/order.controller.js:105-106 | skip and limit keep only orders of the list, and keep a sorted list sorted |
| OrderQueries.PageRows | E-Gas/server/controllers/order.controller.js:104-107 | a page of a sorted list holds orders of the list and is itself sorted |
| OrderQueries.SortedMembers | E-Gas/server/controllers/order.controller.js:104-105 | the sorted list has the same length and the same orders |
| OrderQueries.ListOrdersMeaning | E-Gas/server/controllers/order.controller.js:70-123 | every listed order exists and matches the filter, the page is sorted by the key, and the total counts all matching orders |
| OrderQueries.ListOrdersDefaults | E-Gas/server/controllers/order.controller.js:72-79 | with no parameters: page 1, limit 10, no filter, newest order date first |
| OrderQueries.SelectAll | E-Gas/server/controllers/order.controller.js:82-94 | with no search and no status the filter keeps the collection as it is |
| OrderQueries.SecondOfTwoPages | E-Gas/server/controllers/order.controller.js:113-122 | 15 matches at limit 10: page 2 shows the last 5, of 2 pages, with a previous and no next page |
| OrderQueries.ListOfOne | E-Gas/server/controllers/order.controller.js:113-122 | a single order is listed alone on page 1 of 1 |
| OrderQueries.ListOrdersOfUserMeaning | E-Gas/server/controllers/order.controller.js:310-330 | the user's listing holds only that user's orders, newest first, with the pagination of getOrders |
| OrderQueries.StatusesOf | E-Gas/server/controllers/order.controller.js:277-282 | the `$group` keys: each status present in the collection, once |
| OrderQueries.CountPositive | E-Gas/server/controllers/order.controller.js:277-282 | the status of any stored order has a count of at least 1 |
| OrderQueries.Stats | E-Gas/server/controllers/order.controller.js:277-297 | totalOrders is the collection size and totalRevenue the sum of totals; each status present has one group with its count and amount, and no group is empty |
| OrderQueries.GroupsForMembers | E-Gas/server/controllers/order.controller.js:277-282 | one group per status, holding that status's count and amount |
| OrderQueries.GroupsSum | E-Gas/server/controllers/order.controller.js:277-297 | over distinct statuses covering the collection, the group counts add up to its size and the amounts to its revenue |
| OrderQueries.StatsAddUp | E-Gas/server/controllers/order.controller.js:277-297 | the per-status counts add up to totalOrders and the amounts to totalRevenue |
| OrderQueries.StatsOfOne | E-Gas/server/controllers/order.controller.js:277-297 | one order gives one group with count 1 and its total |
| OrderService.Encode | E-Gas/client/src/services/orderService.js:34-38 | no more pairs than parameters |
| OrderService.EncodeMembers | E-Gas/client/src/services/orderService.js:34-38 | a pair is in the query iff some parameter with that key is neither undefined nor '' and renders to that text |
| OrderService.BuildQuery | E-Gas/client/src/services/orderService.js:133-137 | the `forEach` that appends the parameters builds exactly the encoded query |
| OrderService.HandleResponse | E-Gas/client/src/services/orderService.js:4-10 | the body is returned iff the response is ok; otherwise the error is the server's message or 'Something went wrong' |
| OrderService.ServerRepliesSurface | E-Gas/client/src/services/orderService.js:4-10 | a server success is returned as is; a failure surfaces its message, or the generic one when the message is empty |
| OrderService.Truncate | E-Gas/client/src/services/orderService.js:212 | text up to 15 characters is unchanged; longer text becomes its first 15 characters and '...' |
| OrderService.TruncateIdempotent | E-Gas/client/src/services/orderService.js:212 | truncating twice equals truncating once, and no cell exceeds 18 characters |
| OrderService.Cells | E-Gas/client/src/services/orderService.js:199-205 | six cells in column order; a missing order number, customer, product, quantity or status is 'N/A'; a present quantity's cell reads back as that quantity; the total cell is 'Rs. ' followed by text that reads back as the total, or as 0 when it is missing |
| OrderService.PlaceOf | E-Gas/client/src/services/orderService.js:194-197 | every row is written between heights 20 and 280, and on the first page exactly for the first 27 rows |
| OrderService.PlaceStep | E-Gas/client/src/services/orderService.js:194-197 | the next row goes 8 lower, or to height 20 of a new page when that passes 280 |
| OrderService.ClientView | E-Gas/client/src/services/orderService.js:193 | the browser receives each stored order, in order |
| OrderService.ReportRevenueOfServer | E-Gas/client/src/services/orderService.js:227 | on server orders the report's revenue equals the statistics' totalRevenue |
| OrderService.ClientViewSnoc | E-Gas/client/src/services/orderService.js:227 | the browser's view of a list with one more order is its view of the list followed by that order's row |
| OrderService.RevenueSnoc | E-Gas/server/controllers/order.controller.js:288-297 | the revenue of one more order grows by its total |
| OrderService.ExportOrders | E-Gas/client/src/services/orderService.js:148-229 | a failed fetch throws its message; success false throws 'Failed to fetch orders'; otherwise one truncated row per order at its place, the order count and the revenue |
| OrderService.RenderEach | E-Gas/client/src/services/orderService.js:199-215 | for any cell rule, the loop yields one row per order, in order, each the rule applied to its order |
| OrderService.RenderRows | E-Gas/client/src/services/orderService.js:199-215 | one row per order, in order, each the truncated cells |
| OrderService.LayOutRows | E-Gas/client/src/services/orderService.js:175-217 | the loop writes row i at PlaceOf(i) |
| OrderService.PlaceNext | E-Gas/client/src/services/orderService.js:194-197 | a row's place is the previous row's height plus 8, moved to a new page past 280 |
| OrderService.SumRevenue | E-Gas/client/src/services/orderService.js:227 | the `reduce` sums the totals, a missing one as 0 |
| OrderService.ShortReportOnePage | E-Gas/client/src/services/orderService.js:194-197 | at most 27 rows fit on the first page |
| OrderManagement.FetchQuery | E-Gas/client/src/pages/OrderManagement/OrderManagement.jsx:49-54 | the query sends page and limit 10, the search only when not empty, and the status only when the filter is not 'all' |
| OrderManagement.FetchFilter | E-Gas/client/src/pages/OrderManagement/OrderManagement.jsx:49-56 | the server reads this fetch as page, limit 10, the search term and the status filter, 'all' meaning none |
| OrderManagement.ShowingRangeMatchesPage | E-Gas/client/src/pages/OrderManagement/OrderManagement.jsx:342-346 | "Showing X to Y": X = (page-1)*10+1 and Y = min(page*10, total); with a non-empty page, the shown orders are matches X to Y |
| OrderManagement.SteppingStaysInRange | E-Gas/client/src/pages/OrderManagement/OrderManagement.jsx:323-331 | Previous is enabled only above page 1 and Next only below the last page, so stepping stays within 1..totalPages |
| OrderManagement.ReportCoversFirstPageOnly | E-Gas/client/src/pages/OrderManagement/OrderManagement.jsx:151-158 | the report sends no page and no limit, so the server lists only the first 10 matches |
| OrderManagement.OrderDashboard.constructor | E-Gas/client/src/pages/OrderManagement/OrderManagement.jsx:15-27 | page 1 of 1, no orders, loading, empty search, filter 'all' |
| OrderManagement.OrderDashboard.ReceiveListing | E-Gas/client/src/pages/OrderManagement/OrderManagement.jsx:56-78 | a successful reply replaces the pagination, a failure keeps it; loading ends either way |
| OrderManagement.OrderDashboard.Previous | E-Gas/client/src/pages/OrderManagement/OrderManagement.jsx:323-324 | the page goes down by one when hasPrev, and nothing changes otherwise |
| OrderManagement.OrderDashboard.Next | E-Gas/client/src/pages/OrderManagement/OrderManagement.jsx:330-331 | the page goes up by one when hasNext, and nothing changes otherwise |
| OrderManagement.OrderDashboard.SetSearch | E-Gas/client/src/pages/OrderManagement/OrderManagement.jsx:213-214 | only the search term changes |
| OrderManagement.OrderDashboard.SearchSettled | E-Gas/client/src/pages/OrderManagement/OrderManagement.jsx:34-44 | on page 1 it fetches now, otherwise it resets to page 1 and that refetches; the next fetch is page 1 with the new term |
| OrderManagement.StatusColor | E-Gas/client/src/pages/OrderManagement/OrderManagement.jsx:168-177 | a text gets the gray class exactly when it is not one of the five statuses |
| OrderManagement.StatusColorsDistinct | E-Gas/client/src/pages/OrderManagement/OrderManagement.jsx:168-177 | different statuses get different classes |
| OrderManagement.DisplayStatus | E-Gas/client/src/pages/OrderManagement/OrderManagement.jsx:286-287 | a missing or empty status is shown as 'Processing', any other as it is |
| OrderManagement.EditPrefill | E-Gas/client/src/pages/OrderManagement/OrderManagement.jsx:405-416 | the dialog starts from the order's fields, with the displayed status |
| OrderManagement.EditSubmit | E-Gas/client/src/pages/OrderManagement/OrderManagement.jsx:426-433 | the edited order keeps id, order number and cylinder, takes the form's fields, and its total is price times the edited quantity |
| OrderManagement.EditStoredAsSubmitted | E-Gas/client/src/pages/OrderManagement/OrderManagement.jsx:108-116 | applying the dialog's submitted body as the server's `$set` patch, after its total recomputation, yields exactly the edited order, whose total agrees with its quantity; whether the body passes the update validators is not part of this claim |
| OrderManagement.UnchangedEditKeepsOrder | E-Gas/client/src/pages/OrderManagement/OrderManagement.jsx:405-433 | saving the dialog unchanged gives back the order, when its status is set and its total consistent |
| OrderForm.FormErrorsMeaning | E-Gas/client/src/pages/OrderManagement/OrderForm.jsx:43-65 | each field's error is present exactly when its rule fails, with the source's message |
| OrderForm.NoErrorsIffValid | E-Gas/client/src/pages/OrderManagement/OrderForm.jsx:64-65 | there are no errors exactly when the form is valid |
| OrderForm.ValidateForm | E-Gas/client/src/pages/OrderManagement/OrderForm.jsx:43-66 | the field-by-field fill yields exactly the form's errors, and true iff the form is valid |
| OrderForm.SubmitGuard | E-Gas/client/src/pages/OrderManagement/OrderForm.jsx:75-86 | the submit goes on exactly when name, phone and address are non-blank |
| OrderForm.SubmitGuardWeaker | E-Gas/client/src/pages/OrderManagement/OrderForm.jsx:75-86 | every valid form passes the guard, and a form with a 5-digit phone and quantity 0 passes it too |
| OrderForm.OrderFormPage.constructor | E-Gas/client/src/pages/OrderManagement/OrderForm.jsx:12-19 | empty fields, quantity 1, no errors |
| OrderForm.OrderFormPage.HandleInputChange | E-Gas/client/src/pages/OrderManagement/OrderForm.jsx:27-41 | the typed field changes; only that field's error is cleared, if it was set; other errors stay |
| OrderForm.OrderFormPage.Validate | E-Gas/client/src/pages/OrderManagement/OrderForm.jsx:43-66 | the errors become the form's errors and the result says whether it is valid |
| OrderForm.OrderData | E-Gas/client/src/pages/OrderManagement/OrderForm.jsx:91-102 | the body carries the form's name, phone, address and quantity with the fixed e-mail, city, postal code and empty instructions |
| OrderForm.SubmittedFormRequiredFields | E-Gas/client/src/pages/OrderManagement/OrderForm.jsx:75-102 | a body that passed the guard has every field the server requires exactly when the quantity is not 0 |
| OrderForm.MakeLocalOrder | E-Gas/client/src/pages/OrderManagement/OrderForm.jsx:120-126 | the fallback order is 'Confirmed', totals price times quantity and carries the submitted body |
| OrderForm.LocalOrderMatchesServer | E-Gas/client/src/pages/OrderManagement/OrderForm.jsx:119-126 | the fallback order has the id format, total, status and fields the server would have given |
| Patterns.IsEmail | E-Gas/client/src/pages/UserManagement/SignUp.jsx:53-58 | the decision procedure agrees with the pattern: text without space or '@', '@', text, '.', text |
| Patterns.EmailSound | E-Gas/client/src/pages/UserManagement/SignUp.jsx:55 | a split at the first '@' and some later '.' with allowed parts matches the pattern |
| Patterns.FirstAtSign | E-Gas/client/src/pages/UserManagement/SignUp.jsx:55 | an '@' preceded only by characters of the class [^\s@] is the first '@' |
| Patterns.AfterAtSign | E-Gas/client/src/pages/UserManagement/SignUp.jsx:55 | the domain head, the dot and the tail of a match together are free of white space and '@' |
| Patterns.EmailComplete | E-Gas/client/src/pages/UserManagement/SignUp.jsx:55 | every match of the pattern has its '@' at the first '@' |
| Patterns.EmailDecision | E-Gas/client/src/pages/UserManagement/SignUp.jsx:55 | the search for a '.' after the '@' decides the pattern |
| Patterns.EmailDecisionSound | E-Gas/client/src/pages/UserManagement/SignUp.jsx:55 | an '@' with clean text on both sides and a dot with a character on each side after it is a match |
| Patterns.EmailDecisionComplete | E-Gas/client/src/pages/UserManagement/SignUp.jsx:55 | in a match the '@' is the first one and a dot lies strictly inside the text after it |
| Patterns.OrderFormEmailAccepted | E-Gas/client/src/pages/OrderManagement/OrderForm.jsx:97 | the order form's fixed e-mail matches the pattern |
| Patterns.EmailWithoutDotRefused | E-Gas/client/src/pages/UserManagement/SignUp.jsx:55 | an address without a '.' after the '@' is refused |
| Patterns.PasswordPatternOnOneLine | E-Gas/client/src/pages/UserManagement/SignUp.jsx:81 | on one line the look-ahead pattern holds iff the text has a lowercase letter, a capital and a digit |
| Patterns.PasswordPatternSplitByNewline | E-Gas/client/src/pages/UserManagement/SignUp.jsx:81 | a password whose classes sit on different lines fails the look-aheads |
| SignUp.PerField.Set | E-Gas/client/src/pages/UserManagement/SignUp.jsx:97-100 | setting one field changes that field and no other |
| SignUp.ValidateFieldMeaning | E-Gas/client/src/pages/UserManagement/SignUp.jsx:39-92 | a field has no error exactly when its rule accepts it, and an accepted value is never blank |
| SignUp.AllErrorsGet | E-Gas/client/src/pages/UserManagement/SignUp.jsx:129-151 | each field's error is that field's validateField result |
| SignUp.EveryFieldMeaning | E-Gas/client/src/pages/UserManagement/SignUp.jsx:39-92 | each field's error is empty iff its rule holds: user name, e-mail, 10-digit phone, address of 10 characters, strong password |
| SignUp.NoErrorsIffAcceptable | E-Gas/client/src/pages/UserManagement/SignUp.jsx:129-151 | every error is empty exactly when the whole form is acceptable |
| SignUp.LooksValidWhenCurrent | E-Gas/client/src/pages/UserManagement/SignUp.jsx:189-192 | with errors computed from the data, isFormValid holds iff the form is acceptable |
| SignUp.StaleErrorsLookValid | E-Gas/client/src/pages/UserManagement/SignUp.jsx:189-192 | untouched fields keep empty errors, so a too-short user name still looks valid |
| SignUp.CheckEach | E-Gas/client/src/pages/UserManagement/SignUp.jsx:133-137 | for any rule, the loop stores each listed field's error and its flag is true exactly when every error is empty |
| SignUp.ErrorsOfEveryField | E-Gas/client/src/pages/UserManagement/SignUp.jsx:133-137 | errors set by the rules on all five listed fields are the form's errors, all empty exactly when the form is acceptable |
| SignUp.ListedFieldsEmpty | E-Gas/client/src/pages/UserManagement/SignUp.jsx:133 | the field list names all five fields, so its errors are all empty exactly when each field's is |
| SignUp.CheckAll | E-Gas/client/src/pages/UserManagement/SignUp.jsx:129-151 | the loop computes every field's error, and the flag says the form is acceptable |
| SignUp.SignUpForm.constructor | E-Gas/client/src/pages/UserManagement/SignUp.jsx:10-35 | empty data, no errors, nothing touched |
| SignUp.SignUpForm.HandleChange | E-Gas/client/src/pages/UserManagement/SignUp.jsx:94-110 | the field takes the value, and its error is recomputed only when the field was touched |
| SignUp.SignUpForm.HandleBlur | E-Gas/client/src/pages/UserManagement/SignUp.jsx:112-127 | the field becomes touched and its error is recomputed |
| SignUp.SignUpForm.ValidateForm | E-Gas/client/src/pages/UserManagement/SignUp.jsx:129-151 | every error is recomputed, every field touched, and the result says whether the form is acceptable |
| SignUp.SignUpForm.Submit | E-Gas/client/src/pages/UserManagement/SignUp.jsx:153-161 | the request goes out exactly when the data is acceptable; otherwise the submit error is set |
| SignIn.FieldMessageMeaning | E-Gas/client/src/pages/UserManagement/SignIn.jsx:23-46 | the e-mail has no message iff it matches the pattern; the password has none iff it has at least 4 characters |
| SignIn.Revalidated | E-Gas/client/src/pages/UserManagement/SignIn.jsx:66 | the revalidated fields get fresh messages and every other entry is kept |
| SignIn.RevalidationChangesNothing | E-Gas/client/src/pages/UserManagement/SignIn.jsx:66 | when the messages already match the data, revalidating changes nothing |
| SignIn.SignInForm.constructor | E-Gas/client/src/pages/UserManagement/SignIn.jsx:16-17 | no data and no errors |
| SignIn.SignInForm.ValidateField | E-Gas/client/src/pages/UserManagement/SignIn.jsx:23-46 | only the entry for that id is written, with its message |
| SignIn.SignInForm.HandleChange | E-Gas/client/src/pages/UserManagement/SignIn.jsx:48-60 | the field takes the value and its message is recomputed; the messages stay in step with the data |
| SignIn.SignInForm.Submit | E-Gas/client/src/pages/UserManagement/SignIn.jsx:62-70 | the request goes out exactly when the errors from before the submit have no e-mail or password message |
| SignIn.TypedFormSubmits | E-Gas/client/src/pages/UserManagement/SignIn.jsx:62-70 | after both fields were typed, the submit goes out iff the e-mail matches and the password has 4 characters |
| SignIn.UntouchedFormSubmits | E-Gas/client/src/pages/UserManagement/SignIn.jsx:62-70 | an untouched form is not blocked |
| EmployeeController.Pick | E-Gas/server/controllers/employee.controller.js:7-11 | exactly the ten listed fields of the body are kept, with their values |
| EmployeeController.FindFirst | E-Gas/server/controllers/employee.controller.js:85-90 | `findOne` returns the first employee holding the value in that field, or none holds it |
| EmployeeController.FindId | E-Gas/server/controllers/employee.controller.js:36 | finds an employee with that id, or none has it |
| EmployeeController.NicText | E-Gas/server/controllers/employee.controller.js:97 | the NIC as text exists exactly when the employee has a NIC |
| EmployeeController.LookUp | E-Gas/server/controllers/employee.controller.js:85-90 | nothing is found exactly when no employee holds the user name as employee number or e-mail; when some employee holds it as employee number, the first such is found; otherwise the first holding it as e-mail |
| EmployeeController.EmployeeStore.constructor | E-Gas/server/controllers/employee.controller.js:1 | an empty collection |
| EmployeeController.EmployeeStore.AddEmployee | E-Gas/server/controllers/employee.controller.js:5-18 | the picked fields are stored as a new employee and returned |
| EmployeeController.EmployeeStore.GetEmployees | E-Gas/server/controllers/employee.controller.js:20-31 | always 200 with the whole collection |
| EmployeeController.EmployeeStore.GetEmployeeById | E-Gas/server/controllers/employee.controller.js:63-74 | 200 with the employee exactly when one has the id, otherwise 404 |
| EmployeeController.EmployeeStore.UpdateEmployee | E-Gas/server/controllers/employee.controller.js:33-46 | an unknown id gives 404 and changes nothing; otherwise only that employee's given fields change |
| EmployeeController.EmployeeStore.DeleteEmployee | E-Gas/server/controllers/employee.controller.js:48-61 | an unknown id gives 404 and changes nothing; otherwise exactly that employee is removed |
| EmployeeController.EmployeeStore.SignIn | E-Gas/server/controllers/employee.controller.js:76-127 | 400 iff user name or password is missing; 404 iff neither employee number nor e-mail finds anyone, the number tried first; 401 iff the password is not the NIC as text; otherwise an admin token and the employee |
| EmployeeController.RemoveOnlyThat | E-Gas/server/controllers/employee.controller.js:51 | with unique ids, cutting out position k removes exactly that employee |
| EmployeeController.SeedNicText | E-Gas/server/test-employee-login.js:23 | the seeded NIC 1234567890 prints as "1234567890" |
| EmployeeController.SeedStoredWhole | E-Gas/server/test-employee-login.js:16-27 | every key of the seeded employee is one of the ten employee fields, so adding it keeps all of them |
| EmployeeController.SeedFields | E-Gas/server/test-employee-login.js:17-23 | the seeded employee holds employee number EMP001 and its e-mail, and its NIC reads as "1234567890" |
| EmployeeController.SeededLoginWalkthrough | E-Gas/server/test-employee-login.js:36-43 | the seeded employee, signing in with its e-mail and its NIC as password, gets 200 and an admin token for itself |
| EmployeeController.SeededWrongPasswordWalkthrough | E-Gas/server/controllers/employee.controller.js:76-127 | the seeded employee found by EMP001 with a password other than its NIC gets 401 'Invalid credentials' |
| UserController.SetField | E-Gas/server/controllers/user.controller.js:24-35 | `$set` takes a given field and leaves an undefined one as it was |
| UserController.View | E-Gas/server/controllers/user.controller.js:37-39 | the reply carries every field but the password |
| UserController.FindId | E-Gas/server/controllers/user.controller.js:22-23 | finds a user with that id, or none has it |
| UserController.FindEmail | E-Gas/server/controllers/user.controller.js:119 | `findOne({email})` finds a user with that e-mail, or none has it; with no e-mail it finds the first user |
| UserController.SelfUpdate | E-Gas/server/controllers/user.controller.js:18-35 | the user's id stays; a non-empty password is stored hashed, an empty one is stored as the empty text, a missing one leaves the stored hash; the other five fields take the body's values where given |
| UserController.AdminUpdate | E-Gas/server/controllers/user.controller.js:93-105 | only user name, e-mail, phone number and address can change; id, password and picture stay |
| UserController.UserStore.constructor | E-Gas/server/controllers/user.controller.js:2 | a collection of users with distinct ids |
| UserController.UserStore.UpdateUser | E-Gas/server/controllers/user.controller.js:14-43 | another user's id gives 401 and no change; a deleted own account gives 500; otherwise only that user is updated and returned without password |
| UserController.UserStore.DeleteUser | E-Gas/server/controllers/user.controller.js:45-55 | another user's id gives 401 and no change; otherwise exactly that user is removed |
| UserController.UserStore.DeleteAllUsers | E-Gas/server/controllers/user.controller.js:58-71 | an unknown id gives 404; otherwise exactly that user is removed and returned |
| UserController.UserStore.Remove | E-Gas/server/controllers/user.controller.js:49 | exactly the users with that id are removed, none when there is none |
| UserController.UserStore.GetUsers | E-Gas/server/controllers/user.controller.js:73-84 | always 200 with the whole collection |
| UserController.UserStore.AdminUpdateUser | E-Gas/server/controllers/user.controller.js:90-112 | an unknown id gives 404 and changes nothing; otherwise only that user's contact fields change |
| UserController.UserStore.ForgotPassword | E-Gas/server/controllers/user.controller.js:116-151 | no user with that e-mail gives 404 and no mail; otherwise a reset link carrying the token signed for the found user's id is mailed to the request's e-mail, with 200 only when the mail server accepts it and there is a recipient, else 500 |
| UserController.ResetLinkFindsRequester | E-Gas/server/controllers/user.controller.js:125-128 | the token in the mailed link verifies to the id of the user who asked, and the reset handler's lookup of that id finds exactly that user |
| UserController.UserStore.ResetPassword | E-Gas/server/controllers/user.controller.js:155-174 | a missing token id or password gives 400; otherwise that user's password becomes the hash and the reply is 200 |
| UserController.EmptyBodyChangesNothing | E-Gas/server/controllers/user.controller.js:24-35 | an empty body leaves the user unchanged for both updates |
| Profile.Edit | E-Gas/client/src/pages/UserManagement/Profile.jsx:95-97 | typing never changes the picture |
| Profile.BuildUpdateData | E-Gas/client/src/pages/UserManagement/Profile.jsx:111-129 | the conditional assignments build exactly the update body |
| Profile.FilledMeaning | E-Gas/client/src/pages/UserManagement/Profile.jsx:112 | a field counts as filled iff it is present and not all white space |
| Profile.TrimmedFieldMeaning | E-Gas/client/src/pages/UserManagement/Profile.jsx:112-121 | a contact field is sent iff it is filled, and then trimmed: non-empty, no edge spaces, taken from the typed text |
| Profile.AsTypedFieldMeaning | E-Gas/client/src/pages/UserManagement/Profile.jsx:122-127 | the picture and password are sent iff filled, and then as typed |
| Profile.NothingToSend | E-Gas/client/src/pages/UserManagement/Profile.jsx:133-140 | the body is empty exactly when every field is missing or blank |
| Profile.ServerKeepsUnsentFields | E-Gas/client/src/pages/UserManagement/Profile.jsx:111-129 | every field left blank keeps the stored value on the server |
| Profile.RemovedPictureNotSent | E-Gas/client/src/pages/UserManagement/Profile.jsx:209-213 | removing the picture sets it to '', which is not sent, so the stored picture stays |
| Profile.Prefill | E-Gas/client/src/pages/UserManagement/Profile.jsx:249-257 | no password; the user name falls back to the name, then ''; the phone number to phone, then '' |
| Profile.TrimmedFieldKept | E-Gas/client/src/pages/UserManagement/Profile.jsx:112-121 | a stored value without edge spaces is sent back unchanged, or not at all |
| Profile.UnchangedSaveKeepsUser | E-Gas/client/src/pages/UserManagement/Profile.jsx:249-257 | saving the prefilled form unchanged leaves the user as stored |
| Profile.OrderBadge | E-Gas/client/src/pages/UserManagement/Profile.jsx:238-247 | a missing status shows as 'Processing' in yellow; a present one gets the order table's class, gray for unknown ones |
| Profile.ProfilePage.constructor | E-Gas/client/src/pages/UserManagement/Profile.jsx:32-40 | empty form, not editing, no upload, no orders, history closed |
| Profile.ProfilePage.HandleChange | E-Gas/client/src/pages/UserManagement/Profile.jsx:95-97 | the typed field changes and nothing else |
| Profile.ProfilePage.HandleSubmit | E-Gas/client/src/pages/UserManagement/Profile.jsx:108-140 | no request iff the body is empty, and then the form is cleared and editing ends; otherwise the request carries the body |
| Profile.ProfilePage.HandleUpdateResponse | E-Gas/client/src/pages/UserManagement/Profile.jsx:153-169 | on success the form is cleared, editing ends and success shows; on failure nothing changes |
| Profile.ProfilePage.HandleFileUpload | E-Gas/client/src/pages/UserManagement/Profile.jsx:49-64 | the upload starts iff the type starts with 'image/' and the size is at most 2 MiB, else the error flag is set |
| Profile.ProfilePage.UploadCompleted | E-Gas/client/src/pages/UserManagement/Profile.jsx:83-86 | the picture URL is written into the form as it was when the upload started |
| Profile.ProfilePage.UploadFailed | E-Gas/client/src/pages/UserManagement/Profile.jsx:78-82 | the error flag is set and the progress reset |
| Profile.ProfilePage.DownloadAddressFailed | E-Gas/client/src/pages/UserManagement/Profile.jsx:87-90 | the error flag is set while the progress and the form stay as they were |
| Profile.ProfilePage.RemoveProfilePicture | E-Gas/client/src/pages/UserManagement/Profile.jsx:209-213 | the picture becomes '' and the upload state is cleared |
| Profile.ProfilePage.HandleEditClick | E-Gas/client/src/pages/UserManagement/Profile.jsx:249-258 | editing starts with the prefilled form |
| Profile.ProfilePage.HandleCancelEdit | E-Gas/client/src/pages/UserManagement/Profile.jsx:267-272 | editing ends, the form is cleared and the upload state reset |
| Profile.ProfilePage.HandleShowOrderHistory | E-Gas/client/src/pages/UserManagement/Profile.jsx:231-236 | visibility flips, and a fetch happens exactly when opening with no orders loaded |
| Profile.ProfilePage.FetchOrderHistory | E-Gas/client/src/pages/UserManagement/Profile.jsx:215-229 | without a user id nothing happens; a reply sets the orders, or none when the reply lacks them; a failure keeps them |
| UserTable.FilterUsers | E-Gas/client/src/pages/UserManagement/Usertable.jsx:47-50 | the filter never yields more users than it was given |
| UserTable.FilterMeaning | E-Gas/client/src/pages/UserManagement/Usertable.jsx:47-50 | the filter fails iff the callback throws on some user; otherwise it keeps exactly the accepted users, in order |
| UserTable.EmptySearchKeepsAll | E-Gas/client/src/pages/UserManagement/Usertable.jsx:47-50 | the empty query keeps every user with a user name |
| UserTable.LowerTwice | E-Gas/client/src/pages/UserManagement/Usertable.jsx:48 | lower-casing is idempotent |
| UserTable.SearchIgnoresCase | E-Gas/client/src/pages/UserManagement/Usertable.jsx:45-53 | the query's letter case does not change the result |
| UserTable.SearchTwice | E-Gas/client/src/pages/UserManagement/Usertable.jsx:45-53 | searching the results again with the same query keeps them |
| UserTable.RemoveId | E-Gas/client/src/pages/UserManagement/Usertable.jsx:62-65 | the users left are exactly those whose id differs, all of them for a null id |
| UserTable.RemoveIdKeepsOrder | E-Gas/client/src/pages/UserManagement/Usertable.jsx:62-65 | the users left keep their order, and nothing goes when no user has the id |
| UserTable.ListMatchesServer | E-Gas/client/src/pages/UserManagement/Usertable.jsx:59-74 | after a delete the page's list holds the same users as the server's collection |
| UserTable.EditPrefill | E-Gas/client/src/pages/UserManagement/Usertable.jsx:84-89 | the dialog copies exactly user name, e-mail, phone number and address |
| UserTable.BodyOf | E-Gas/client/src/pages/UserManagement/Usertable.jsx:95 | the request body carries no password and no picture |
| UserTable.UnchangedEditKeepsUser | E-Gas/client/src/pages/UserManagement/Usertable.jsx:82-103 | saving the dialog unchanged leaves the user as stored |
| UserTable.EditedFieldStored | E-Gas/client/src/pages/UserManagement/Usertable.jsx:181-208 | typing into one input and saving stores that value in its field and nothing else |
| UserTable.UserTablePage.constructor | E-Gas/client/src/pages/UserManagement/Usertable.jsx:11-22 | no data, empty query and results, no dialog open |
| UserTable.UserTablePage.FetchData | E-Gas/client/src/pages/UserManagement/Usertable.jsx:30-43 | a loaded list becomes both the data and the results; a failed fetch changes nothing |
| UserTable.UserTablePage.SetSearchQuery | E-Gas/client/src/pages/UserManagement/Usertable.jsx:113 | only the query changes |
| UserTable.UserTablePage.HandleSearch | E-Gas/client/src/pages/UserManagement/Usertable.jsx:45-53 | the results become the search result, and stay when the handler throws |
| UserTable.UserTablePage.HandleDeleteConfirmation | E-Gas/client/src/pages/UserManagement/Usertable.jsx:55-57 | the dialog opens for that id |
| UserTable.UserTablePage.HandleDeleteConfirmed | E-Gas/client/src/pages/UserManagement/Usertable.jsx:59-74 | after the server's delete the user leaves the list and the dialog closes; on failure nothing changes |
| UserTable.UserTablePage.HandleCancelDelete | E-Gas/client/src/pages/UserManagement/Usertable.jsx:76-78 | the dialog closes and the data stays |
| UserTable.UserTablePage.HandleEdit | E-Gas/client/src/pages/UserManagement/Usertable.jsx:82-90 | the edit dialog opens on that user with the prefilled form |
| UserTable.UserTablePage.HandleEditInput | E-Gas/client/src/pages/UserManagement/Usertable.jsx:181-208 | the typed field changes |
| UserTable.UserTablePage.HandleUpdate | E-Gas/client/src/pages/UserManagement/Usertable.jsx:93-103 | the request goes to the edited user's id with the form's body; the dialog closes on success |
| Tally.CountWhere | E-Gas/client/src/pages/InventoryManagement/InventoryManagement.jsx:46-49 | `filter(p).length` never exceeds the list's length |
| Tally.CountIsPositions | E-Gas/client/src/pages/InventoryManagement/InventoryManagement.jsx:46-49 | the count is the number of positions whose element passes |
| Tally.CountAppend | E-Gas/client/src/pages/InventoryManagement/InventoryManagement.jsx:46-49 | counting two lists together adds their counts |
| Tally.CountComplement | E-Gas/client/src/pages/InventoryManagement/InventoryManagement.jsx:171 | a test and its negation together count every element once |
| Tally.DisjointCounts | E-Gas/client/src/pages/DeliveryManagement/DeliveryTaskManagement.jsx:33-34 | two tests no element passes together count no more than the list |
| Tally.SumOf | E-Gas/client/src/pages/InventoryManagement/InventoryManagement.jsx:39-41 | a sum of non-negative terms is non-negative |
| Tally.SumAppend | E-Gas/client/src/pages/InventoryManagement/InventoryManagement.jsx:39-41 | summing two lists together adds their sums |
| Inventory.TypeCountsWithinTotal | E-Gas/client/src/pages/InventoryManagement/InventoryManagement.jsx:52-59 | the four type counts together never exceed the item count |
| Inventory.CountsMeaning | E-Gas/client/src/pages/InventoryManagement/InventoryManagement.jsx:37-59 | the count is the number of items; expired and pending count their items and together stay within it; the valuation of a stock without negatives is not negative |
| Inventory.TypeMatchIsExact | E-Gas/client/src/pages/InventoryManagement/InventoryManagement.jsx:52-59 | a type spelt '2KG' is not counted as '2kg' |
| Inventory.CountsAppend | E-Gas/client/src/pages/InventoryManagement/InventoryManagement.jsx:39-59 | the valuation and every count of two lists together are the sums of theirs |
| Inventory.Rows | E-Gas/client/src/pages/InventoryManagement/InventoryManagement.jsx:141-142 | one row per item, in order: name, price, quantity, supplier, status |
| Inventory.ReportOf | E-Gas/client/src/pages/InventoryManagement/InventoryManagement.jsx:88-190 | size, valuation and table come from the new list; the status and type counts come from the page; active is the new size less the page's expired count |
| Inventory.ReportOfUnchangedList | E-Gas/client/src/pages/InventoryManagement/InventoryManagement.jsx:168-190 | when the list has not changed, active counts the items not expired and expired plus active is the size |
| Inventory.ReportCountsStale | E-Gas/client/src/pages/InventoryManagement/InventoryManagement.jsx:168-190 | a 2 kg item added after the page loaded is listed but counted 0 |
| Inventory.FreshReport | E-Gas/client/src/pages/InventoryManagement/InventoryManagement.jsx:106-142 | the report's size and table are those of the list it prints |
| Inventory.FreshReportDescribesItems | E-Gas/client/src/pages/InventoryManagement/InventoryManagement.jsx:168-190 | every count of the corrected report describes the listed items |
| Inventory.InventoryPage.constructor | E-Gas/client/src/pages/InventoryManagement/InventoryManagement.jsx:11-20 | all counters 0 |
| Inventory.InventoryPage.FetchInventory | E-Gas/client/src/pages/InventoryManagement/InventoryManagement.jsx:25-64 | a loaded list sets every counter from it; a failure keeps them |
| Inventory.InventoryPage.GenerateReport | E-Gas/client/src/pages/InventoryManagement/InventoryManagement.jsx:86-190 | the type counters are reset from the new list, but the report uses the counters from before |
| Delivery.CountsMeaning | E-Gas/client/src/pages/DeliveryManagement/DeliveryTaskManagement.jsx:31-37 | the total is the task count; delivered and to-be-delivered count their tasks; together they stay within the total, and the rest have other statuses |
| Delivery.OtherStatuses | E-Gas/client/src/pages/DeliveryManagement/DeliveryTaskManagement.jsx:33-34 | delivered, to-be-delivered and the other tasks add up to all tasks |
| Delivery.StatusMatchIsExact | E-Gas/client/src/pages/DeliveryManagement/DeliveryTaskManagement.jsx:34 | a status spelt 'on the way' is in neither count |
| Delivery.Rows | E-Gas/client/src/pages/DeliveryManagement/DeliveryTaskManagement.jsx:96-97 | one row per task, in order: order number, formatted date, driver, status |
| Delivery.ReportOf | E-Gas/client/src/pages/DeliveryManagement/DeliveryTaskManagement.jsx:49-125 | size and table come from the new list; the two counts come from the page |
| Delivery.ReportCountsStale | E-Gas/client/src/pages/DeliveryManagement/DeliveryTaskManagement.jsx:122-125 | a task delivered after the page loaded is listed as delivered but counted 0 |
| Delivery.FreshReport | E-Gas/client/src/pages/DeliveryManagement/DeliveryTaskManagement.jsx:71-97 | the report's size and table are those of the list it prints |
| Delivery.FreshReportDescribesTasks | E-Gas/client/src/pages/DeliveryManagement/DeliveryTaskManagement.jsx:122-125 | the corrected report's counts describe the listed tasks and stay within their number |
| Delivery.DeliveryPage.constructor | E-Gas/client/src/pages/DeliveryManagement/DeliveryTaskManagement.jsx:11-13 | all counters 0 |
| Delivery.DeliveryPage.FetchTasks | E-Gas/client/src/pages/DeliveryManagement/DeliveryTaskManagement.jsx:19-42 | a loaded list sets the counters from it; a failure keeps them |
| Delivery.DeliveryPage.GenerateReport | E-Gas/client/src/pages/DeliveryManagement/DeliveryTaskManagement.jsx:49-140 | the report is that of the new list with the page's counts; no counter changes |
| PrivateRoute.StoredAfter | E-Gas/client/src/components/PrivateRoute.jsx:21-29 | the stored token stays as it was or is removed |
| PrivateRoute.AccessIff | E-Gas/client/src/components/PrivateRoute.jsx:47 | access is granted iff a user is signed in or the stored token's exp*1000 is after now; otherwise the redirect goes to /employee-sign-in |
| PrivateRoute.CheckTwice | E-Gas/client/src/components/PrivateRoute.jsx:10-36 | checking again at the same time removes nothing more and authenticates the same |
| PrivateRoute.ExpiryIsFinal | E-Gas/client/src/components/PrivateRoute.jsx:17-24 | a token valid now was valid earlier, and an expired one stays expired |
| PrivateRoute.RouteGuard.constructor | E-Gas/client/src/components/PrivateRoute.jsx:7-12 | loading, not authenticated, with the stored token |
| PrivateRoute.RouteGuard.CheckToken | E-Gas/client/src/components/PrivateRoute.jsx:10-36 | no token: not authenticated; an unexpired one authenticates and stays; an expired or undecodable one is removed; loading ends |
| PrivateRoute.RouteGuard.Render | E-Gas/client/src/components/PrivateRoute.jsx:38-47 | loading renders the spinner; otherwise the access decision |

## Left out

- MongoDB itself is not modelled: queries, `populate`, `aggregate`, indexes and the ObjectId format. The collection is a sequence and ids come from a counter. A malformed id, which MongoDB rejects with a cast error, is not modelled.
- Searches are literal text matched ignoring ASCII letter case. The server treats the search as a regular expression, and the model does not give regular-expression characters their meaning.
- Letter case covers A to Z only; other Unicode case mappings are not modelled.
- Text lengths count characters, while JavaScript counts UTF-16 code units.
- The clock, the random draw, password hashing, JWT signing and decoding, mail delivery, Firebase uploads and their progress are parameters or left out.
- Date parsing and locale formatting are not modelled. The delivery date is kept as the caller's text and the order date is milliseconds. The report's date column is a `formatDate` parameter.
- Floating point is not modelled: prices and totals are integers, and the `toFixed(2)` valuation and upload percentages are left out.
- Timers and the order in which asynchronous replies land are not modelled. The 500 ms search debounce is the single step `SearchSettled`. The 3-second success banner, page reloads and navigation are left out.
- PDF layout beyond row placement is left out: fonts, column x positions and the inventory and delivery reports' height stepping.
- The employee and user schema files are not part of this model. Employee fields are a map of values and user fields are optional texts.
- The server's CSV export of orders (`exportOrders` in the controller) is not modelled.
- Sign-out and the Redux store are not modelled.
- OrderController.OrderStore.GetOrders requires a limit of at least 1. With limit 0 the source divides by zero and reports `Infinity` pages; a negative limit is passed on to the database. Neither case is modelled.
- OrderQueries.ListOrdersOfUser requires a limit of at least 1, for the same reason.
- OrderQueries.SortBy sorts only on the numeric keys orderDate, totalAmount and quantity, keeping equal keys in collection order; the database leaves ties unordered.
- OrderController.OrderStore.UpdateOrder takes an update body of the order's own fields, `orderDate` and `userId` included. Keys outside the schema, which the database's strict mode drops, are not modelled, and neither is a `userId` that is not a well-formed account id.
- OrderController.OrderStore.GetOrders and OrderController.OrderStore.GetOrdersByUser take `page` and `limit` as integers already parsed from the query text. `parseInt` is not modelled: text that is not a number, which yields `NaN`, and text such as `2.7` or `5x`, which reads as its leading digits, are left out.
- The update handlers of the user controller, and the profile and user-table pages that send them bodies, rely on the database library dropping keys whose value is `undefined` from a `$set`, as Mongoose 6 and later do; an older Mongoose without `omitUndefined` would set those fields to null instead.
- The browser's HTML constraint validation is not modelled: the order form's quantity bounds (`min="1"`, `max="10"`) and `type="email"` inputs. OrderForm.SubmitGuardWeaker's example with quantity 0 cannot be submitted from a browser, only by a request built outside the page.
- OrderService.HandleResponse takes the response body as already parsed; `response.json()` throwing on a body that is not JSON (an HTML error page from a proxy, say) before any message is read is not modelled.
- OrderService.Cells leaves out the seventh column, the order date, because it is locale-formatted.
- OrderService.ExportOrders does not model the thousands separators that `toLocaleString` adds to totals.
- OrderForm.OrderData keeps the quantity as a number; the source's input may hand it over as text.
- OrderManagement.EditSubmit keeps the edit dialog's quantity as a number too; the source hands over the input's text, and an emptied quantity field, which the database fails to cast, is not modelled.
- OrderModel.ValidCylinder covers the cylinder's text fields only: a body whose cylinder lacks its `price` or its `_id` cannot be expressed, so the schema error (a 500) it draws is not modelled.
- OrderQueries.Stats lists the status groups in the order their statuses first appear in the collection; the database's `$group` leaves that order unspecified, so only the set of groups and their figures are the source's promise.
- UserTable.UserTablePage.HandleDeleteConfirmed requires a loaded list, since the confirmation dialog only opens from a row of it.
- UserTable.UserTablePage.HandleUpdate requires an open edit dialog, since its save button only exists inside it.
- Profile.ProfilePage.HandleEditClick takes the signed-in user as given; a page without a signed-in user is not modelled.
- UserController.UserStore.constructor requires distinct user ids, as the database guarantees.

## Findings

| source | as written | input that shows it | evidently intended | confidence | as-written member | corrected member |
|---|---|---|---|---|---|---|
| E-Gas/client/src/pages/InventoryManagement/InventoryManagement.jsx:168-190 | the report prints its table from a fresh fetch but reads the status and type counts from the page's state | a 2 kg item added after the page loaded: listed in the table, counted 0 under 2 kg | every figure taken from the list the report prints | not executed | Inventory.ReportCountsStale | Inventory.FreshReportDescribesItems |
| E-Gas/client/src/pages/DeliveryManagement/DeliveryTaskManagement.jsx:122-125 | the report prints its table from a fresh fetch but reads the delivered and to-be-delivered counts from the page's state | a task delivered after the page loaded: listed as 'Delivered', counted 0 | the counts taken from the list the report prints | not executed | Delivery.ReportCountsStale | Delivery.FreshReportDescribesTasks |
