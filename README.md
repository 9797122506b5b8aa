# ShopJoy storefront rules in Dafny

This project models the business core of the ShopJoy e-commerce backend and one frontend helper module, and proves properties of the model:

- **Inventory ledger** (`inventory.dfy`, module `Inventory`). There is one stock record per product. The model covers the validation gate, the seven stock mutators of the inventory service, its read-only queries, and the `Inventory` entity's persist and update hooks. Each mutator is specified by a `...Step` function from the store to an outcome (`Ok`, `Validation(field)`, `NotFound`, `Duplicate` or `Insufficient(productId, requested, available)`) and a new store. The class `InventoryService` performs the same steps in place on its `records` map.
- **Reviews** (`review.dfy`, module `Reviews`). Covers one review per user and product, field validation, create, update, delete, mark-helpful, and the lookups by id, product, user and rating over a table kept in store order. It also covers the `Review` entity hooks.
- **Accounts** (`auth.dfy`, module `Auth`). Covers the registration checks (username length, the email pattern, password composition) and the order of the checks in registration, login and password change, all over a user table. Java's `trim()`, whole-string `matches` and the regular-expression `.` are written out character by character.
- **Order hooks** (`order.dfy`, module `Orders`). The persist defaults and the timestamps of the `Order` entity, as a class with its fields.
- **Category batch resolver** (`category.dfy`, module `CategoryProducts`). The `products` batch field: distinct ids, `groupingBy`, and `toMap` with an empty-list default.
- **Frontend error helpers** (`error_handler.dfy`, module `ErrorHandler`). Covers `formatErrorMessage`, `createErrorNotification` without its timestamp, `extractFieldErrors` as a loop, and `isErrorType` with its derived tests.

Conventions:
- Every `LocalDateTime.now()` within one call is the same `now: Timestamp` parameter, a natural-number clock.
- BCrypt's `hashpw` and `checkpw` are function parameters. The salt produced by `gensalt` is a parameter too.
- The product lookup of the category resolver is a function parameter.
- Each service method is atomic, and a failing call leaves the store exactly as it was. The failures are detected before anything is written, except in `updateReview`. There the mapper writes rating, title and comment onto the managed entity before validation throws, and the transaction's rollback undoes those writes. The model returns the store unchanged, which is what is observable after the rollback.

## Model

| member | source | states |
|---|---|---|
| Inventory.OnPersist | src/main/java/com/shopjoy/entity/Inventory.java:54-60 | the persist hook stamps `updatedAt`; a reorder level of 0 becomes 10 and any other level is kept; stock and product are untouched |
| Inventory.OnUpdate | src/main/java/com/shopjoy/entity/Inventory.java:62-65 | the update hook changes `updatedAt` and nothing else, so a zero reorder level stays 0 |
| Inventory.ValidateInventoryData | src/main/java/com/shopjoy/service/impl/InventoryServiceImpl.java:225-241 | no violation exactly when product id > 0, stock >= 0 and level >= 0; otherwise names the first broken rule in the order product id, stock, level |
| Inventory.GetInventoryByProduct | src/main/java/com/shopjoy/service/impl/InventoryServiceImpl.java:59-64 | succeeds exactly when the product has a record, and returns that product's record; otherwise NotFound |
| Inventory.HasAvailableStock | src/main/java/com/shopjoy/service/impl/InventoryServiceImpl.java:73-78 | true iff the product's record exists and holds at least the quantity |
| Inventory.IsProductInStock | src/main/java/com/shopjoy/service/impl/InventoryServiceImpl.java:66-71 | true iff the product has available stock of 1, i.e. a record with quantity > 0 |
| Inventory.GetOutOfStockProducts | src/main/java/com/shopjoy/service/impl/InventoryServiceImpl.java:190-196 | exactly the records with quantity 0; on a valid store, a product's record is listed iff the product is not in stock |
| Inventory.GetInventoryByProducts | src/main/java/com/shopjoy/service/impl/InventoryServiceImpl.java:215-223 | empty for a missing or empty id list; otherwise every listed product's existing record and nothing else |
| Inventory.CreateInventoryStep | src/main/java/com/shopjoy/service/impl/InventoryServiceImpl.java:36-57 | validation wins over the duplicate check; a duplicate leaves the store unchanged; success adds exactly one record with the given stock, the defaulted level and both timestamps; the store invariant is preserved |
| Inventory.UpdateStockStep | src/main/java/com/shopjoy/service/impl/InventoryServiceImpl.java:80-95 | a negative quantity fails Validation even without a record; a missing record gives NotFound; success sets exactly that quantity and `updatedAt` in that record only |
| Inventory.AddStockStep | src/main/java/com/shopjoy/service/impl/InventoryServiceImpl.java:97-113 | quantity must be positive; success adds exactly the quantity and stamps `lastRestocked` and `updatedAt` in that record only |
| Inventory.RemoveStockStep | src/main/java/com/shopjoy/service/impl/InventoryServiceImpl.java:115-137 | quantity must be positive; more than is on hand fails Insufficient(product, requested, available) with the store unchanged; success iff the stock is available, subtracting exactly the quantity; stock never goes negative |
| Inventory.ReleaseStockStep | src/main/java/com/shopjoy/service/impl/InventoryServiceImpl.java:168-181 | quantity must be positive and has no upper bound; success adds it back to that record only |
| Inventory.WrapInt32 | src/main/java/com/shopjoy/service/impl/InventoryServiceImpl.java:107 | Java `int` addition: the representable value congruent to the sum modulo 2^32, the sum itself when it fits |
| Inventory.AddStockStep32 | src/main/java/com/shopjoy/service/impl/InventoryServiceImpl.java:97-113 | `addStock` as written: same outcome as `AddStockStep`, the wrapped sum as new quantity, and equal to `AddStockStep` whenever the sum fits |
| Inventory.ReleaseStockStep32 | src/main/java/com/shopjoy/service/impl/InventoryServiceImpl.java:168-181 | `releaseStock` as written, related to `ReleaseStockStep` in the same way |
| Inventory.OverflowMakesStockNegative | src/main/java/com/shopjoy/service/impl/InventoryServiceImpl.java:107 | a restock or release of 1 on a record holding the largest `int` succeeds with the most negative quantity, breaking the ledger invariant |
| Inventory.UpdateReorderLevelStep | src/main/java/com/shopjoy/service/impl/InventoryServiceImpl.java:198-213 | a negative level fails before the lookup; success stores exactly the given level, 0 included |
| Inventory.ReserveThenReleaseRestores | src/main/java/com/shopjoy/service/impl/InventoryServiceImpl.java:146-181 | a successful reservation followed by a release of the same amount restores the quantity; the store differs only in `updatedAt` |
| Inventory.CreateTwiceIsDuplicate | src/main/java/com/shopjoy/service/impl/InventoryServiceImpl.java:46-49 | a second valid create for the same product is Duplicate and leaves the first record as it was |
| Inventory.ReserveRepeatedly | src/main/java/com/shopjoy/service/impl/InventoryServiceImpl.java:146-166 | reserving repeatedly preserves the store invariant and keeps the product's record |
| Inventory.ReservationsExhaustStock | src/main/java/com/shopjoy/service/impl/InventoryServiceImpl.java:146-166 | with quantity*n on hand, n reservations of quantity all succeed and leave exactly 0, and a further reservation of one unit fails Insufficient(p, 1, 0) |
| Inventory.InventoryService.constructor | src/main/java/com/shopjoy/entity/Inventory.java:32-33 | an empty repository satisfies the ledger invariant |
| Inventory.InventoryService.CreateInventory | src/main/java/com/shopjoy/service/impl/InventoryServiceImpl.java:38-57 | the in-place create ends in the outcome and records of `CreateInventoryStep` and keeps the invariant |
| Inventory.InventoryService.UpdateStock | src/main/java/com/shopjoy/service/impl/InventoryServiceImpl.java:82-95 | the in-place update ends as `UpdateStockStep` says |
| Inventory.InventoryService.AddStock | src/main/java/com/shopjoy/service/impl/InventoryServiceImpl.java:99-113 | the in-place restock ends as `AddStockStep` says |
| Inventory.InventoryService.RemoveStock | src/main/java/com/shopjoy/service/impl/InventoryServiceImpl.java:117-137 | the in-place removal ends as `RemoveStockStep` says |
| Inventory.InventoryService.ReserveStock | src/main/java/com/shopjoy/service/impl/InventoryServiceImpl.java:148-166 | the reservation ends exactly as a removal of the same amount |
| Inventory.InventoryService.ReleaseStock | src/main/java/com/shopjoy/service/impl/InventoryServiceImpl.java:170-181 | the in-place release ends as `ReleaseStockStep` says |
| Inventory.InventoryService.UpdateReorderLevel | src/main/java/com/shopjoy/service/impl/InventoryServiceImpl.java:200-213 | the in-place level update ends as `UpdateReorderLevelStep` says |
| Reviews.OnPersist | src/main/java/com/shopjoy/entity/Review.java:63-68 | the persist hook resets the helpful count to 0 whatever it held and sets both timestamps; nothing else changes |
| Reviews.OnUpdate | src/main/java/com/shopjoy/entity/Review.java:70-73 | the update hook changes only `updatedAt` |
| Reviews.ValidateReviewData | src/main/java/com/shopjoy/service/impl/ReviewServiceImpl.java:147-167 | valid exactly when user > 0, product > 0, rating in 1..5 and any comment is at most 1000 characters; each rule's field is reported exactly when the earlier rules hold and it fails, in the order user, product, rating, comment |
| Reviews.IndexOfReview | src/main/java/com/shopjoy/service/impl/ReviewServiceImpl.java:93-94 | the position of the first row with the id, or none when no row has it |
| Reviews.Filter | src/main/java/com/shopjoy/service/impl/ReviewServiceImpl.java:118-119 | the stream `filter`: an element is kept iff it is in the input and passes the condition, and never more elements than the input |
| Reviews.FilterAppend | src/main/java/com/shopjoy/service/impl/ReviewServiceImpl.java:118-119 | the filter keeps store order: filtering a concatenation concatenates the filtered parts |
| Reviews.GetReviewById | src/main/java/com/shopjoy/service/impl/ReviewServiceImpl.java:69-74 | succeeds iff some row has the id, returning a row with that id; otherwise ReviewNotFound |
| Reviews.GetReviewsByProduct | src/main/java/com/shopjoy/service/impl/ReviewServiceImpl.java:76-81 | exactly the rows of the product, in store order |
| Reviews.GetReviewsByUser | src/main/java/com/shopjoy/service/impl/ReviewServiceImpl.java:83-88 | exactly the rows of the user, in store order |
| Reviews.GetReviewsByRating | src/main/java/com/shopjoy/service/impl/ReviewServiceImpl.java:113-122 | fails on a rating outside 1..5 before any lookup; otherwise exactly that product's reviews with that rating |
| Reviews.ReviewsByRatingKeepStoreOrder | src/main/java/com/shopjoy/service/impl/ReviewServiceImpl.java:113-122 | the by-rating answer on a table split in two is the answer on the first part followed by the answer on the second |
| Reviews.CreateReviewStep | src/main/java/com/shopjoy/service/impl/ReviewServiceImpl.java:41-67 | (with `HasReviewed` for the existence check and `DraftReview` for the mapped request) an existing (user, product) review fails before validation with the table unchanged; success appends one review with the next id, helpful count 0 and both timestamps; the table invariant (unique pairs, unique ids, valid rows) is preserved |
| Reviews.UpdateReviewStep | src/main/java/com/shopjoy/service/impl/ReviewServiceImpl.java:90-101 | an unknown id fails; success copies rating, title and comment, passes validation, and never changes id, user, product, helpful count, purchase flag or creation time; an existing review whose updated fields fail validation gives `Invalid` with the first failing field and the table unchanged |
| Reviews.DeleteReviewStep | src/main/java/com/shopjoy/service/impl/ReviewServiceImpl.java:103-111 | an unknown id fails; success removes exactly that row, so the rows left are exactly those with other ids |
| Reviews.RemovedRowsAreThoseWithOtherIds | src/main/java/com/shopjoy/service/impl/ReviewServiceImpl.java:110 | on a valid table, cutting out the row at the id's position leaves exactly the rows with other ids |
| Reviews.MarkReviewAsHelpfulStep | src/main/java/com/shopjoy/service/impl/ReviewServiceImpl.java:129-138 | an unknown id fails; success raises the helpful count by exactly 1 and changes only that row |
| Reviews.SecondReviewRejected | src/main/java/com/shopjoy/entity/Review.java:20-22 | after a successful review, a second review by the same user of the same product is rejected whatever its fields |
| Reviews.ReviewService.constructor | src/main/java/com/shopjoy/entity/Review.java:29-32 | an empty table with the identity counter at 1 satisfies the table invariant |
| Reviews.ReviewService.CreateReview | src/main/java/com/shopjoy/service/impl/ReviewServiceImpl.java:43-67 | the in-place create ends as `CreateReviewStep` says and keeps the invariant |
| Reviews.ReviewService.UpdateReview | src/main/java/com/shopjoy/service/impl/ReviewServiceImpl.java:92-101 | the in-place update ends as `UpdateReviewStep` says |
| Reviews.ReviewService.DeleteReview | src/main/java/com/shopjoy/service/impl/ReviewServiceImpl.java:105-111 | the in-place delete ends as `DeleteReviewStep` says |
| Reviews.ReviewService.MarkReviewAsHelpful | src/main/java/com/shopjoy/service/impl/ReviewServiceImpl.java:131-138 | the in-place increment ends as `MarkReviewAsHelpfulStep` says |
| Auth.TrimStart | src/main/java/com/shopjoy/service/impl/AuthServiceImpl.java:142 | removes a prefix: empty exactly for a blank string, else starts above U+0020 |
| Auth.TrimEnd | src/main/java/com/shopjoy/service/impl/AuthServiceImpl.java:142 | removes a suffix: empty exactly for a blank string, else ends above U+0020 |
| Auth.Trim | src/main/java/com/shopjoy/service/impl/AuthServiceImpl.java:142 | `trim().isEmpty()` holds exactly for blank strings |
| Auth.MatchesSomeOf | src/main/java/com/shopjoy/service/impl/AuthServiceImpl.java:170-180 | `.*[X].*` matches iff the string has a character of the class and no line terminator |
| Auth.LocalPartLength | src/main/java/com/shopjoy/service/impl/AuthServiceImpl.java:154 | the longest prefix of local-part characters: all of them allowed, the next one not |
| Auth.MatchesEmailPattern | src/main/java/com/shopjoy/service/impl/AuthServiceImpl.java:154 | matches iff some '@' is preceded by a non-empty run of `[A-Za-z0-9+_.-]` and followed by at least one character, none a line terminator |
| Auth.EmailPatternIsNotBlank | src/main/java/com/shopjoy/service/impl/AuthServiceImpl.java:150-156 | an email matching the pattern is never blank, so the blank check only selects the message |
| Auth.ValidatePassword | src/main/java/com/shopjoy/service/impl/AuthServiceImpl.java:161-181 | accepted iff present, at least 8 characters, free of line terminators, with an ASCII uppercase, a lowercase and a digit; each message (empty, too short, no uppercase, no lowercase, no digit) is reported exactly when the earlier rules pass and its own fails |
| Auth.ValidateCreateUserRequest | src/main/java/com/shopjoy/service/impl/AuthServiceImpl.java:137-159 | accepted iff the username is non-blank with 3..50 characters, the email matches the pattern and the password is accepted; each message is reported exactly when the earlier checks pass and its own fails, in the order null request ("User data cannot be null", no field), blank username, username length, blank email, email pattern, then the password's own messages |
| Auth.FindByUsername | src/main/java/com/shopjoy/service/impl/AuthServiceImpl.java:94 | finds a row with the username exactly when the username is taken |
| Auth.IndexOfUser | src/main/java/com/shopjoy/service/impl/AuthServiceImpl.java:112-113 | the position of a row with the id, or none when no row has it |
| Auth.AppendingNewUserKeepsTableValid | src/main/java/com/shopjoy/service/impl/AuthServiceImpl.java:42-55 | a user with fresh username, fresh email and the next id keeps ids, usernames and emails unique |
| Auth.RegisterStep | src/main/java/com/shopjoy/service/impl/AuthServiceImpl.java:36-82 | validation first, then duplicate username, then duplicate email, with the table unchanged on failure; success appends the user with the hashed password and both timestamps; uniqueness is preserved |
| Auth.Login | src/main/java/com/shopjoy/service/impl/AuthServiceImpl.java:84-107 | blank username and empty password are validation errors, in that order; success iff the user exists and the password checks; an unknown user and a wrong password give the same error |
| Auth.FindAppendedUsername | src/main/java/com/shopjoy/service/impl/AuthServiceImpl.java:94 | a username carried only by the appended user is found as that user |
| Auth.RegisteredUserCanLogIn | src/main/java/com/shopjoy/service/impl/AuthServiceImpl.java:39-107 | after a successful registration, logging in with the same username and password returns the new user, given that the password checks against its own hash |
| Auth.ChangePasswordStep | src/main/java/com/shopjoy/service/impl/AuthServiceImpl.java:109-125 | unknown user first, then the current password, then the new password's rules, whose violation is returned as is (a `null` new password fails as empty); success changes only that user's hash and `updatedAt` |
| Auth.AuthService.constructor | src/main/java/com/shopjoy/service/impl/AuthServiceImpl.java:33 | an empty user table satisfies the uniqueness invariant |
| Auth.AuthService.RegisterUser | src/main/java/com/shopjoy/service/impl/AuthServiceImpl.java:36-58 | the one-argument registration ends as `RegisterStep` without a user type |
| Auth.AuthService.RegisterUserWithType | src/main/java/com/shopjoy/service/impl/AuthServiceImpl.java:60-82 | the typed registration ends as `RegisterStep` with that user type |
| Auth.AuthService.Register | src/main/java/com/shopjoy/service/impl/AuthServiceImpl.java:39-55 | the shared registration body ends as `RegisterStep` says and keeps the invariant |
| Auth.AuthService.ChangePassword | src/main/java/com/shopjoy/service/impl/AuthServiceImpl.java:111-125 | the in-place password change ends as `ChangePasswordStep` says |
| Orders.Order.Build | src/main/java/com/shopjoy/entity/Order.java:39-41 | a built order has an empty item list and the given fields |
| Orders.Order.OnCreate | src/main/java/com/shopjoy/entity/Order.java:72-83 | a null status becomes PENDING and a null payment status UNPAID, others kept; created, updated and order date are all set to now, overwriting any earlier order date |
| Orders.Order.OnUpdate | src/main/java/com/shopjoy/entity/Order.java:85-88 | only `updatedAt` changes |
| CategoryProducts.Ids | src/main/java/com/shopjoy/graphql/resolver/field/CategoryFieldResolver.java:24-25 | the ids of the categories, position by position |
| CategoryProducts.FirstIndex | src/main/java/com/shopjoy/graphql/resolver/field/CategoryFieldResolver.java:26 | the position of the first occurrence: it holds the element and no earlier position does |
| CategoryProducts.FirstIndexAppend | src/main/java/com/shopjoy/graphql/resolver/field/CategoryFieldResolver.java:26 | appending keeps every first occurrence; a new element first occurs at the end |
| CategoryProducts.Distinct | src/main/java/com/shopjoy/graphql/resolver/field/CategoryFieldResolver.java:26 | no repeats, the same elements as the input, ordered by first occurrence in the input |
| CategoryProducts.CategoryIds | src/main/java/com/shopjoy/graphql/resolver/field/CategoryFieldResolver.java:24-27 | the ids sent to the lookup are the distinct ids of the input categories |
| CategoryProducts.InCategory | src/main/java/com/shopjoy/graphql/resolver/field/CategoryFieldResolver.java:31-32 | exactly the products with that category id |
| CategoryProducts.InCategoryAppend | src/main/java/com/shopjoy/graphql/resolver/field/CategoryFieldResolver.java:31-32 | selection keeps lookup order: selecting from a concatenation concatenates the selections |
| CategoryProducts.InCategoryEmpty | src/main/java/com/shopjoy/graphql/resolver/field/CategoryFieldResolver.java:37 | no product of the category selects nothing |
| CategoryProducts.GroupByCategory | src/main/java/com/shopjoy/graphql/resolver/field/CategoryFieldResolver.java:31-32 | a group for exactly the category ids that occur, each holding that id's products in encounter order |
| CategoryProducts.GroupByCategoryStep | src/main/java/com/shopjoy/graphql/resolver/field/CategoryFieldResolver.java:31-32 | adding the last product to the groups of the others gives the groups of all |
| CategoryProducts.Products | src/main/java/com/shopjoy/graphql/resolver/field/CategoryFieldResolver.java:22-39 | fails iff a category repeats; otherwise a key for every input category, mapped to exactly the looked-up products of its id in lookup order, or to the empty list |
| ErrorHandler.FormatErrorMessage | frontend/src/utils/errorHandler.js:13-21 | a missing error gives 'An unknown error occurred'; with details asked for and present, a non-empty detailed message wins over the message; in every other case the message |
| ErrorHandler.CreateErrorNotification | frontend/src/utils/errorHandler.js:91-103 | kind 'error', title 'Error', the formatted message, and details exactly when the error has them, copied field by field; a missing error throws |
| ErrorHandler.FieldErrorsOf | frontend/src/utils/errorHandler.js:113-120 | keys are exactly the usable field names that occur; each maps to the message of its last entry |
| ErrorHandler.FieldErrorsStep | frontend/src/utils/errorHandler.js:114-118 | one more entry keeps the key set equal to the usable field names and lets the new entry's message win for its field |
| ErrorHandler.ExtractFieldErrors | frontend/src/utils/errorHandler.js:110-121 | `{}` without an `errors` array; otherwise the loop builds exactly `FieldErrorsOf` of the entries |
| ErrorHandler.IsErrorType | frontend/src/utils/errorHandler.js:129-131 | true iff the error's codes contain the code; false when the error or its codes are absent |
| ErrorHandler.IsAuthenticationError | frontend/src/utils/errorHandler.js:138-141 | true iff the codes contain AUTHENTICATION_FAILED, and then the error is also an unauthorized error |
| ErrorHandler.DerivedErrorTests | frontend/src/utils/errorHandler.js:136-140 | for `IsValidationError`, `IsNotFoundError`, `IsUnauthorizedError`, `IsDuplicateError` and `IsInsufficientStockError`: each derived test holds exactly when the codes contain its code; the unauthorized test also accepts AUTHENTICATION_FAILED |

## Left out

- `getLowStockProducts` delegates to a repository query; `InventoryRepository` is not part of this model, so its threshold is unknown.
- The `@Auditable` aspect on both `registerUser` overloads records an audit event as a side effect. It is not modelled, because the aspect is not part of this model.
- `getAverageRating` is a floating-point aggregate computed by the database.
- `getAllReviews` returns the table's rows through the mapper unchanged and has no member of its own. `isEmailTaken` and `isUsernameTaken` are the predicates `EmailTaken` and `UsernameTaken` that registration uses.
- Spring transactions and concurrency: each service method is one atomic step. Interleaved read-check-write sequences are not modelled.
- Inventory.AddStockStep and Inventory.ReleaseStockStep: add without 32-bit wrap-around, as the finding below argues is intended; the code as written is `AddStockStep32` and `ReleaseStockStep32`, and the service class performs the unbounded steps.
- Reviews.MarkReviewAsHelpfulStep: does not model `int` wrap-around of the helpful count.
- Lengths are counted in Dafny characters, not UTF-16 code units. Usernames, passwords and comments with characters outside the Basic Multilingual Plane are counted differently.
- `createInventory` sets the product reference but never the entity's own `productId` column. The model keys the new record by the given product id, as the lookups `findByProduct_Id` assume.
- `ReviewServiceImpl` calls `findByProductId`, while the repository declares `findByProduct_Id`. Both are modelled as "this product's reviews".
- The purchase lookup in `createReview` has no effect on the outcome, so it is not modelled. `verifiedPurchase` stays false.
- The `@PreUpdate` hooks fire on every successful update and mark-helpful in the model. Whether JPA flushes an unmodified entity is not modelled.
- The order of `findAll` and `IN`-query results is not specified by the repository. `getOutOfStockProducts` and `getInventoryByProducts` are therefore modelled as sets.
- `warehouseLocation`, the product and user references, and the other order columns are not touched by the modelled operations and are not represented.
- MapStruct mappers (`toReview`, `toUser`, `updateReviewFromRequest`) are generated code. The model copies exactly the fields the requests carry. `UserMapperStruct` and the user type chosen by the one-argument `registerUser` are not part of this model.
- The current password of `ChangePasswordRequest` is taken as present; a `null` one, which BCrypt would reject, is not modelled. A `null` new password is modelled and fails the password rules as empty.
- `CreateUserRequest` and `UpdateReviewRequest` beyond the fields the service reads are not part of this model.
- `CategoryResponse` map keys are compared by value. A product whose `categoryId` is `null`, on which `groupingBy` throws, is not modelled.
- The toast functions `showErrorAlert`, `showSuccessToast`, `showErrorToast`, `showInfoToast`, `showWarningToast` and `showLoadingToast` are left out because they only drive the UI. `handleNetworkError` is left out because it depends on `navigator`.
- The ISO `timestamp` of `createErrorNotification` is omitted.
- JavaScript values other than the ones shape-checked here are not modelled: a non-array `errors`, a non-string `field`, or a `null` entry. `hasDetails` is modelled as a boolean.
- The `Order` entity's `@PrePersist` and `@PreUpdate` are modelled as methods on its fields. The other entity hooks are modelled as functions on the record value, applied where the repository saves it.

## Findings

| source | as written | input that shows it | evidently intended | confidence | as-written member | corrected member |
|---|---|---|---|---|---|---|
| src/main/java/com/shopjoy/service/impl/InventoryServiceImpl.java:107 | the restocked quantity is the 32-bit `int` sum, which wraps | a record holding 2147483647 restocked by 1 is saved with quantity -2147483648 | the stock grows by exactly the quantity and never becomes negative | not executed; medium (the entity declares no bound on `quantityInStock`; a database constraint is not part of this model) | Inventory.AddStockStep32, Inventory.OverflowMakesStockNegative | Inventory.AddStockStep |
| src/main/java/com/shopjoy/service/impl/InventoryServiceImpl.java:178 | the released quantity is the same wrapping `int` sum | a record holding 2147483647 released by 1 is saved with quantity -2147483648 | the release adds back exactly the quantity and keeps stock non-negative | not executed; medium (the entity declares no bound on `quantityInStock`; a database constraint is not part of this model) | Inventory.ReleaseStockStep32, Inventory.OverflowMakesStockNegative | Inventory.ReleaseStockStep |
