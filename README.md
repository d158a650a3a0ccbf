# Nutrition backend: business rules in Dafny

This project models the business rules inside the Nutrition-backend, an
Express/Mongoose shop for supplements. It models ten source files:

- the coupon routes: create, delete and apply, with its three guards and a
  discount capped at the cart total;
- review deletion, which recomputes the product's rating aggregate;
- the Product schema: its defaults and the save and update hooks that
  derive `discountedPrice`;
- order placement: the missing-field list and the stock-decrement loop;
- the wishlist add/remove handler;
- the product routes: create-time validation and normalisation, the
  `_id`/`productId` lookup, the update-time gallery merge with its deletion
  list, and delete-time image cleanup;
- the category controller: the featured flag, the nullable slider position,
  the fall-back rules of an update, deletion and the slider listing;
- the sign-up guard, with its e-mail pattern;
- the admin gate: where the token comes from, and the 403/401/pass decision;
- the catalogue seed, which flattens a nested catalogue into product
  documents.

Every collection is a `seq` field of a small store class. Handlers that
change the database are methods with `modifies` clauses. Each of those
methods is proved against a specification function, for example
`Flatten`, `StockAfter`, `Merged`, `Patched` or `Without`. The
properties the code promises are then proved about those functions as
lemmas.

Some inputs are parameters rather than effects:

- the current time (`now`);
- the ids a database would generate (`newId`);
- the generated `productId`;
- what the image store answers for an upload (`Gallery.Upload`);
- the outcome of JWT verification (`string -> Option<Claims>`);
- which stock updates throw (`failing`).

Money is `real`. `Math.round` is `Floor(x + 0.5)`. JavaScript truthiness
is spelled out by `Js.Present`, `Js.NonZero`, `Js.OrZero` and `Js.OrElse`:
`0`, `""`, `null` and `undefined` are falsy. A by-id query on a key that is
not 24 hexadecimal digits throws Mongoose's CastError, which the handlers
answer with a 500 (`Js.CastsToObjectId`). A key that does cast is compared
with the stored ids as text: the ids the database generates are lower-case
hex, and a key spelt in that form finds what `findById` finds.

## Model

| member | source | states |
|---|---|---|
| Js.Round | models/Product.js:88-90 | `Math.round`: the result is the integer within half a unit below or strictly less than half a unit above its argument |
| Js.Upper | routes/couponRoutes.js:55 | `toUpperCase` keeps the length and leaves no lower-case ASCII letter |
| Js.Lower | routes/ProductRoutes.js:209 | `toLowerCase` keeps the length and leaves no upper-case ASCII letter |
| Js.Trim | routes/couponRoutes.js:108 | `trim` gives a string that neither starts nor ends with white space and is no longer than its input |
| Js.TrimLower | routes/ProductRoutes.js:209 | lower-casing and trimming commute |
| Js.TrimDropsLeadingSpace | routes/couponRoutes.js:108 | a white-space character in front of a string does not survive `trim` |
| Js.TrimDropsTrailingSpace | routes/couponRoutes.js:108 | a white-space character after a string does not survive `trim` |
| Js.IntToString | scripts/seedProducts.js:31 | `String(n)` of an integer is non-empty, all digits when non-negative, and starts with `-` when negative |
| Coupons.ParseDiscountType | routes/couponRoutes.js:12-16 | the schema enum accepts exactly "percentage" and "fixed" |
| Coupons.IndexOfCode | routes/couponRoutes.js:110 | `findOne({ code })` finds the first coupon with exactly that code, and None means no coupon has it |
| Coupons.LookupKey | routes/couponRoutes.js:108 | the normalised code has no lower-case letter and no leading white space |
| Coupons.ApplyCoupon | routes/couponRoutes.js:98-147 | a missing code or a falsy cart total (0 included) is refused before any lookup, and an unknown normalised code is a 404; a quote is given only when the coupon is found, unexpired, under its cap and the cart meets the minimum; the quote carries the stored code, a discount of at most the cart total, and a discounted total of cart total minus discount, never negative; coupons are only read |
| Coupons.ExpiredAlwaysFails | routes/couponRoutes.js:116-117 | expiry is checked first: an expired coupon is refused whatever its usage and minimum |
| Coupons.UsageCapAfterExpiry | routes/couponRoutes.js:116-121 | for an unexpired coupon, "limit reached" is returned exactly when the cap is positive and used up |
| Coupons.BelowMinimumNeverDiscounts | routes/couponRoutes.js:122-128 | a cart below the minimum purchase never gets a quote |
| Coupons.GuardsPassed | routes/couponRoutes.js:116-141 | once the guards pass, the quote is the raw discount capped at the cart total, with the stored code |
| Coupons.PercentageDiscountExact | routes/couponRoutes.js:130-135 | a percentage coupon of 0-100 % on a positive cart gives exactly `total * value / 100`, between 0 and the total |
| Coupons.FixedDiscountCapped | routes/couponRoutes.js:133-135 | a fixed coupon worth more than the cart takes the whole cart, leaving 0 to pay |
| Coupons.SameKeySameOutcome | routes/couponRoutes.js:103-110 | the outcome of applying a code depends only on its truthiness and its trimmed upper-case lookup key |
| Coupons.ApplyIgnoresCase | routes/couponRoutes.js:108-110 | applying the lower-cased code gives the same outcome as the code itself |
| Coupons.ApplyIgnoresLeadingSpace | routes/couponRoutes.js:108-110 | a leading space before a non-empty code does not change the outcome |
| Coupons.ApplyIgnoresTrailingSpace | routes/couponRoutes.js:108-110 | a trailing space after a non-empty code does not change the outcome |
| Coupons.LeadingSpaceCodeUnreachable | routes/couponRoutes.js:108-114 | a coupon stored with leading white space is never the one a quote names: creation does not trim, and the lookup does |
| Coupons.ApplyExample | routes/couponRoutes.js:130-141 | "save10" on a 500 cart against a 10 % coupon gives 50 off and 450 to pay |
| Coupons.NewCoupon | routes/couponRoutes.js:54-61 | the stored code is the upper-cased code, `usedCount` is 0, and a falsy `usageLimit` or `minPurchase` becomes 0 |
| Coupons.CouponDb.Create | routes/couponRoutes.js:31-64 | a falsy code, type, value or expiry date is refused; so is a code whose upper-cased form is stored; a type outside the enum or an expiry date that does not cast to a date fails the save with a 500; the create succeeds exactly when none of these applies, and then exactly the normalised coupon is appended; any refusal leaves the store unchanged; stored codes stay upper-case and unique |
| Coupons.CouponDb.Delete | routes/couponRoutes.js:83-95 | a key that is not an ObjectId is a 500 and an unknown id a 404, both with the store unchanged; the delete succeeds exactly when the key casts and a coupon has that id, and then that coupon is removed and returned, and nothing else changes |
| Coupons.RemovalKeepsValid | routes/couponRoutes.js:85 | removing one coupon keeps every stored code upper-case and codes and ids unique |
| Reviews.RatingsOf | controllers/reviewController.js:64 | a product's ratings are never more than the reviews |
| Reviews.Aggregate | controllers/reviewController.js:66-77 | `totalRatings` is the number of ratings; with none, the average is 0; otherwise average times count equals the sum |
| Reviews.AverageWithinScale | controllers/reviewController.js:66-69 | ratings on the schema's 1-5 scale give an average between 1 and 5 |
| Reviews.AggregateExample | controllers/reviewController.js:66-69 | ratings 5, 3 and 4 aggregate to 4 over 3 |
| Reviews.RemovalDropsOneRating | controllers/reviewController.js:62-64 | removing one review takes exactly its rating out of its product's ratings and leaves other products' ratings unchanged |
| Reviews.SetRatings | controllers/reviewController.js:71-80 | only the product with that id gets the new ratings; every other product is unchanged and ids stay unique |
| Reviews.IndexOfReview | controllers/reviewController.js:44 | `findById` finds a review whose id equals the key as text, and None means there is none |
| Reviews.ReviewDb.DeleteReview | controllers/reviewController.js:42-91 | an unparsable id is a 500 and an unknown one a 404, both with reviews and products unchanged; the delete succeeds exactly when the id casts and a review has it, and then that review is removed first, then its product is given the aggregate of the reviews that remain, and the response carries that product; the image deletion's outcome plays no part |
| Reviews.DeletionExcludesDeletedReview | controllers/reviewController.js:62-77 | after a deletion, `totalRatings` is one less than before, the sum drops by the deleted rating, and the average is the remaining sum over the remaining count |
| Reviews.DeletingLastReviewResets | controllers/reviewController.js:66-77 | deleting a product's only review resets its aggregate to 0 and 0 |
| ProductModel.NewProduct | models/Product.js:3-83 | a document with only its required fields carries the schema defaults: discount, discounted price and quantity 0, ratings 0/0, the placeholder image, and empty gallery, flavor, servings, weight and description; the brand, which has no default, is absent, written "" |
| ProductModel.DiscountedPrice | models/Product.js:88-90 | the result is `price - price * percent / 100` rounded to the nearest integer, halves up |
| ProductModel.PreSave | models/Product.js:86-95 | the save hook changes only `discountedPrice`: a positive discount gives the rounded discounted price, any other discount copies the price |
| ProductModel.DiscountWithin | models/Product.js:87-89 | taking a share of 0-100 % off a non-negative price leaves between 0 and the whole price |
| ProductModel.DiscountedPriceWithin | models/Product.js:87-89 | for a whole price, the rounded discounted price lies between 0 and the price |
| ProductModel.SavedPriceWithinPrice | models/Product.js:87-93 | for a whole non-negative price and a discount of 0-100, the saved discounted price lies between 0 and the price |
| ProductModel.SaveExample | models/Product.js:88-90 | price 1000 with a 10 % discount saves with discounted price 900 |
| ProductModel.NewProductSavesAtFullPrice | models/Product.js:91-93 | with the default discount of 0, a new product saves with discounted price equal to its price |
| ProductModel.Coalesce | models/Product.js:102-104 | `a ?? b` is `a` when defined, else `b` |
| ProductModel.PreUpdate | models/Product.js:98-112 | the update hook changes nothing but `discountedPrice` |
| ProductModel.UpdateWithBothSetsDiscountedPrice | models/Product.js:101-108 | an update carrying both price and discount gets their rounded discounted price |
| ProductModel.UpdateFallsBackToSetDiscount | models/Product.js:101-108 | price at top level and discount only under `$set`: the discount is taken from `$set` and the discounted price written |
| ProductModel.UpdateFallsBackToSetPrice | models/Product.js:101-108 | discount at top level and price only under `$set`: the price is taken from `$set` and the discounted price written |
| ProductModel.UpdateWithOneLeavesDiscountedPrice | models/Product.js:101-108 | an update carrying only one of them leaves the update untouched |
| ProductModel.UpdateOnlyUnderSetIsIgnored | models/Product.js:101 | an update naming neither at top level is not looked at, even when `$set` carries both |
| ProductModel.HooksAgree | models/Product.js:86-108 | for a whole price and a non-negative discount, the update hook writes the value the save hook would |
| ProductModel.HooksDisagreeOnNegativeDiscount | models/Product.js:87-107 | with a negative discount, the save hook keeps the price while the update hook raises it |
| ProductModel.IndexOfId | routes/ProductRoutes.js:143 | `findById` finds the first product whose `_id` equals the key as text, and None means there is none |
| ProductModel.IndexOfProductId | routes/ProductRoutes.js:146 | `findOne({ productId })` finds the first product with that external id, and None means there is none |
| Orders.MissingAmong | controllers/orderController.js:29-35 | the reported list is no longer than the checked list |
| Orders.MissingAmongMembers | controllers/orderController.js:29-35 | a field is reported exactly when it is checked and the request lacks it |
| Orders.MissingAmongAppend | controllers/orderController.js:29-35 | checking two lists one after the other reports each list's fields, in that order |
| Orders.Check | controllers/orderController.js:30-35 | one `if (...) push` appends the field exactly when it is missing |
| Orders.MissingFields | controllers/orderController.js:29-35 | the successive pushes build exactly the missing required fields, in the order name, email, phone, address, paymentMethod, cartItems |
| Orders.MissingRequired | controllers/orderController.js:29-35 | the check over all six fields is the six single-field checks, in order |
| Orders.OnlyPaymentMethodMissing | controllers/orderController.js:34-40 | a request lacking only its payment method reports exactly that field |
| Orders.Decrement | controllers/orderController.js:56-60 | `$inc` lowers the named product's quantity by the count, with no floor; every other product and every id is unchanged |
| Orders.StockAfterQuantities | controllers/orderController.js:54-70 | after the loop, each product's quantity is lowered by the total count of the applied items naming it (cumulative, possibly negative); nothing else changes and ids stay unique |
| Orders.UnorderedProductUnchanged | controllers/orderController.js:54-70 | a product no cart item names is left exactly as it was |
| Orders.OrderDb.CreateOrder | controllers/orderController.js:5-86 | no connection is a 500 before any validation; then any missing field is a 400 listing exactly those fields; then a cart item whose `productId` is not an ObjectId makes `save()` fail with a 500 (the order schema types it as a required ObjectId); in all three cases nothing is written; otherwise, and only then, the order is stored as submitted and the products end as the item-by-item decrements leave them, failing updates skipped |
| Wishlist.Without | routes/userRoute.js:98-100 | the filter never grows the list and leaves no entry for the product |
| Wishlist.WithoutAppend | routes/userRoute.js:98-100 | the filter distributes over concatenation, so survivors keep their order |
| Wishlist.WithoutShrinksIffListed | routes/userRoute.js:97-104 | the filter shrinks the list exactly when the product is listed, and otherwise returns it unchanged |
| Wishlist.WithoutKeepsOthers | routes/userRoute.js:98-100 | every entry not for the product survives, dangling ones included |
| Wishlist.Added | routes/userRoute.js:76-92 | the pushed reference, read back through `populate`, names the product exactly when it exists, and only then matches it |
| Wishlist.DanglingAddStaysUnlisted | routes/userRoute.js:85-92 | a dangling entry never counts as listed, so adding an id that names no product leaves it unlisted and a repeated add succeeds again |
| Wishlist.AddThenRemove | routes/userRoute.js:92-100 | removing an existing product just added gives back the original list |
| Wishlist.IndexOfEmail | routes/userRoute.js:76 | `findOne({ email })` finds the first user with that e-mail, and None means there is none |
| Wishlist.UserDb.UpdateWishlist | routes/userRoute.js:68-124 | a falsy input is a 400 and an unknown e-mail a 404; add refuses a listed product, otherwise appends one entry at the end, which refers to the product when it exists and dangles otherwise; remove refuses an unlisted product, otherwise drops every matching entry; any other action is a 400; every refusal leaves users unchanged; on success only that user's wishlist changes and is returned |
| Gallery.ExistingUrls | routes/ProductRoutes.js:324-327 | a truthy single value is a one-element list, an array is kept as is, and anything falsy is no list |
| Gallery.IndexOfUrl | routes/ProductRoutes.js:332 | `indexOf` gives the first position of the URL, or -1 exactly when it is absent |
| Gallery.KeptIds | routes/ProductRoutes.js:330-339 | there is one handle per kept URL, position by position |
| Gallery.UploadUrls | routes/ProductRoutes.js:343-352 | there is one URL per upload, in upload order |
| Gallery.UploadIds | routes/ProductRoutes.js:343-352 | there is one handle per upload, in upload order |
| Gallery.KeptIdFromOldGallery | routes/ProductRoutes.js:332-338 | a kept URL only takes over a truthy handle stored at that URL's position, and gets null exactly when the URL is not in the old gallery or its handle is missing or falsy |
| Gallery.MainImage | routes/ProductRoutes.js:355 | the main image is the first gallery entry when truthy, else the placeholder |
| Gallery.MainImageId | routes/ProductRoutes.js:356 | the main handle is the first handle when truthy, else null |
| Gallery.IdsToDelete | routes/ProductRoutes.js:365-369 | the deletion list is no longer than the old handles |
| Gallery.IdsToDeleteExactly | routes/ProductRoutes.js:367-369 | a handle is deleted exactly when it is truthy, was stored, and is not carried into the new gallery |
| Gallery.PresentIds | routes/ProductRoutes.js:428-437 | the handles sent on delete are no more than those stored |
| Gallery.PresentIdsExactly | routes/ProductRoutes.js:428-437 | a handle is sent on delete exactly when it is truthy and stored |
| Gallery.EmptyGalleryDeletesAll | routes/ProductRoutes.js:365-369 | an update that keeps no image deletes every stored handle, as deleting the product would |
| Gallery.KeptIdAtOwnPosition | routes/ProductRoutes.js:332-334 | with distinct gallery URLs, resubmitting the URL at position i keeps the stored handle at position i |
| Gallery.KeepAllKeepsIds | routes/ProductRoutes.js:324-369 | resubmitting the whole gallery (distinct URLs, all handles stored) keeps every handle in place and deletes nothing |
| ProductRoutes.CleanCategoryShape | routes/ProductRoutes.js:209 | the cleaned category equals trimming then lower-casing, has no upper-case letter and no surrounding white space |
| ProductRoutes.NewDocument | routes/ProductRoutes.js:232-252 | the saved document carries the given `_id` and `productId` |
| ProductRoutes.CreatedProductShape | routes/ProductRoutes.js:219-250 | gallery and handles are the uploads, side by side and of equal length; the main image and handle are the first of each, or the placeholder and null; the category is cleaned; a falsy discount is 0, and the discounted price then equals the price; ratings are 0/0 |
| ProductRoutes.LocateAsWritten | routes/ProductRoutes.js:143-154 | the route's lookup: a key that is not an ObjectId is a 500 before the `productId` fallback |
| ProductRoutes.Locate | routes/ProductRoutes.js:143-154 | the intended lookup: a hit matches the key by `_id` or `productId`; a miss is a 404, and (when every `_id` is an ObjectId) happens exactly when no product matches either way |
| ProductRoutes.LocatePrefersObjectId | routes/ProductRoutes.js:143-147 | an `_id` match wins over a `productId` match |
| ProductRoutes.LookupsAgreeOnObjectIds | routes/ProductRoutes.js:143-147 | both lookups agree on every ObjectId key |
| ProductRoutes.ProductIdFallbackUnreachable | routes/ProductRoutes.js:143-147 | a product asked for as `PROD-1` gets a 500 from the route's lookup but is found by the intended one |
| ProductRoutes.PriceOnlyUpdateKeepsDiscountedPrice | routes/ProductRoutes.js:358-384 | an update with a new price but no discount stores the price and leaves the old discounted price |
| ProductRoutes.FullPriceUpdateMatchesSave | routes/ProductRoutes.js:358-384 | an update with a whole price and a non-negative discount stores the discounted price a save would give |
| ProductRoutes.PushUploads | routes/ProductRoutes.js:219-230 | the loop appends each upload's URL and handle, in order, and keeps the two lists' length difference |
| ProductRoutes.KeepExisting | routes/ProductRoutes.js:330-339 | the loop keeps the URLs in the given order, each with the handle the old gallery stored for it, or null |
| ProductRoutes.AppendKeepsInvariants | routes/ProductRoutes.js:252 | adding a product with a fresh ObjectId and a free `productId` keeps both ids unique |
| ProductRoutes.RemovalKeepsInvariants | routes/ProductRoutes.js:414-418 | removing a product keeps both ids unique |
| ProductRoutes.Assemble | routes/ProductRoutes.js:219-252 | the upload loop, the document and the save hook give exactly the specified new document |
| ProductRoutes.ProductDb.Get | routes/ProductRoutes.js:141-161 | with the intended lookup (see ## Findings): a hit is a stored product matching the key by `_id` or `productId`; a miss happens exactly when nothing matches |
| ProductRoutes.ProductDb.Create | routes/ProductRoutes.js:178-263 | the guards run in order: required fields, positive price, non-empty cleaned category; the save succeeds exactly when they pass, the trimmed name is non-empty and the `productId` is free, and otherwise fails with a 500; on success exactly the specified document is appended; a failure leaves the store unchanged; ids stay unique |
| ProductRoutes.ProductDb.Insert | routes/ProductRoutes.js:252 | the document is appended and ids stay unique |
| ProductRoutes.ProductDb.Update | routes/ProductRoutes.js:305-405 | a non-ObjectId key is a 500 and an unknown one a 404, both with nothing written; otherwise the gallery is the kept URLs then the uploads, the handles are aligned with them, the old truthy handles not carried over are deleted, the fields are patched as the update hook prescribes, and only that product changes |
| ProductRoutes.ProductDb.Delete | routes/ProductRoutes.js:409-446 | with the intended lookup (see ## Findings): a miss is a 404 exactly when no product matches by `_id` or `productId`; otherwise the located product is removed and exactly its truthy handles are sent for deletion, in order |
| ProductRoutes.DeleteGalleryFiles | routes/ProductRoutes.js:428-438 | the handles sent for deletion are exactly the truthy gallery handles, in their stored order |
| Categories.FeaturedOnlyByTrue | controllers/categoryController.js:39 | only the string "true" and the boolean true make a category featured; "True", "1" and an absent value do not |
| Categories.CreatedOrder | controllers/categoryController.js:52 | a create stores a position exactly when the category is featured and a number is given |
| Categories.SafeSliderOrder | controllers/categoryController.js:97-101 | an update clears the position when not featured; when featured it takes the given number, or keeps the old position when none or "" is given |
| Categories.NewImage | controllers/categoryController.js:41-45 | an uploaded file's URL overrides the `image` form value |
| Categories.NewImageId | controllers/categoryController.js:38-45 | there is a new handle exactly when a file is uploaded, and it is that file's handle |
| Categories.NewCategory | controllers/categoryController.js:47-53 | a create stores the given name, the flag, the created position, the image or "", and the upload's handle |
| Categories.Merged | controllers/categoryController.js:119-126 | a falsy name keeps the old one; image and handle are replaced only by truthy new values; the flag is rewritten; the position follows the safe-position rule |
| Categories.EmptyUpdateKeepsCategory | controllers/categoryController.js:119-126 | an update sending only the stored flag leaves a consistent category unchanged |
| Categories.UnfeaturingClearsOrder | controllers/categoryController.js:97-101 | un-featuring always clears the position |
| Categories.WritesKeepOrderRule | controllers/categoryController.js:97-101 | both a create and an update leave a position only on featured categories |
| Categories.FeaturedOnly | controllers/categoryController.js:180 | the query returns only featured categories |
| Categories.FeaturedOnlyMembers | controllers/categoryController.js:180 | a category is returned exactly when it is stored and featured |
| Categories.InsertByOrderKeeps | controllers/categoryController.js:181 | inserting into a sorted listing keeps it sorted and adds exactly that category |
| Categories.SortByOrderCorrect | controllers/categoryController.js:181 | the sort yields an ascending permutation of its input, with null positions first |
| Categories.SliderListingCorrect | controllers/categoryController.js:178-190 | the slider listing is sorted by position and holds exactly the featured categories, each as often as stored |
| Categories.IndexOfCategory | controllers/categoryController.js:92 | `findById` finds a category whose id equals the key as text, and None means there is none |
| Categories.ReplacedImageId | controllers/categoryController.js:104-112 | the old handle is sent for deletion exactly when a file is uploaded and the old handle is truthy |
| Categories.ReplaceImage | controllers/categoryController.js:103-117 | an uploaded file replaces the image URL and handle; the old handle is sent for deletion exactly when a file arrives and the old handle is truthy |
| Categories.BuildUpdate | controllers/categoryController.js:97-126 | building and patching `updateData` yields exactly the merged category, and the deleted handle is the replaced one |
| Categories.CategoryDb.Create | controllers/categoryController.js:34-63 | exactly the new category is appended, and ids stay unique |
| Categories.CategoryDb.Update | controllers/categoryController.js:84-142 | a non-ObjectId id is a 500 and an unknown one a 404, both before any image deletion or write; otherwise only that category is replaced by the merged one, and the replaced handle is reported deleted |
| Categories.CategoryDb.Delete | controllers/categoryController.js:147-173 | a non-ObjectId id is a 500 and an unknown one a 404, both with nothing deleted; otherwise the category is removed and its truthy handle sent for deletion |
| Categories.DeletedCategoryGone | controllers/categoryController.js:164 | after a delete, no category with that id remains |
| RegisterAuth.LastIndexOfChar | middleware/registerAuth.js:20 | finds the last occurrence of the character, and None means there is none |
| RegisterAuth.ShapeOkGivesPattern | middleware/registerAuth.js:20-21 | the executable check accepts only addresses the pattern matches |
| RegisterAuth.PatternGivesShapeOk | middleware/registerAuth.js:20-21 | every way the pattern can match is accepted by the executable check |
| RegisterAuth.EmailShapeOkMeansPattern | middleware/registerAuth.js:20-21 | the executable check and the regular expression agree on every string |
| RegisterAuth.WellFormedExample | middleware/registerAuth.js:20 | "a@b.co" matches |
| RegisterAuth.OneLetterDomainExample | middleware/registerAuth.js:20 | "a@b.c" does not match: the top-level domain needs two letters |
| RegisterAuth.NoLocalPartExample | middleware/registerAuth.js:20 | "@b.co" does not match: the local part must be non-empty |
| RegisterAuth.DoubledAtExample | middleware/registerAuth.js:20 | "a@@b.co" does not match: `@` is not a domain character |
| RegisterAuth.NoDotExample | middleware/registerAuth.js:20 | "a@localhost" does not match: the domain needs a dot |
| RegisterAuth.MalformedExamples | middleware/registerAuth.js:20 | "@b.co", "a@@b.co" and "a@localhost" do not match |
| RegisterAuth.Check | middleware/registerAuth.js:3-37 | any falsy field is a 400; then a registered e-mail is a 409; then a mismatching e-mail is a 400 naming the user; then a password under 6 characters is a 400; the request proceeds exactly when all four guards pass |
| RegisterAuth.DuplicateCheckedFirst | middleware/registerAuth.js:13-18 | a registered e-mail gets the 409 whatever its format and password |
| AdminAuth.Split | middleware/auth.js:14 | `split` always yields at least one piece |
| AdminAuth.SplitPiecesHaveNoSeparator | middleware/auth.js:14 | no piece holds the separator |
| AdminAuth.JoinSplit | middleware/auth.js:14 | joining the pieces with the separator gives the header back |
| AdminAuth.FirstWord | middleware/auth.js:14 | the word is a space-free prefix ending at the first space or the end |
| AdminAuth.BearerPiece | middleware/auth.js:13-14 | behind `Bearer `, the second piece is the text up to the next space |
| AdminAuth.SelectToken | middleware/auth.js:10-15 | a truthy cookie wins; otherwise a header starting with `Bearer ` gives its second piece; otherwise there is no token |
| AdminAuth.Decide | middleware/auth.js:16-30 | no token is a 403, a failed verification a 401, and a non-admin claim a 403; the request passes exactly when the token verifies to admin claims, which are the result |
| AdminAuth.NoTokenNeverVerifies | middleware/auth.js:16 | without a token the outcome is the same for every verifier: verification is never attempted |
| AdminAuth.CookieTakesPrecedence | middleware/auth.js:11-12 | with a truthy cookie, the header does not matter |
| AdminAuth.OtherSchemeExamples | middleware/auth.js:13 | "Token abc" and "bearer abc" give no token |
| AdminAuth.BearerExample | middleware/auth.js:13-14 | "Bearer abc def" gives "abc" |
| AdminAuth.EmptyBearerExamples | middleware/auth.js:14-16 | "Bearer " and "Bearer  abc" give an empty token, which counts as none |
| AdminAuth.AdminRequest.VerifyAdmin | middleware/auth.js:8-31 | the result is the decision on the selected token; on success the claims are attached as `req.admin`; a denial leaves it unchanged |
| Seed.IdString | scripts/seedProducts.js:31 | `String(productId)` is non-empty, a text id unchanged, and a positive number all digits |
| Seed.FlavorList | scripts/seedProducts.js:36 | an array is kept, a non-empty string becomes a singleton, anything else no flavor |
| Seed.Normalize | scripts/seedProducts.js:30-38 | an entry carries the product's id string, name and price, its image or the placeholder, the enclosing category, its flavor list and its weight or "" |
| Seed.FromProducts | scripts/seedProducts.js:25-39 | a category gives no more entries than it lists products |
| Seed.FlattenLength | scripts/seedProducts.js:18-40 | the flat list is no longer than the number of catalogue products |
| Seed.FlattenAppend | scripts/seedProducts.js:20-40 | entries follow category order |
| Seed.FromProductsSound | scripts/seedProducts.js:25-28 | every entry of a category comes from one of its kept products |
| Seed.FromProductsComplete | scripts/seedProducts.js:25-39 | every kept product of a category gives an entry |
| Seed.FlattenSound | scripts/seedProducts.js:20-40 | every entry is a kept product of a category with a product list, normalised under that category |
| Seed.FlattenComplete | scripts/seedProducts.js:20-40 | every kept product of a category with a product list gives an entry |
| Seed.CategoryWithoutProducts | scripts/seedProducts.js:21-23 | a category without a product list contributes nothing |
| Seed.SeedExample | scripts/seedProducts.js:20-40 | a null price, a falsy id and a missing name are skipped; a price of 0 is kept; an empty flavor becomes none and a missing image the placeholder |
| Seed.SampleCategoryKeepsOne | scripts/seedProducts.js:25-39 | of a category listing a product without price, one with a falsy id, one without name and a valid one, only the valid one is pushed |
| Seed.SampleWhey | scripts/seedProducts.js:30-38 | a numeric id 12 becomes "12", a price of 0 is kept, an empty flavor becomes none and a missing image the placeholder |
| Seed.BuildFlatProducts | scripts/seedProducts.js:18-40 | the two nested loops build exactly the flattened catalogue |
| Seed.PushKept | scripts/seedProducts.js:20-39 | the inner loop appends exactly the kept products of one category, normalised, in the order listed |
| Seed.Document | scripts/seedProducts.js:49 | an inserted document carries the entry's fields and the schema defaults, including discounted price 0 |
| Seed.SeededPriceNotDerived | scripts/seedProducts.js:49 | a seeded product with a non-zero price lacks the discounted price a save would give it |
| Seed.Documents | scripts/seedProducts.js:49 | one document per entry, in order |
| Seed.SeedDb.Seed | scripts/seedProducts.js:10-61 | the collection is cleared first; an empty flat list stops the seed with the collection empty; otherwise the collection holds exactly one document per entry and their number is reported |

## Left out

- Image storage: uploads enter as their results (`Gallery.Upload`). Deletions are reported as the handles sent. Their failures are swallowed by the source and so have no effect. An upload that throws, which the source answers with a 500, is not modelled. Nor is a failing upload after a category's old image was already deleted.
- The multer configuration and error handlers, the Express and CORS wiring, and the Mongo connection lifecycle. The order handler's connection state is a field of `Orders.OrderDb`. The seed starts once connected, and its exit codes are not modelled.
- JWT verification and bcrypt: verification is a function parameter. The secret and token expiry belong to it.
- Case mapping and trimming cover ASCII only: letters `a-z`/`A-Z`, and the white space space, tab, LF, VT, FF and CR. Unicode case rules and white space are not modelled.
- RegisterAuth.Check: the password length is counted in characters, not UTF-16 code units.
- String-to-number coercion and NaN: numbers arrive already parsed. Hence `Number(discountPercent) || 0` is `OrZero`, and a non-numeric price cannot be expressed.
- The `productId` generated from the clock and a random number, and the `JSON.parse` of `flavor` and `servings`, are inputs.
- Reviews.Review: ratings are whole numbers. The schema's 1-5 bound is a hypothesis of `AverageWithinScale` and is not enforced on the collection.
- Reviews.ReviewDb.DeleteReview: the review's image handle is kept, but the request to delete it is not reported. Review creation (`createReview`) is not part of this model.
- Gallery.KeptIds, Gallery.MainImageId, Gallery.IdsToDelete, Gallery.PresentIds, ProductRoutes.ProductDb.Create, ProductRoutes.ProductDb.Update, ProductRoutes.ProductDb.Delete: products carry `imageId`/`galleryIds`, which the routes write, but models/Product.js declares neither field and the schema is strict by default, so Mongoose drops both on create and update. As the code runs, stored products have no handles, the update's deletion list and the delete loop send nothing, and the handle functions describe what the routes intend, not what is stored.
- Reviews.ReviewDb.DeleteReview: models/Review.js does not declare `imageId` either, so the review image deletion at controllers/reviewController.js:53-60 never runs as the code stands; the model keeps the handle as a field.
- ProductRoutes.ProductDb.Update: `runValidators` is not modelled. Of the other fields, only `brandName`, `price`, `discountPercent` and `category` are patched. `name`, `quantity`, `weight`, `flavor`, `servings` and `description` are left as stored.
- ProductRoutes.ProductDb.Update: the `findOneAndUpdate` fallback after a failed `findByIdAndUpdate` is not modelled. It can only matter if the product vanishes between the two queries.
- ProductRoutes.ProductDb.Create: the save can also fail on schema validation. Only an empty trimmed name and a taken `productId` are modelled.
- ProductRoutes.ProductDb.Get, ProductRoutes.ProductDb.Delete: model the intended lookup (`ProductRoutes.Locate`). As written, `findById` throws on a key that is not an ObjectId, including every generated `PROD-...` id and every seeded id, and the route answers 500 (`ProductRoutes.LocateAsWritten`, see ## Findings).
- ProductModel.PreUpdate: None stands for both `undefined` and `null`. A `null` price, which `!== undefined` lets through, is not distinguished.
- Categories.CategoryDb.Create: the Category schema (models/Category.js) is not part of this model. Its validation is absent, and the name is taken as a given string.
- Categories.CreatedOrder: an empty `sliderOrder` on a featured create is stored as null, which is how Mongoose casts "".
- Categories.SortByOrder: the database leaves the order of equal positions open. `SortByOrder` is one admissible order; only sortedness and the multiset of elements are promised.
- Categories.CategoryDb.Update: `findByIdAndUpdate` returning null after a successful `findById` needs a concurrent delete, and is not modelled.
- Wishlist.Entry: `populate` is abstracted to the referenced product's id, or null when the reference dangles; the existing products are a set of ids held by `UserDb`, fixed for the call. The re-read after saving returns the saved list, populated the same way.
- Wishlist.UserDb.UpdateWishlist: an added productId that is not a 24-hex-digit ObjectId is modelled as a dangling entry; saving it would presumably fail the cast with a 500, but the user schema (models/User.js) is not part of this model.
- Coupons.CouponDb.Delete: the id is matched as text, so a key spelling the stored ObjectId's hex digits in upper case is a 404, where `findByIdAndDelete` would delete the coupon. Other spellings of an ObjectId are not modelled.
- Reviews.IndexOfReview: ids are compared as text, so an upper-case-hex spelling of a stored id is a miss (a 404 in `DeleteReview`), where `findById` finds the review.
- ProductModel.IndexOfId: ids are compared as text, so an upper-case-hex key misses a stored product that `findById` finds; this reaches `ProductRoutes.ProductDb.Get`, `Update` and `Delete`.
- Categories.IndexOfCategory: ids are compared as text, so an upper-case-hex key misses a stored category that `findById` finds; `CategoryDb.Update` and `Delete` then answer 404.
- Orders.Decrement: the cart item's `productId` is compared with product ids as text, so an upper-case-hex id leaves the stock unchanged, where `findByIdAndUpdate` casts it and decrements the product.
- Wishlist.Added: membership in the existing product ids is tested as text, so an upper-case-hex id is modelled as dangling, where the cast and `populate` resolve it to the product.
- Seed.SeedDb.Seed: failures of `insertMany` (validation, the unique `productId` index) are not modelled.
- Query-only handlers are not modelled: listing coupons, reviews, products and categories, `/by-ids`, and the export and statistics routes.
- Concurrency: every handler runs alone, with no interleaving between its queries.

## Findings

| source | as written | input that shows it | evidently intended | confidence | as-written member | corrected member |
|---|---|---|---|---|---|---|
| routes/ProductRoutes.js:143-147 | `findById(key)` runs before the `productId` fallback; for a key that is not an ObjectId it throws a CastError, so the `catch` answers 500 and the fallback never runs. The same holds for DELETE (lines 414-418). | GET `/products/PROD-1` when a product has `productId` "PROD-1" | look up by `_id` only for ObjectId keys, and fall back to `productId` otherwise | not executed | ProductRoutes.ProductIdFallbackUnreachable | ProductRoutes.Locate |
