# Doomwear storefront core, modelled in Dafny

This project models the core of the Doomwear storefront: an Express and
Mongoose backend and a React client. It covers:

- **Order placement** (`POST /orders`): the product and stock check, the user
  and wallet check, the order snapshot and the order save. On status
  "success" it also decrements the stock and debits the wallet with a ledger
  entry, all in one commit. It also covers the owner-checked `GET /orders/:id`.
- **The two data schemas.** Product: trimmed and bounded names, non-negative
  price and stock, non-empty colour and size lists, and `#RRGGBB` colours.
  User: a wallet that defaults to 2000, a ledger of debit and credit entries,
  a trimmed and lowercased unique email, and a password that is re-hashed
  only when it changes.
- **The auth routes**: signup with duplicate check, login with one uniform
  failure answer, and `/me`. Also the bearer-token middleware.
- **The client pages**: card-number grouping and expiry formatting, the
  checkout schema and the status it posts (checkout page); the quantity
  stepper, image carousel, default picks, related products and "Buy Now"
  (product page); the password checklist and the signup schema (signup page).

Modules follow the source files:

| module | file | source |
|---|---|---|
| `Common` | common.dfy | the JavaScript string primitives the code relies on (`trim`, `\s`, `\d`, `toLowerCase`) |
| `ProductModel` | product_model.dfy | backend/src/models/product.model.ts |
| `UserModel` | user_model.dfy | backend/src/models/user.model.ts |
| `Store` | store.dfy | the three collections, the `Database` class and the invariant `Consistent` |
| `OrderRoutes` | order_routes.dfy | backend/src/routes/order.routes.ts |
| `AuthRoutes` | auth_routes.dfy | backend/src/routes/auth.routes.ts |
| `AuthMiddleware` | auth_middleware.dfy | backend/src/middleware/auth.middleware.ts |
| `ProductPage` | product_page.dfy | doomwear/src/pages/ProductPage.tsx |
| `CheckoutPage` | checkout_page.dfy | doomwear/src/pages/CheckoutPage.tsx |
| `SignupPage` | signup_page.dfy | doomwear/src/pages/SignupPage.tsx |

The handlers that change state are methods, and each is proved against a
pure specification function:

- `OrderRoutes.PlaceOrder` and `AuthRoutes.Signup`, module-level methods that
  take a `Store.Database` object and update its fields;
- `AuthMiddleware.Exchange.Guard`;
- the handlers of `ProductPage.ProductView` and `CheckoutPage.CheckoutForm`.

The properties are lemmas about those functions. The main one is
`Store.Consistent`, preserved by every placement and every signup:

- every wallet equals 2000 plus credits minus debits;
- stock is never negative;
- emails are normalized and unique;
- ids are fresh.

Three things are given to the model rather than computed:

- **bcrypt**: modelled by `UserModel.Secret`, where a digest remembers what
  it hashed. The salt is a parameter.
- **JWT verification**: an oracle parameter `verify`.
- **The library email checks**: an abstract `isEmail`.

The current month on the checkout page and the random draw of
`simulateTransaction` are parameters too.

`GET /orders/:id` answers 404 for a missing order before it compares the
owner (backend/src/routes/order.routes.ts:145-153), and the model keeps that
order. A caller who does not own an order can therefore tell a missing order
from someone else's.

## Model

| member | source | states |
|---|---|---|
| OrderRoutes.PlaceOrder | backend/src/routes/order.routes.ts:31-126 | the database after one request, and the answer, are exactly `Place` of the state before; the database stays `Valid` (consistent) |
| OrderRoutes.CommitOrder | backend/src/routes/order.routes.ts:69-113 | a NaN total aborts with 500; otherwise the order is built and saved under a fresh id whatever the status; a "success" also writes the decremented product and the debited user, or aborts with 500 if a save fails |
| OrderRoutes.SettleOrder | backend/src/routes/order.routes.ts:86-113 | on a "success", the product with its stock reduced and the user with the purchase debited are both written along with the order, or nothing is written and the answer is a server error when either save fails |
| OrderRoutes.PlaceUnknownIds | backend/src/routes/order.routes.ts:40-58 | an unknown product is a 404 before the user is looked up, an unknown user a 404 after the stock check; neither writes anything; 404 happens exactly in these two cases |
| OrderRoutes.PlaceInsufficientInventory | backend/src/routes/order.routes.ts:46-52 | a 400 carrying the current stock happens exactly when the stock is below the quantity, and writes nothing; a quantity equal to the stock passes |
| OrderRoutes.PlaceInsufficientBalance | backend/src/routes/order.routes.ts:60-67 | a 400 carrying balance and required amount happens exactly when the wallet is below the total, and writes nothing; a wallet equal to the total passes and ends at 0 on success |
| OrderRoutes.PlaceFailureWritesNothing | backend/src/routes/order.routes.ts:40-67 | every answer other than 201 or 200 leaves the whole state unchanged |
| OrderRoutes.PlaceSnapshot | backend/src/routes/order.routes.ts:69-84 | a recorded order has a fresh id, the caller as owner, name and price from the stored product, colour, size, quantity and image from the request, the requested total and status |
| OrderRoutes.PlaceSuccess | backend/src/routes/order.routes.ts:86-126 | a passing "success" gives 201: stock minus quantity (still at least 0), wallet minus total (still at least 0), one debit "Purchase of <name>" for the new order appended after the unchanged ledger, exactly one order saved, and the response carries the new stock and balance |
| OrderRoutes.PlaceNonSuccess | backend/src/routes/order.routes.ts:98-112 | any other status still passes the same checks first, then records exactly one order with that status, answers 200 and leaves every product and user unchanged |
| OrderRoutes.PlaceServerErrorOnlyForNaN | backend/src/routes/order.routes.ts:127-133 | on a consistent store a 500 comes only from a total that is not a number: a success's product and user saves never fail validation |
| OrderRoutes.PlacePreservesConsistency | backend/src/routes/order.routes.ts:86-103 | one placement keeps the store consistent: stock at least 0, wallets balanced against their ledgers, emails unique, ids fresh |
| OrderRoutes.RunPreservesConsistency | backend/src/routes/order.routes.ts:86-96 | from a consistent store, any sequence of placements keeps wallet = 2000 + credits - debits for every user and every stock at least 0 |
| OrderRoutes.FailedStatusesNeverMutate | backend/src/routes/order.routes.ts:105-112 | any sequence of non-"success" placements changes no product and no user |
| OrderRoutes.GetOrder | backend/src/routes/order.routes.ts:141-155 | 404 exactly when the order is missing, 403 exactly when it belongs to someone else, otherwise the stored order unchanged |
| OrderRoutes.PlacedOrderIsReadable | backend/src/routes/order.routes.ts:98-155 | the owner can read back, unchanged, the order a placement recorded |
| OrderRoutes.PurchaseEntryValid | backend/src/routes/order.routes.ts:89-96 | the ledger entry of a purchase is a debit whose description is never empty, so the user schema accepts it |
| ProductModel.Save | backend/src/models/product.model.ts:3-80 | a save succeeds exactly when the trimmed document meets every constraint, and stores the trimmed document |
| ProductModel.FirstInvalidPath | backend/src/models/product.model.ts:5-75 | a failing path is reported exactly when some constraint fails: name 1..100 and description 1..2000 characters after trimming, price at least 0, originalPrice at least 0 when present, a non-empty colour list with `#RRGGBB` values, non-empty names and non-empty colour classes, a non-empty size list, and stock at least 0 |
| ProductModel.Normalize | backend/src/models/product.model.ts:8-50 | the name, the description and each colour's name and class become their trims; price, original price, images, highlights, sizes, tags, inventory and each colour's hex value are left as they are |
| ProductModel.NormalizeIsNormalized | backend/src/models/product.model.ts:8-50 | the `trim` setters' output has no white space at either end of any trimmed field |
| ProductModel.NormalizeOfNormalized | backend/src/models/product.model.ts:8-50 | the setters leave an already trimmed document unchanged, so they are idempotent |
| ProductModel.ReserveStillSaves | backend/src/models/product.model.ts:71-75 | a stored product whose stock drops by at most its stock still saves, unchanged |
| ProductModel.NegativeInventoryRejected | backend/src/models/product.model.ts:71-75 | a save that would make the stock negative is rejected |
| UserModel.ParseKind | backend/src/models/user.model.ts:27-31 | a ledger type is accepted exactly when it is "debit" or "credit" |
| UserModel.KindRoundTrip | backend/src/models/user.model.ts:27-31 | each entry type's name parses back to that type |
| UserModel.NewUser | backend/src/models/user.model.ts:46-72 | a new document defaults to wallet 2000 and an empty ledger, and runs the name and email setters |
| UserModel.NewUserIsBalanced | backend/src/models/user.model.ts:64-72 | a defaulted new user's wallet agrees with its (empty) ledger |
| UserModel.NormalizeEmailIdempotent | backend/src/models/user.model.ts:52-58 | trimming and lowercasing a stored email changes nothing, so a query with the stored value finds it |
| UserModel.PreSave | backend/src/models/user.model.ts:77-89 | the password is replaced by its digest under the drawn salt exactly when the password path was modified; nothing else about the user changes |
| UserModel.SaveUser | backend/src/models/user.model.ts:46-89 | a save succeeds exactly when name and email are non-empty, the password is at least 6 long and every entry has a description; the stored document is the one the hook produced |
| UserModel.PasswordSurvivesLedgerSave | backend/src/models/user.model.ts:77-93 | a save that does not modify the password, such as the order route's debit, keeps the hash, so the old password still matches |
| UserModel.NetAppend | backend/src/models/user.model.ts:22-35 | appending an entry changes the ledger's net effect by that entry's signed amount |
| UserModel.DebitKeepsBalance | backend/src/models/user.model.ts:64-72 | a wallet debit with its matching debit entry keeps wallet = 2000 + credits - debits |
| AuthRoutes.SignupErrors | backend/src/routes/auth.routes.ts:14-23 | the name is reported exactly when blank after trimming, the email exactly when `isEmail` refuses it, the password exactly when shorter than 6 |
| AuthRoutes.Signup | backend/src/routes/auth.routes.ts:18-49 | the database after a signup, and the answer, are exactly `SignUp` of the state before; the database stays consistent |
| AuthRoutes.RegisterUser | backend/src/routes/auth.routes.ts:33-49 | the insert that follows the checks: the new user is saved under the next fresh id, or, when the save is rejected, nothing is written and the answer is a server error |
| AuthRoutes.RegisterOutcome | backend/src/routes/auth.routes.ts:33-49 | the insert succeeds exactly when the trimmed name, the normalized email and the password of at least six characters all pass the schema; the stored user is then the registrant with the hashed password |
| AuthRoutes.SaveSignupDocument | backend/src/models/user.model.ts:46-89 | the signup document saves exactly when the schema accepts its trimmed name, its normalized email and a password of six or more characters, and is then stored with the password hashed |
| AuthRoutes.FindByEmail | backend/src/routes/auth.routes.ts:28 | finds nothing exactly when no stored user has the normalized email, and otherwise a stored user with that email |
| AuthRoutes.SignupRejections | backend/src/routes/auth.routes.ts:20-31 | a rejected request is answered with its failing fields before any read, and a taken email with its own answer; nothing is written unless a user is registered |
| AuthRoutes.SignupSuccess | backend/src/routes/auth.routes.ts:33-45 | a valid signup with an unused email inserts exactly one user under a fresh id: trimmed name, normalized email, hashed password, wallet 2000, empty ledger; nothing else changes and the password matches the hash |
| AuthRoutes.SignupServerErrorOnlyForBlankEmail | backend/src/routes/auth.routes.ts:46-49 | a validated request with an unused email fails with 500 exactly when the email is blank once trimmed |
| AuthRoutes.SignupOutcome | backend/src/routes/auth.routes.ts:28-34 | signup either writes nothing, or adds one stored user under the fresh id whose normalized email no other user has |
| AuthRoutes.SignupPreservesConsistency | backend/src/routes/auth.routes.ts:28-34 | signup keeps the store consistent: emails stay unique and normalized, and wallets stay balanced |
| AuthRoutes.LoginErrors | backend/src/routes/auth.routes.ts:53-61 | the email is reported exactly when `isEmail` refuses it, the password exactly when it is empty, and the name never; the request is well formed exactly when nothing is reported |
| AuthRoutes.Login | backend/src/routes/auth.routes.ts:56-91 | a malformed request is rejected with exactly the fields its validators report; a success names a stored user with that normalized email whose hash matches; the store is an argument and is never changed |
| AuthRoutes.LoginIffCredentials | backend/src/routes/auth.routes.ts:67-75 | with unique emails, a well-formed login succeeds exactly when some user holds the email and the password matches; an unknown email and a wrong password get the same `InvalidCredentials` |
| AuthRoutes.SignupThenLogin | backend/src/routes/auth.routes.ts:28-75 | the user just registered logs in with the email as typed and the password chosen |
| AuthRoutes.Me | backend/src/routes/auth.routes.ts:93-99 | 404 exactly when the id is unknown; otherwise name, email, wallet and ledger of that user, without the password |
| AuthRoutes.SignupThenMe | backend/src/routes/auth.routes.ts:33-99 | right after signup the new user's profile shows wallet 2000 and an empty ledger |
| AuthMiddleware.Split | backend/src/middleware/auth.middleware.ts:15 | splitting on single spaces gives at least one piece and no piece holds a space |
| AuthMiddleware.JoinSplit | backend/src/middleware/auth.middleware.ts:15 | joining the pieces with single spaces gives the header back |
| AuthMiddleware.SplitFirst | backend/src/middleware/auth.middleware.ts:15 | the first piece is the text before the first space (or all of it), and there is one piece exactly when there is no space |
| AuthMiddleware.Token | backend/src/middleware/auth.middleware.ts:11-15 | the token of a "Bearer " header is the first space-free piece after the prefix, and holds no space |
| AuthMiddleware.TokenExamples | backend/src/middleware/auth.middleware.ts:15 | "Bearer abc" carries "abc"; "Bearer  abc" carries the empty token |
| AuthMiddleware.Authenticate | backend/src/middleware/auth.middleware.ts:8-26 | "No token" exactly when the header is missing, empty or lacks the case-sensitive "Bearer " prefix; "Token is not valid" exactly when the prefix is there and verification fails; otherwise the decoded user id |
| AuthMiddleware.Exchange.Guard | backend/src/middleware/auth.middleware.ts:8-26 | on success sets the request's user id and calls `next` once; on failure sends 401 with the message and calls nothing |
| ProductPage.ProductView.HandleQuantityChange | doomwear/src/pages/ProductPage.tsx:73-78 | a change is applied exactly when the result stays within 1..10, otherwise the quantity is unchanged; 1 <= quantity <= 10 is kept |
| ProductPage.CarouselWraps | doomwear/src/pages/ProductPage.tsx:136-155 | with n images, next of i is (i + 1) mod n, previous is n - 1 at 0 and i - 1 otherwise, and each undoes the other |
| ProductPage.CarouselWithoutImages | doomwear/src/pages/ProductPage.tsx:136-155 | with no images the right arrow turns any index from -1 up into NaN, NaN stays NaN, and the left arrow at 0 gives -1 |
| ProductPage.JsRem | doomwear/src/pages/ProductPage.tsx:150 | JavaScript `%`: NaN exactly for a zero divisor, the mathematical remainder for a non-negative dividend, and a value with the dividend's sign otherwise |
| ProductPage.ProductView.ShowNext | doomwear/src/pages/ProductPage.tsx:146-155 | the right arrow sets the index to the next image of the shown product, and nothing else changes |
| ProductPage.ProductView.ShowPrevious | doomwear/src/pages/ProductPage.tsx:136-145 | the left arrow sets the index to the previous image of the shown product, and nothing else changes |
| ProductPage.ProductView.SelectImage | doomwear/src/pages/ProductPage.tsx:159-167 | a thumbnail shows its own image, and nothing else changes |
| ProductPage.Others | doomwear/src/pages/ProductPage.tsx:52 | the catalog without the active product: every other listing is kept as often as it occurs, in catalog order, and no kept entry is the active one |
| ProductPage.RelatedProducts | doomwear/src/pages/ProductPage.tsx:52 | the first six of the other products in catalog order, or all of them when there are fewer than six |
| ProductPage.FindListing | doomwear/src/pages/ProductPage.tsx:51 | the position of the first product with the active id, or -1 exactly when there is none |
| ProductPage.Find | doomwear/src/pages/ProductPage.tsx:51 | no product exactly when none has the active id; otherwise the first that has it |
| ProductPage.ProductView.SyncActiveProduct | doomwear/src/pages/ProductPage.tsx:45-49 | with products loaded and none active, the first product's id becomes active; otherwise nothing changes |
| ProductPage.ProductView.SyncSelection | doomwear/src/pages/ProductPage.tsx:62-67 | a shown product sets the colour to the first colour's name and the size to the second size, or "" when missing |
| ProductPage.DefaultsOffered | doomwear/src/pages/ProductPage.tsx:62-67 | on a stored product the default colour is offered and found at index 0; a single-size product starts with no size, otherwise with `sizes[1]` |
| ProductPage.FindColor | doomwear/src/pages/ProductPage.tsx:96 | the index of the first colour with that name, or -1 exactly when none has it |
| ProductPage.ProductView.SelectColor | doomwear/src/pages/ProductPage.tsx:226-229 | a swatch selects its colour and moves the carousel to the swatch's own position in `colors` |
| ProductPage.ProductView.SelectSize | doomwear/src/pages/ProductPage.tsx:251-253 | the radio group selects one of the product's sizes, and nothing else changes |
| ProductPage.ProductView.SelectRelated | doomwear/src/pages/ProductPage.tsx:382-388 | a related card makes its product active and a product with that id is shown; the active id always changes, and quantity, picks and image index carry over |
| ProductPage.ImageFor | doomwear/src/pages/ProductPage.tsx:96 | the recorded image is present exactly when the selected colour is found at a position that has an image, and is that image |
| ProductPage.PickedColorImage | doomwear/src/pages/ProductPage.tsx:96 | with distinct colour names, the image recorded for the colour at position k is image k, the one the swatch showed |
| ProductPage.ProductView.BuyNow | doomwear/src/pages/ProductPage.tsx:80-106 | without a session it goes to login and saves nothing; otherwise it saves the shown product's id, name and price, the selected colour's image, the picks and subtotal = quantity × price |
| CheckoutPage.FormatKeepsContent | doomwear/src/pages/CheckoutPage.tsx:218-223 | for any input, removing the spaces from the formatted number gives the input with its spaces removed |
| CheckoutPage.GroupStrip | doomwear/src/pages/CheckoutPage.tsx:221 | the `(\d{4})` replacement only inserts spaces |
| CheckoutPage.FormatIdempotent | doomwear/src/pages/CheckoutPage.tsx:218-223 | formatting a formatted number changes nothing |
| CheckoutPage.GroupOfDigits | doomwear/src/pages/CheckoutPage.tsx:221 | on digits the replacement is groups of four with one space after each full group |
| CheckoutPage.SpacedLayout | doomwear/src/pages/CheckoutPage.tsx:218-223 | in the grouped layout, position i is a space exactly when i mod 5 = 4, and otherwise holds digit i - i/5; its length is n + (n - 1)/4 |
| CheckoutPage.FormatOfDigits | doomwear/src/pages/CheckoutPage.tsx:218-223 | on digits the formatted number is the grouped layout: one space between consecutive groups of four and none at either end; 16 digits give 19 characters and at most 16 give at most 19, the input's `maxLength` |
| CheckoutPage.CheckoutForm.HandleCardNumberChange | doomwear/src/pages/CheckoutPage.tsx:225-232 | with white space removed, at most 16 digits become the form value and the input shows them formatted; anything else changes nothing; the card value stays at most 16 digits |
| CheckoutPage.FormatExpiry | doomwear/src/pages/CheckoutPage.tsx:234-241 | with at most two digits typed the value is exactly those digits; with more, it is one character longer than the digits kept (at most four) and has its slash in third place |
| CheckoutPage.FormatExpiryLayout | doomwear/src/pages/CheckoutPage.tsx:234-241 | only digits are kept and digits past the fourth are dropped; a slash sits at position 2 exactly when more than two digits were typed; every other character is a digit; the result is at most 5 long; it matches `MM/YY` exactly when four digits were typed and the first two form a month |
| CheckoutPage.FormatExpiryIdempotent | doomwear/src/pages/CheckoutPage.tsx:234-241 | handing the formatted text back to the handler gives the same text |
| CheckoutPage.CheckoutForm.HandleExpiryDateChange | doomwear/src/pages/CheckoutPage.tsx:234-241 | the input text and the form value both become the formatted entry, whose digits are the first four typed and which matches `MM/YY` exactly when four digits were typed with a month first; the card fields are unchanged |
| CheckoutPage.ContactErrors | doomwear/src/pages/CheckoutPage.tsx:45-61 | each contact field is reported exactly when its rule fails: email, first and last name at least 2, address at least 5, city and state at least 2, PIN exactly 6 digits |
| CheckoutPage.PaymentErrors | doomwear/src/pages/CheckoutPage.tsx:62-78 | the card is reported exactly when it is not 16 digits, the CVV when not 3 digits, and the expiry when it is not `MM/YY` with a month 01..12 or when the refine as written (`>`) finds the first instant of the printed month not later than now |
| CheckoutPage.CheckoutErrors | doomwear/src/pages/CheckoutPage.tsx:45-80 | the form is accepted exactly when every field rule holds, with the expiry refine as written |
| CheckoutPage.ShownCardReenters | doomwear/src/pages/CheckoutPage.tsx:218-232 | the text the card input shows, handed back to the handler, gives the same form value and the same text; the form value passes the schema's 16-digit rule exactly when the input shows 19 characters |
| CheckoutPage.ExpiredInOwnMonth | doomwear/src/pages/CheckoutPage.tsx:70-77 | the expiry check as written accepts exactly the months before the printed one: "10/26" is refused in October 2026 |
| CheckoutPage.NotExpiredThroughMonth | doomwear/src/pages/CheckoutPage.tsx:70-77 | the corrected check accepts up to and including the printed month and refuses from the next month on |
| CheckoutPage.ExpiryChecksDiffer | doomwear/src/pages/CheckoutPage.tsx:70-77 | every expiry the check as written accepts the corrected one accepts too, and they disagree exactly on a card in its own printed month |
| CheckoutPage.ChooseStatus | doomwear/src/pages/CheckoutPage.tsx:150-153 | a status other than "random" is sent as selected; any of the four buttons yields one of success, declined or error |
| CheckoutPage.OrderPayload | doomwear/src/pages/CheckoutPage.tsx:155-178 | the posted body carries the form's contact fields with the full name as first and last name joined by a space, the product id, colour, size, quantity and image of the saved selection unchanged (an absent image stays absent), and the given status, total and order number |
| CheckoutPage.PayloadCarriesSelectedStatus | doomwear/src/pages/CheckoutPage.tsx:150-178 | with a selected status other than "random", the posted order's status is the selected one |
| CheckoutPage.FailedCheckoutMovesNothing | doomwear/src/pages/CheckoutPage.tsx:150-178 | a checkout posted with "declined" or "error" leaves every stock and wallet on the server unchanged |
| SignupPage.ChecklistAsWrittenImpliesRules | doomwear/src/pages/SignupPage.tsx:20-35 | a password with all four checklist entries ticked, as written, passes the schema's password rules |
| SignupPage.ChecklistMissesSeparatedPassword | doomwear/src/pages/SignupPage.tsx:20-35 | "Abcdefg" + U+2028 + "1" passes the schema but the checklist as written leaves "At least 8 characters" unticked |
| SignupPage.ChecklistMatchesRules | doomwear/src/pages/SignupPage.tsx:20-35 | with the length entry counting characters, all four entries are ticked exactly when the schema accepts the password |
| SignupPage.SignupFormErrors | doomwear/src/pages/SignupPage.tsx:27-40 | the name is reported exactly when shorter than 2, the email when refused, the password exactly when it lacks 8 characters, a lowercase, an uppercase or a digit, and `confirmPassword` exactly when it differs from the password |
| SignupPage.AcceptedFormPassesServerRules | doomwear/src/pages/SignupPage.tsx:27-40 | a form the client accepts passes the server's password rule (at least 6); its email passes the server's email check provided every address the client's check accepts the server's accepts too, the two being different library checks |
| SignupPage.BlankNameReachesServer | doomwear/src/pages/SignupPage.tsx:28 | a name of two blanks passes the client's rule but is refused by the server, which trims first |

## Left out

- E-mail notification after the commit is not modelled. This includes a failed send that rethrows into the catch after the commit; committed state stays committed.
- MongoDB sessions and concurrent requests are not modelled. Requests run one at a time, and a commit writes the local copies back all at once.
- JWT signing and verification, bcrypt hashing and comparison, and the library email validators are oracles or abstract functions.
- Floating-point arithmetic is not modelled: the client's tax (`Math.round(subtotal * 0.18)`), `toFixed(2)` and the discount percentage. Money is an integer. The posted total is the number the server reads, or NaN.
- A quantity that is not a number is not modelled; quantities are integers.
- A malformed product id that makes the ObjectId cast throw (a 500) is not modelled; ids are opaque naturals.
- `toLowerCase` is modelled on ASCII letters only. String lengths count characters, not UTF-16 code units.
- The email setters are assumed to run on `findOne({ email })` queries, as Mongoose query casting does.
- The order schema file is not part of this model. The order document has the shape the route builds, and a NaN total fails its save.
- `required` on array paths is taken not to require a non-empty array. Only the explicit colour and size validators do.
- React rendering, routing, cookies and local storage are not modelled. The checklist's colouring is not modelled either: with an empty password nothing is ticked, which agrees with every requirement failing on "".
- The text the card input shows after a refused change, or after React re-renders with the raw form value, is not modelled. Only the value each handler writes is.
- A missing image (a selected colour with no image at its position) is carried as absent from "Buy Now" through the posted order to the stored order line, as JSON drops an `undefined` property; what the order schema would do with it is not modelled.
- `simulateTransaction`'s random draw and `new Date()` are parameters. The 2-second and 1.5-second delays are not modelled.
- AuthMiddleware.Authenticate: a verified token without a `userId` claim gives an undefined user id (`None`). The routes are then given no id; this is not modelled further.
- `createdAt` and `timestamps` defaults are not modelled.

## Findings

| source | as written | input that shows it | evidently intended | confidence | as-written member | corrected member |
|---|---|---|---|---|---|---|
| doomwear/src/pages/CheckoutPage.tsx:70-77 | the card counts as expired once the first instant of its printed month has passed (`new Date(2000 + yy, mm - 1) > new Date()`) | expiry "10/26" entered in October 2026 is refused with "Card has expired." | a card is valid through the end of its printed month | medium, not executed | CheckoutPage.ExpiredInOwnMonth | CheckoutPage.NotExpiredThroughMonth |
| doomwear/src/pages/SignupPage.tsx:21 | the "At least 8 characters" entry tests `/.{8,}/`, whose `.` does not match line terminators | "Abcdefg" + U+2028 + "1" passes the schema's `.min(8)` but the entry stays unticked | the entry ticks exactly when the password has at least 8 characters, as its label says and as the schema checks | low, not executed | SignupPage.ChecklistMissesSeparatedPassword | SignupPage.ChecklistMatchesRules |
