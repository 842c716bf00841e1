# AutoAssist in Dafny

AutoAssist is a car-service platform. Its backend keeps one ledger of
customer transactions: quotation requests, towing requests and shop orders.
Each transaction has a detail row: a quotation, a towing request, or a shop
order with its order items. Around the ledger sit the catalogue and account
tables: products, workshops, users, administrators, vehicles and
notification settings.

A mobile app lets a user do four things:

- fill a cart and check it out;
- ask for a quotation report;
- request a tow;
- manage their profile, vehicles and notification switches.

An admin page lists quotation transactions and edits them.

This project models the following as pure Dafny functions over an immutable
`Store` of tables, and proves what they promise:

- the request handlers of those tables;
- the database rules their writes meet: the ENUM and DECIMAL columns,
  NOT NULL, UNIQUE, and the foreign keys with their CASCADE, SET NULL and
  RESTRICT actions;
- the client-side state logic of the app's root component and of its
  shop, quotation, towing and profile screens;
- the title parsing and form logic of the admin quotation page.

Modules:

| module | file | models |
|---|---|---|
| `Wrappers` | wrappers.dfy | `Option` and `Result` |
| `Js` | js.dfy | JavaScript value rules the handlers lean on: `undefined`/`null`/truthiness of body fields, `\|\|` and `??`, `trim`, ASCII `toLowerCase`, `String(n)`, `parseInt` |
| `Seqs` | seqs.dfy | `Array.prototype.filter` and its algebra |
| `TxIds` | txids.dfy | the `TX` + four-digit transaction ids |
| `Schema` | schema.dfy | the tables, their enumerations, money columns, the bcrypt digest, the store invariants and the row deletions with their foreign-key actions |
| `Ledger` | ledger.dfy | the transactions controller: create, towing request, quotation, checkout, update, delete, get by id, list; and the generic create of server.ts |
| `Products` | products.dfy | the products controller with its `workshop_id` normaliser |
| `Uploads` | uploads.dfy | the stored name of an uploaded image and the upload file filter |
| `Workshops` | workshops.dfy | the workshops controller and the image-directory listing |
| `Users` | users.dfy | the users controller: create/register, login, profile update, delete |
| `Admins` | admins.dfy | the admin controller: login, create, update, delete |
| `Vehicles` | vehicles.dfy | the vehicles controller |
| `Notifications` | notifications.dfy | the notification-settings controller |
| `App` | app.dfy | the mobile root: cart, unread-quotation badge, tab navigation |
| `Shop` | shop.dfy | the shop screen: search, total, checkout button, order history |
| `QuotationForm` | quotation_form.dfy | the quotation screen: tiers, photos, submit, read marks |
| `TowingForm` | towing_form.dfy | the towing screen |
| `ProfileForm` | profile_form.dfy | the profile screen: switches, vehicle list, profile save |
| `AdminQuotations` | admin_quotations.dfy | the admin quotation page: title regex, edit form, payload |

Inputs the handlers take from outside are explicit parameters:

- the random draw of a transaction id;
- today's date and the database clock;
- auto-increment ids;
- bcrypt salts;
- directory listings;
- the server's answer to a client request.

Each `*Valid` lemma states that a successful write keeps every store
invariant of `Schema.Valid`:

- detail rows belong to ledger rows;
- workshop, user and product references resolve;
- order items belong to orders;
- emails are unique.

## Model

| member | source | states |
|---|---|---|
| Js.TextOrNull | backend/src/controllers/transactionsController.ts:239 | `x \|\| null` on a text field gives a value exactly when the field is truthy, and then the field's own non-empty text |
| Js.TextOr | backend/src/controllers/transactionsController.ts:247 | `x \|\| default` gives the field when truthy and the default otherwise |
| Js.IntOrNull | backend/src/controllers/transactionsController.ts:239 | `userId \|\| null` keeps an id exactly when it is present and non-zero |
| Js.Lower | mobile/screens/ShopScreen.tsx:59-61 | ASCII `toLowerCase` keeps the length and lower-cases each capital letter alone |
| Js.TrimStart | backend/src/controllers/usersController.ts:118 | the left half of `trim`: a suffix of the input that starts with a non-white character, all dropped characters white |
| Js.TrimEnd | backend/src/controllers/usersController.ts:118 | the right half of `trim`: a prefix ending in a non-white character, all dropped characters white |
| Js.TrimIsTrimmed | backend/src/controllers/usersController.ts:118 | `trim` leaves no white space at either end |
| Js.TrimEmptyIffAllWhite | backend/src/controllers/usersController.ts:118 | `password.trim() !== ''` holds exactly when some character is not white space |
| Js.DecimalString | backend/src/controllers/transactionsController.ts:82 | `String(n)` is a non-empty digit string with no leading zero |
| Js.DigitRun | backend/src/controllers/productsController.ts:69-102 | the digit prefix `parseInt` reads is maximal |
| Js.ParseInt | backend/src/controllers/productsController.ts:69-102 | `parseInt` yields NaN exactly when no digits follow the sign, an infinity (not an integer) exactly when the magnitude is at least 2^1024 - 2^970, and otherwise an integer within the double range, never a fraction |
| Js.DecimalRoundTrip | backend/src/controllers/transactionsController.ts:82 | the positional value of `String(n)` is n |
| Js.ParseDecimal | backend/src/controllers/transactionsController.ts:12-23 | `parseInt(String(n))` is n under either radix rule, or an infinity once n is past the double range |
| Js.ParseDigitString | backend/src/controllers/productsController.ts:69-102 | a non-empty digit string parses to its positional value, or to an infinity past the double range |
| Js.DigitsValueBound | backend/src/controllers/transactionsController.ts:82 | k digits denote a number below 10^k |
| Js.DecimalLength | backend/src/controllers/transactionsController.ts:82 | a number below 10^k renders in at most k characters |
| Js.ZeroValueAllZeros | backend/src/controllers/transactionsController.ts:82 | a digit string of value 0 is all zeros |
| Js.LeadingZerosValue | backend/src/controllers/transactionsController.ts:82 | `padStart` zeros do not change a digit string's value |
| Js.DecimalInjective | backend/src/controllers/transactionsController.ts:82 | distinct numbers render as distinct strings |
| Seqs.Filter | mobile/App.tsx:195-197 | `filter` keeps exactly the accepted elements, drawn from the input |
| Seqs.FilterConcat | mobile/App.tsx:195-197 | `filter` distributes over concatenation, so order is kept |
| Seqs.FilterAll | mobile/App.tsx:195-197 | nothing is dropped when every element is accepted |
| Seqs.FilterNone | mobile/App.tsx:195-197 | everything is dropped when no element is accepted |
| Seqs.FilterIdempotent | mobile/screens/ShopScreen.tsx:59-61 | filtering twice by one predicate equals filtering once |
| Seqs.FilterAgree | mobile/screens/ShopScreen.tsx:59-61 | predicates that agree on the elements filter alike |
| TxIds.PadStart | backend/src/controllers/transactionsController.ts:82 | `padStart` reaches the width with pad characters in front and keeps the string as its suffix |
| TxIds.ParseTransactionId | backend/src/controllers/transactionsController.ts:82 | the number read back from an id is below 10000 |
| TxIds.Pad4Digits | backend/src/controllers/transactionsController.ts:82 | four-place padding of n < 10000 is four digits of value n |
| TxIds.IdShape | backend/src/controllers/transactionsController.ts:82 | every id is six characters: `TX` and four digits |
| TxIds.IdRoundTrip | backend/src/controllers/transactionsController.ts:82 | the digits of an id parse back to the number drawn |
| TxIds.PaddedCanonical | backend/src/controllers/transactionsController.ts:82 | a digit string is the padding of its own value's rendering |
| TxIds.PaddedOf | backend/src/controllers/transactionsController.ts:82 | padding the rendering of a digit string's value to its length gives back the string |
| TxIds.DigitsDetermined | backend/src/controllers/transactionsController.ts:82 | equal-length digit strings of equal value are equal |
| TxIds.IdParseInverse | backend/src/controllers/transactionsController.ts:82 | every string of the id shape is the id of the number it parses to |
| TxIds.IdInjective | backend/src/controllers/transactionsController.ts:82 | distinct draws give distinct ids, so a key clash means the same number was drawn |
| Schema.ParseTxType | server/database.ts:57 | a string is stored in `transactions.type` exactly when it names a member of the ENUM |
| Schema.ParseStatus | server/database.ts:61 | a string is stored in a `status` column exactly when it names a member of the ENUM |
| Schema.ParseQuoteType | server/database.ts:133 | a string is stored in `quote_type` exactly when it is `brief` or `detailed` |
| Schema.EnumNamesRoundTrip | server/database.ts:57-61 | each enumeration value reads back as itself from its stored name |
| Schema.MoneyColumn | server/database.ts:60 | a DECIMAL(10,2) NOT NULL column takes a present amount that fits and refuses null |
| Schema.Hash | backend/src/controllers/usersController.ts:118-122 | a bcrypt digest accepts the password it was made from |
| Schema.VerifyExactly | backend/src/controllers/adminController.ts:36-42 | a digest accepts its password and no other |
| Schema.AddQuotationValid | server/database.ts:140-142 | a ledger row added with its quotation row under the same id keeps every invariant |
| Schema.AddTowingValid | server/database.ts:185-187 | a ledger row added with its towing row under the same id keeps every invariant |
| Schema.DeleteTxRows | server/database.ts:140 | deleting a ledger row cascades to exactly its quotation, towing and shop-order rows and to that order's items; every other row of every table is untouched |
| Schema.DeleteTxRowsValid | server/database.ts:223 | the cascade keeps every invariant |
| Schema.DeleteTxKeepsOrders | server/database.ts:244 | after the cascade every item list still belongs to an order |
| Schema.DeleteWorkshopRow | server/database.ts:142 | a workshop some quotation, towing request or order names cannot be deleted (RESTRICT); otherwise exactly that row goes and every other row of every table stays as it was |
| Schema.DeleteWorkshopRowValid | server/database.ts:187 | an allowed workshop deletion keeps every invariant |
| Schema.DeleteProductRow | server/database.ts:245 | an ordered product cannot be deleted; otherwise exactly that row and its cart lines go, the remaining rows keep their values, and every other table is untouched |
| Schema.DeleteProductRowValid | server/database.ts:205 | an allowed product deletion keeps every invariant |
| Schema.DeleteUserRow | server/database.ts:100 | deleting a user cascades to exactly its vehicles, settings and cart lines; its quotation, towing and order rows stay with the user column set to null and nothing else changed; every other table is untouched |
| Schema.DeleteUserRowValid | server/database.ts:141 | the user deletion keeps every invariant |
| Schema.DeleteUserKeepsWorkshops | server/database.ts:186 | nulling user references keeps every workshop reference |
| Schema.DeleteUserKeepsOrders | server/database.ts:224 | nulling user references keeps orders keyed |
| Ledger.InsertLedger | backend/src/controllers/transactionsController.ts:86-89 | an insert fails with a duplicate key exactly when the id is taken; otherwise it adds that row alone |
| Ledger.CreateTransaction | backend/src/controllers/transactionsController.ts:76-89 | 400 exactly when type or title is falsy or amount is undefined; success exactly when the type is in the ENUM, the amount fits and the drawn id is free; the row carries the body, `pending`, today and `userId \|\| null` |
| Ledger.ServerCreateTransaction | server/server.ts:42-57 | the server.ts variant succeeds on the same inputs but writes no user |
| Ledger.CreateTowingRequest | backend/src/controllers/transactionsController.ts:184-206 | 400 exactly when a required field is missing; on success a Towing row titled `Towing to <workshop> from <pickup> to <destination>` and its towing row under the same id |
| Ledger.CreateTowingRequestValid | backend/src/controllers/transactionsController.ts:184-206 | a successful towing request keeps every invariant |
| Ledger.ImagesColumn | backend/src/controllers/transactionsController.ts:243 | images are stored only when a non-empty list was sent, and then unchanged |
| Ledger.CreateQuotation | backend/src/controllers/transactionsController.ts:220-247 | missing vehicle fields give 400, then a falsy workshop id gives 400; on success a Quotation row titled `<type> Quote: <model>` and a quotation row with `quote_type` defaulting to brief, null description when empty, and no admin message |
| Ledger.CreateQuotationValid | backend/src/controllers/transactionsController.ts:220-247 | a successful quotation keeps every invariant |
| Ledger.Interpolate | backend/src/controllers/transactionsController.ts:277 | `${x}` of a present text is the text |
| Ledger.CheckoutTitleForms | backend/src/controllers/transactionsController.ts:277 | one line reads `1 Item Order at`, more read `<n> Items Order at` |
| Ledger.Snapshot | backend/src/controllers/transactionsController.ts:294-303 | an order item copies the line's product, name, price and quantity, with subtotal price × quantity |
| Ledger.Snapshots | backend/src/controllers/transactionsController.ts:294-303 | one order item per cart line, in cart order |
| Ledger.FirstItemFault | backend/src/controllers/transactionsController.ts:294-303 | no item insert fails exactly when every item is insertable |
| Ledger.ClearCart | backend/src/controllers/transactionsController.ts:306-308 | clearing removes exactly the user's cart lines and keeps the rest unchanged |
| Ledger.Checkout | backend/src/controllers/transactionsController.ts:262-308 | an empty or missing cart or an undefined total gives 400, then a missing workshop id gives 400; on success a Shop row with the plural title, the order, one snapshot per line, and the user's cart cleared only when a user id was sent |
| Ledger.CheckoutValid | backend/src/controllers/transactionsController.ts:262-308 | a successful checkout keeps every invariant |
| Ledger.AddOrderKeepsKeys | server/database.ts:244 | a new order with its items keeps orders keyed |
| Ledger.SetColumn | backend/src/controllers/transactionsController.ts:116-135 | `SET col = ?` keeps a missing field, writes a present one, and a null is refused by NOT NULL |
| Ledger.SetEnum | backend/src/controllers/transactionsController.ts:116-135 | an ENUM column takes only a listed name |
| Ledger.PatchTx | backend/src/controllers/transactionsController.ts:116-135 | the patch succeeds exactly when every sent value is acceptable; each sent field replaces its column, others and the user are kept |
| Ledger.PatchIdempotent | backend/src/controllers/transactionsController.ts:116-135 | applying an accepted patch twice equals once |
| Ledger.UpdateTransaction | backend/src/controllers/transactionsController.ts:104-148 | 404 for an unknown id, then 400 when no field is sent; otherwise only that ledger row changes |
| Ledger.DeleteTransaction | backend/src/controllers/transactionsController.ts:164-171 | 404 exactly for an unknown id; otherwise the store after the row's cascade, with every other row kept |
| Ledger.DeleteTransactionValid | backend/src/controllers/transactionsController.ts:164-171 | a deletion keeps every invariant |
| Ledger.GetTransactionById | backend/src/controllers/transactionsController.ts:51-61 | 404 exactly for an unknown id; the view carries the row and the quotation columns exactly when a quotation row exists |
| Ledger.UserCondition | backend/src/controllers/transactionsController.ts:12-23 | a `userId` filter is applied exactly when given and fails exactly when `parseInt` gives NaN or an infinity |
| Ledger.InsertNewest | backend/src/controllers/transactionsController.ts:25 | inserting into a newest-first list keeps it sorted and adds exactly that entry |
| Ledger.HeadNoOlder | backend/src/controllers/transactionsController.ts:25 | the head of a sorted list stays first in front of what is inserted behind it |
| Ledger.GetAllTransactions | backend/src/controllers/transactionsController.ts:6-32 | the listing holds each selected entry once and nothing else, ordered by date then creation time, newest first |
| Ledger.UnfilteredSelectsAll | server/server.ts:31-39 | with no filters every row is listed |
| Products.NormalizeWorkshopId | backend/src/controllers/productsController.ts:69-102 | missing, null or "" clears; a positive integer that names no workshop is 400; it is stored exactly when it names one; anything else becomes null |
| Products.NormalizeExisting | backend/src/controllers/productsController.ts:69-102 | an existing workshop id, as a number or its decimal string, is stored unchanged; a decimal string past the double range is stored as null |
| Products.NormalizeReadsPrefix | backend/src/controllers/productsController.ts:69-102 | `parseInt` reads a leading digit run, so "7abc" names workshop 7; a run past the double range gives null |
| Products.NormalizeOverflowIsNull | backend/src/controllers/productsController.ts:69-102 | a decimal `workshop_id` past the double range parses to an infinity, which `Number.isInteger` refuses, so null is stored whatever workshops exist |
| Products.ParseDigitsThenTail | backend/src/controllers/productsController.ts:69-102 | digits followed by a non-digit parse to the digits' value, or to an infinity past the double range |
| Products.PrefixRun | backend/src/controllers/productsController.ts:69-102 | the digit run of digits and a non-digit tail ends at the tail |
| Products.CreateProduct | backend/src/controllers/productsController.ts:58-107 | 400 on missing fields or an unknown workshop; on success the product is stored under the new id with the normalised workshop |
| Products.UpdateProduct | backend/src/controllers/productsController.ts:144-263 | 404 for an unknown id, 400 for an unknown workshop, 400 when nothing is sent; otherwise each sent column replaces the old value |
| Products.DeleteProduct | backend/src/controllers/productsController.ts:375-382 | 404 for an unknown id; a product in an order is refused by its foreign key; otherwise exactly the row and its cart lines go and every other table is untouched |
| Products.DeleteProductValid | backend/src/controllers/productsController.ts:375-382 | an allowed deletion keeps every invariant |
| Uploads.LastDot | backend/src/controllers/productsController.ts:415-421 | the index of the last '.', or -1 |
| Uploads.ExtName | backend/src/controllers/productsController.ts:415-421 | `path.extname` is a dot-led suffix with no other dot, empty for a leading-dot-only name |
| Uploads.Stem | backend/src/controllers/productsController.ts:415-421 | stem and extension concatenate back to the name |
| Uploads.Sanitize | backend/src/controllers/productsController.ts:415-421 | the result has one code unit per UTF-16 code unit of the input, and every one is an ASCII letter, digit or '-' |
| Js.Utf16Length | backend/src/controllers/productsController.ts:419 | a string's JavaScript `length` lies between its character count and twice that, and equals the character count exactly when every character is in the Basic Multilingual Plane |
| Js.Utf16LengthAppend | backend/src/controllers/productsController.ts:419 | the UTF-16 length of a concatenation is the sum of the lengths |
| Uploads.SanitizeChar | backend/src/controllers/productsController.ts:419 | an ASCII letter or digit stays; any other character becomes one '-' per UTF-16 code unit |
| Uploads.SanitizeAppend | backend/src/controllers/productsController.ts:419 | the replacement distributes over concatenation |
| Uploads.SanitizeAt | backend/src/controllers/productsController.ts:419 | the code units standing for character i are exactly that character's replacement |
| Uploads.SanitizeBmp | backend/src/controllers/productsController.ts:419 | within the Basic Multilingual Plane each character other than an ASCII letter or digit becomes one '-', position for position |
| Uploads.SanitizeAstral | backend/src/controllers/productsController.ts:419 | an emoji, one character but two code units, becomes "--" |
| Uploads.UploadKeepsExtension | backend/src/controllers/productsController.ts:415-421 | the stored name has the original's extension and no other |
| Uploads.UploadStemIsSafe | backend/src/controllers/productsController.ts:415-421 | before its extension a stored name holds only letters, digits and '-' |
| Uploads.FilterAcceptsAllowed | backend/src/controllers/productsController.ts:424-434 | a name whose lower-case extension holds an allowed word passes with a matching MIME type |
| Uploads.FilterRefusesBareName | backend/src/controllers/productsController.ts:424-434 | a name with no extension is refused whatever its MIME type |
| Uploads.LowerExtension | backend/src/controllers/productsController.ts:424-434 | the lower-cased extension of `stem.tail` is `.tail` for a lower-case tail |
| Uploads.ContainsWithin | backend/src/controllers/productsController.ts:424-434 | an unanchored pattern finds a word anywhere inside the text |
| Workshops.CreateWorkshop | backend/src/controllers/workshopsController.ts:45-53 | 400 unless name, location and icon are truthy and rating is sent; a null rating is refused by NOT NULL; an empty image stores null |
| Workshops.UpdateWorkshop | backend/src/controllers/workshopsController.ts:71-107 | 404 for an unknown id, 400 when nothing is sent; each sent column replaces the old value |
| Workshops.UpdateWorkshopIdempotent | backend/src/controllers/workshopsController.ts:82-101 | the same patch twice equals once |
| Workshops.DeleteWorkshop | backend/src/controllers/workshopsController.ts:130-137 | 404 for an unknown id; a workshop in use is refused; otherwise exactly that row goes and the other workshops keep their values |
| Workshops.DeleteWorkshopValid | backend/src/controllers/workshopsController.ts:130-137 | an allowed deletion keeps every invariant |
| Workshops.ImageFiles | backend/src/controllers/workshopsController.ts:177-188 | exactly the listing's image files, each described by its own name |
| Workshops.Describes | backend/src/controllers/workshopsController.ts:177-188 | one description per file, in order |
| Workshops.ImageFilesAppend | backend/src/controllers/workshopsController.ts:177-188 | the filter keeps listing order: it distributes over concatenation |
| Workshops.DescribesConcat | backend/src/controllers/workshopsController.ts:177-188 | describing distributes over concatenation |
| Workshops.AvailableImages | backend/src/controllers/workshopsController.ts:153-188 | the image files of the first candidate directory that exists, or nothing when none does |
| Workshops.FirstListing | backend/src/controllers/workshopsController.ts:153-172 | the listing of the first directory that exists, or nothing |
| Workshops.FirstFoundTail | backend/src/controllers/workshopsController.ts:153-172 | past a missing first directory the search continues with the rest |
| Users.CreateUser | backend/src/controllers/usersController.ts:45-72 | 400 on a missing field, 400 when the email exists; on success the user with a digest of the password, and the view has no password |
| Users.CreateUserValid | backend/src/controllers/usersController.ts:45-72 | creating a user keeps emails unique and every invariant |
| Users.FindByEmail | backend/src/controllers/usersController.ts:176 | finds a user exactly when one has the email |
| Users.Login | backend/src/controllers/usersController.ts:169-197 | 400 on a missing field; success exactly for a known email with its password, answering that user's view; any other failure is 401 |
| Users.LoginAfterCreate | backend/src/controllers/usersController.ts:208-237 | a newly registered account logs in with its password |
| Users.UpdateUser | backend/src/controllers/usersController.ts:86-122 | 400, 404, then 400 on an email another user holds; name and email set, phone only when sent, the digest replaced only when the password is not blank |
| Users.BlankPasswordKeepsDigest | backend/src/controllers/usersController.ts:118-122 | a blank password leaves the digest as it was |
| Users.RehashedPasswordLogsIn | backend/src/controllers/usersController.ts:118-122 | after a rehash the new password logs in and a different old one does not |
| Users.UpdateUserValid | backend/src/controllers/usersController.ts:86-122 | a profile update keeps emails unique and every invariant |
| Users.DeleteUser | backend/src/controllers/usersController.ts:149-156 | 404 exactly for an unknown id; otherwise the user row goes with its cascades, and its quotation rows stay with the user set to null |
| Users.DeleteUserValid | backend/src/controllers/usersController.ts:149-156 | deleting a user keeps every invariant |
| Admins.FindByEmail | backend/src/controllers/adminController.ts:18 | finds an admin exactly when one has the email |
| Admins.AdminLogin | backend/src/controllers/adminController.ts:11-48 | 400 on a missing field, 401 for an unknown email, 403 for an inactive account, 401 for a wrong password; success writes `last_login` and answers with the row as it was read, so with the previous login time and without the password |
| Admins.CreateAdmin | backend/src/controllers/adminController.ts:94-121 | 400 on a missing field or an existing email; a new account is active, never logged in, with role defaulting to admin |
| Admins.CreateAdminValid | backend/src/controllers/adminController.ts:94-121 | creating an admin keeps every invariant |
| Admins.LoginAfterCreate | backend/src/controllers/adminController.ts:94-121 | a new admin logs in at once with its password |
| Admins.UpdateAdmin | backend/src/controllers/adminController.ts:135-176 | 400, 404, then 400 on an email another admin holds; role and active flag set when sent, a null refused; password rehashed only when not blank |
| Admins.DeactivationLocksOut | backend/src/controllers/adminController.ts:166-169 | a deactivated admin is refused login with any password |
| Admins.UpdateAdminValid | backend/src/controllers/adminController.ts:135-176 | an admin update keeps every invariant |
| Admins.DeleteAdmin | backend/src/controllers/adminController.ts:203-210 | 404 exactly for an unknown id; otherwise exactly that admin goes and the other admins keep their values |
| Vehicles.GetVehicle | backend/src/controllers/vehiclesController.ts:27-36 | found exactly when the vehicle belongs to the user, else 404; a found vehicle is answered with every column of its row |
| Vehicles.CreateVehicle | backend/src/controllers/vehiclesController.ts:50-58 | 400 on a missing field; an unknown user is refused by the foreign key; an empty plate stores null |
| Vehicles.UpdateVehicle | backend/src/controllers/vehiclesController.ts:79-100 | 400 on a missing field, 404 unless owned; all five columns are replaced |
| Vehicles.DeleteVehicle | backend/src/controllers/vehiclesController.ts:120-131 | deletes exactly an owned vehicle, else 404 |
| Vehicles.InsertNewest | backend/src/controllers/vehiclesController.ts:10-13 | inserting keeps the list newest first and adds exactly that row |
| Vehicles.HeadNewest | backend/src/controllers/vehiclesController.ts:10-13 | the head of a sorted list stays first in front of what is inserted behind it |
| Vehicles.GetUserVehicles | backend/src/controllers/vehiclesController.ts:10-13 | exactly the user's vehicles, each once, newest first |
| Notifications.GetSettings | backend/src/controllers/notificationsController.ts:10-27 | the stored row, or the column defaults when there is none |
| Notifications.Written | backend/src/controllers/notificationsController.ts:49 | each field `??` its default |
| Notifications.UpdateSettings | backend/src/controllers/notificationsController.ts:40-57 | the upsert succeeds exactly for a user with a row or an existing user and writes only that row |
| Notifications.UpdateIdempotent | backend/src/controllers/notificationsController.ts:40-57 | sending the same body twice equals once |
| Notifications.GetAfterUpdate | backend/src/controllers/notificationsController.ts:59-64 | a read after the upsert returns what was written |
| App.Bump | mobile/App.tsx:183-193 | one more of the product's line, in place, every other line unchanged |
| App.AddToCart | mobile/App.tsx:183-193 | a product in the cart is bumped in place, a new one appended with quantity 1; unique lines stay unique |
| App.RemoveFromCart | mobile/App.tsx:195-197 | the product's lines are gone, all other lines stay, unique lines stay unique |
| App.FilterKeepsUnique | mobile/App.tsx:195-197 | filtering keeps product ids unique |
| App.RemoveKeepsOrder | mobile/App.tsx:195-197 | removal distributes over concatenation |
| App.RemoveUndoesAdd | mobile/App.tsx:183-197 | removing a newly added product gives back the cart |
| App.CountAppend | mobile/App.tsx:199 | appending a line adds its quantity to the count |
| App.AddCountsOne | mobile/App.tsx:183-199 | every add raises the badge count by exactly one |
| App.Unread | mobile/App.tsx:167-174 | exactly the quotation rows whose id is not marked read |
| App.UnreadCountStep | mobile/App.tsx:167-174 | a new row raises the badge by one exactly when it is an unread quotation |
| App.AllReadNoBadge | mobile/App.tsx:167-174 | when every quotation id is read the badge is zero |
| App.ScreenName | mobile/App.tsx:46-60 | the screen is the tab key with its first letter capitalised |
| App.ScreenNamesDistinct | mobile/App.tsx:46-60 | different tabs lead to different screens |
| App.NavigateToTab | mobile/App.tsx:46-60 | with a navigator the tab's screen opens and the tab becomes active; without one nothing changes |
| Shop.FilteredProducts | mobile/screens/ShopScreen.tsx:59-61 | exactly the loaded products whose name contains the search, ignoring ASCII case |
| Shop.EmptySearchKeepsAll | mobile/screens/ShopScreen.tsx:59-61 | an empty search shows every product in order |
| Shop.SearchIgnoresCase | mobile/screens/ShopScreen.tsx:59-61 | a search and its lower-case form show the same list |
| Shop.NarrowingSearch | mobile/screens/ShopScreen.tsx:59-61 | filtering the shown list again by the same search changes nothing |
| Shop.TotalAppend | mobile/screens/ShopScreen.tsx:63-68 | a new line adds price × quantity to the total |
| Shop.AddRaisesTotal | mobile/screens/ShopScreen.tsx:63-68 | an add raises the total by the price of the product's line |
| Shop.NotInCartPrice | mobile/screens/ShopScreen.tsx:63-68 | a product not in the cart adds its own price |
| Shop.SessionUserId | mobile/screens/ShopScreen.tsx:101-102 | `user?.id \|\| null` sends the id exactly when a user is signed in with a non-zero id |
| Shop.Checkout | mobile/screens/ShopScreen.tsx:89-106 | no workshop refuses, then an empty cart refuses; otherwise the cart, workshop, total and the session's user id (null without a session or for id 0) are sent |
| Shop.CartAfterCheckout | mobile/screens/ShopScreen.tsx:104 | the cart is emptied exactly when a request was sent and accepted |
| Shop.AsLines | backend/src/controllers/transactionsController.ts:294-303 | each cart item is read as the backend's line, in order |
| Shop.TotalMatchesOrderItems | backend/src/controllers/transactionsController.ts:294-303 | the total the screen sends equals the sum of the subtotals the backend stores |
| Shop.SentPassesServerChecks | backend/src/controllers/transactionsController.ts:262-272 | a request the screen sends passes the backend's 400 checks |
| Shop.ShopHistory | mobile/screens/ShopScreen.tsx:118-119 | exactly the Shop rows of the ledger |
| QuotationForm.MaxLength | mobile/screens/QuotationScreen.tsx:40 | 100 characters for brief, 300 for detailed |
| QuotationForm.MaxPhotos | mobile/screens/QuotationScreen.tsx:44 | 3 photos for brief, 6 for detailed |
| QuotationForm.Price | mobile/screens/QuotationScreen.tsx:128 | a brief report costs 5, a detailed one 15 |
| QuotationForm.Label | mobile/screens/QuotationScreen.tsx:119 | the type sent is the capitalised form of the stored quote type |
| QuotationForm.SelectTier | mobile/screens/QuotationScreen.tsx:39-48 | changing tier cuts the description and the photos to the tier's limits, keeping their prefixes |
| QuotationForm.SelectTierKeepsWhatFits | mobile/screens/QuotationScreen.tsx:39-48 | nothing is cut when the state already fits |
| QuotationForm.RoundTripThroughDetailed | mobile/screens/QuotationScreen.tsx:39-48 | brief to detailed and back equals going to brief directly |
| QuotationForm.DataUrls | mobile/screens/QuotationScreen.tsx:69 | each picked asset becomes a JPEG data URL of its payload |
| QuotationForm.PickImage | mobile/screens/QuotationScreen.tsx:50-73 | at the limit the alert names the limit; otherwise the picked images are appended and cut to the limit |
| QuotationForm.RemoveImage | mobile/screens/QuotationScreen.tsx:83-85 | removes exactly the image at the index, keeping order; an out-of-range index changes nothing |
| QuotationForm.ActionsKeepLimits | mobile/screens/QuotationScreen.tsx:50-85 | photo and text actions keep a state within its limits |
| QuotationForm.EditDescription | mobile/screens/QuotationScreen.tsx:407-412 | a text within the limit replaces the description; a longer one is ignored |
| QuotationForm.Submit | mobile/screens/QuotationScreen.tsx:106-134 | no workshop refuses, then missing vehicle fields refuse; otherwise the request carries every form field, the tier label, tier price, images and the session's user id |
| QuotationForm.AfterSubmit | mobile/screens/QuotationScreen.tsx:133-134 | an accepted request clears the form and photos and keeps the tier |
| QuotationForm.SentPassesServerChecks | backend/src/controllers/transactionsController.ts:220-247 | a request the screen sends passes the backend's 400 checks |
| QuotationForm.MarkRead | mobile/screens/QuotationScreen.tsx:149-151 | opening the index marks every non-empty quotation id read and nothing else |
| QuotationForm.OpeningIndexClearsBadge | mobile/screens/QuotationScreen.tsx:223-225 | after opening the index the badge is zero when no id is empty |
| QuotationForm.EmptyIdStaysUnread | mobile/screens/QuotationScreen.tsx:149-151 | a quotation with an empty id keeps counting as unread |
| TowingForm.Initial | mobile/screens/TowingScreen.tsx:32-36 | the destination starts as the selected workshop's name |
| TowingForm.SelectWorkshop | mobile/screens/TowingScreen.tsx:32-36 | selecting a workshop sets the destination to its name and keeps the pickup |
| TowingForm.Estimate | mobile/screens/TowingScreen.tsx:57-60 | no estimate while both places are empty; otherwise the fixed rate |
| TowingForm.Request | mobile/screens/TowingScreen.tsx:134-158 | no workshop refuses, then an empty pickup refuses; otherwise the request for the workshop, places, estimate and the session's user id is sent |
| TowingForm.SentAtFixedRate | mobile/screens/TowingScreen.tsx:57-60 | every request sent is priced at the fixed rate |
| TowingForm.AfterRequest | mobile/screens/TowingScreen.tsx:157-158 | an accepted request clears the pickup and resets the destination to the workshop |
| TowingForm.SentPassesServerChecks | backend/src/controllers/transactionsController.ts:184-206 | a request the screen sends passes the backend's 400 check |
| ProfileForm.Toggle | mobile/screens/ProfileScreen.tsx:115-125 | without a user nothing happens; otherwise only the toggled switch changes and all six are sent |
| ProfileForm.InitialMatchesServerDefaults | mobile/screens/ProfileScreen.tsx:28-35 | the switches the screen starts with are the server's defaults |
| ProfileForm.ToggleSyncsServer | mobile/screens/ProfileScreen.tsx:115-125 | after the toggle's update the server reads back what the screen shows |
| ProfileForm.SaveRefusal | mobile/screens/ProfileScreen.tsx:145-154 | no user refuses, then a missing required field refuses |
| ProfileForm.FilledFormAccepted | backend/src/controllers/vehiclesController.ts:50-58 | a form the screen lets through passes the backend's check, and an empty plate is stored null |
| ProfileForm.ReplaceById | mobile/screens/ProfileScreen.tsx:161 | the vehicle with the id is replaced in place, others kept |
| ProfileForm.ApplySaved | mobile/screens/ProfileScreen.tsx:158-166 | an edit replaces in place, an add appends |
| ProfileForm.DeleteById | mobile/screens/ProfileScreen.tsx:216-218 | exactly the vehicles with another id remain |
| ProfileForm.DeleteKeepsOrder | mobile/screens/ProfileScreen.tsx:216-218 | deletion distributes over concatenation |
| ProfileForm.DeleteUndoesAdd | mobile/screens/ProfileScreen.tsx:158-218 | deleting a newly added vehicle gives back the list |
| ProfileForm.EditKeepsIds | mobile/screens/ProfileScreen.tsx:158-166 | an edit keeping the id keeps the list of ids |
| ProfileForm.EditForm | mobile/screens/ProfileScreen.tsx:188-197 | the form shows the vehicle's fields, with a missing plate empty |
| ProfileForm.EditFormRoundTrip | mobile/screens/ProfileScreen.tsx:188-197 | an unchanged edit sends back the vehicle's own plate |
| ProfileForm.SaveVehicle | mobile/screens/ProfileScreen.tsx:145-180 | a refusal or failed call changes nothing; a save updates the list and resets the form |
| ProfileForm.Payload | mobile/screens/ProfileScreen.tsx:245-251 | name and email always; the phone only when non-empty; the password only when not blank |
| ProfileForm.PasswordSentIffRehashed | mobile/screens/ProfileScreen.tsx:251 | the screen sends a password exactly when the handler would rehash it |
| ProfileForm.ClearedPhoneKept | mobile/screens/ProfileScreen.tsx:250 | clearing the phone field keeps the stored phone |
| ProfileForm.FromUser | mobile/screens/ProfileScreen.tsx:49-55 | the inputs are filled from the user, a missing phone shown empty |
| ProfileForm.UnchangedSaveIsNoop | mobile/screens/ProfileScreen.tsx:238-255 | saving the profile unchanged leaves the stored user as it was |
| AdminQuotations.WhiteRun | admin/src/pages/QuotationTransactions.tsx:87 | the maximal run of `\s` at the start |
| AdminQuotations.LineEnd | admin/src/pages/QuotationTransactions.tsx:87 | where `.+` stops: the first line terminator or the end |
| AdminQuotations.CaptureStart | admin/src/pages/QuotationTransactions.tsx:87 | where backtracking `\s*` leaves a non-empty `.+` to start |
| AdminQuotations.Capture | admin/src/pages/QuotationTransactions.tsx:87 | the captured model is non-empty and on one line |
| AdminQuotations.Keyword | admin/src/pages/QuotationTransactions.tsx:87 | `(Brief\|Detailed)` under the `i` flag |
| AdminQuotations.AfterKeyword | admin/src/pages/QuotationTransactions.tsx:87 | `\s+Quote:` needs at least one white character then the literal |
| AdminQuotations.MatchHere | admin/src/pages/QuotationTransactions.tsx:87 | a match at a position starts with the keyword it reports |
| AdminQuotations.FirstMatch | admin/src/pages/QuotationTransactions.tsx:87 | the unanchored search returns the match at the leftmost position where the pattern matches: no earlier position matches; none when no position matches |
| AdminQuotations.ParseTitle | admin/src/pages/QuotationTransactions.tsx:84-92 | the quote type is brief or detailed and the model trimmed; no title or no match gives empty and brief |
| AdminQuotations.KeywordAtStart | admin/src/pages/QuotationTransactions.tsx:136-137 | a built title's label matches only its own keyword |
| AdminQuotations.MatchesBuiltTitle | admin/src/pages/QuotationTransactions.tsx:87 | the pattern matches a built title at its start, capturing the model |
| AdminQuotations.TitleRoundTrip | admin/src/pages/QuotationTransactions.tsx:84-92 | parsing a built title gives back its model and quote type |
| AdminQuotations.FirstLineOnly | admin/src/pages/QuotationTransactions.tsx:87 | a model spanning lines reads back only its first line |
| AdminQuotations.EmptyModelReadsVehicle | admin/src/pages/QuotationTransactions.tsx:137 | a title saved with an empty model reads back the model "Vehicle" |
| AdminQuotations.NewForm | admin/src/pages/QuotationTransactions.tsx:58-72 | a new form is brief at the brief price, pending, dated today, empty model and workshop |
| AdminQuotations.QuoteTypeChange | admin/src/pages/QuotationTransactions.tsx:127-130 | choosing a type sets that type's price and nothing else |
| AdminQuotations.CutAtT | admin/src/pages/QuotationTransactions.tsx:77-80 | the part of the date before the first 'T' |
| AdminQuotations.CutIsoTimestamp | admin/src/pages/QuotationTransactions.tsx:77-80 | an ISO timestamp is cut to its date; a plain date is kept |
| AdminQuotations.OrElse | admin/src/pages/QuotationTransactions.tsx:96-104 | `x \|\| fallback` keeps a present non-empty text |
| AdminQuotations.EditForm | admin/src/pages/QuotationTransactions.tsx:74-105 | the form holds the parsed title, the row's year, engine and chassis or empty, the row's amount or else the type's price, the status or pending, the workshop id as text, and the cut date or today |
| AdminQuotations.WorkshopIdValue | admin/src/pages/QuotationTransactions.tsx:147 | an empty workshop id sends null; otherwise the `parseInt` value, or null when it is NaN or an infinity |
| AdminQuotations.Payload | admin/src/pages/QuotationTransactions.tsx:136-147 | the payload's title is built from the quote type and model, its workshop id is parsed from the text, and every other field is the form's own value |
| AdminQuotations.WorkshopIdRoundTrip | admin/src/pages/QuotationTransactions.tsx:101 | a row's workshop id survives editing and saving, unless it is past the double range, where null is sent |
| AdminQuotations.SaveUnchangedKeepsTitle | admin/src/pages/QuotationTransactions.tsx:84-137 | saving a row with a clean built title unchanged rebuilds the same title |

## Left out

- Rendering, styling, animation, alerts and React effect timing: each screen is modelled as its state transitions, and the server's answer is a parameter.
- Network calls, `sessionStorage`, the image picker, location services and the Gemini service are outside the model; their results are parameters.
- Express routing, middleware, HTTP framing, the route files and `server.js` are left out. Of the duplicate handlers in server.ts only the generic create differs from its controller and is modelled separately (`Ledger.ServerCreateTransaction`). Its towing, quotation and checkout handlers repeat the controller rules.
- The banner controller and the admin pages other than quotation transactions are left out; they only list or forward.
- Database mechanics are left out. Writes that span several statements are modelled as atomic: a failing statement leaves the store as it was.
- database.ts has no `user_id` column on the ledger, while the controllers write one. The model follows the controllers.
- MySQL's case-insensitive collation is left out: ENUM values and email equality are compared exactly.
- Unicode case folding is left out: `toLowerCase` is ASCII only. White space and line terminators follow ECMAScript's lists in full.
- Floating point is left out. Money is integer cents, ratings are integer tenths, and `parseFloat`/`toFixed` are not modelled. The admin form keeps the amount as text.
- bcrypt is an ideal digest: a digest accepts exactly its own password. Cost factors and timing are left out.
- Randomness, clocks, auto-increment ids and salts are parameters.
- The fallback branch at backend/src/controllers/productsController.ts:243-257 is left out. It can only run when `workshop_id` is in the body without a SET clause, which the branch above it never allows.
- `getUserVehicles`, `getAllTransactions` and the listings order by a timestamp. Rows that tie on it are listed in some order consistent with the sort, not a fixed one.
- Admins.UpdateAdmin: the admin table's DDL is not part of this model. `role` and `is_active` are assumed NOT NULL, `is_active` defaults to true and `last_login` to null.
- Users.Login and Admins.AdminLogin require unique emails in the store. The table's UNIQUE constraint guarantees this for users; the admin handlers maintain it for admins.
- AdminQuotations.FirstLineOnly: a model with a line break is read back truncated to its first line. The lemma states this behaviour rather than a round trip.
- QuotationForm.EmptyIdStaysUnread: a quotation row without an id is never marked read. The lemma states the badge behaviour that results.
- Shop.SessionUserId: `user?.id || null` sends null for a user whose id is 0. The contract states this as written.
- server/database.ts:123-150 declares no `admin_message` column on `quotations`, yet backend/src/controllers/transactionsController.ts:42 selects `q.admin_message`. Against that DDL the query would fail. The model gives quotation rows an `adminMessage` column, so `Ledger.GetTransactionById` answers with it.
- server/database.ts:67-78 declares no `workshop_id` column on `products`, yet the product handlers read and write one. The model follows the handlers and stores it.
- VARCHAR length limits are not modelled. Examples are `transactions.title VARCHAR(255)` (server/database.ts:58), `users.phone VARCHAR(20)` (:84) and `vehicles.year VARCHAR(10)` (:94). So the success conditions of Ledger.CreateTowingRequest, Ledger.CreateQuotation, Ledger.Checkout, Users.CreateUser and Vehicles.CreateVehicle promise success on text that MySQL's strict mode would refuse as too long.
- QuotationForm: `.length` and `substring` in the quotation screen count UTF-16 code units. The model's strings are sequences of characters, so a text outside the Basic Multilingual Plane is counted differently.
- Js.ParseInt: a finite result is the exact integer. JavaScript rounds values above 2^53 to the nearest double, and that rounding is not modelled. Overflow to an infinity is modelled.
- Js.Number: a request-body number is taken as given. JSON parsing would turn a literal past the double range into an infinity, but the model does not bound the `Int` values it accepts.
