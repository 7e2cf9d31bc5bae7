# Users, sign-in, MFA, products and sales charts — a Dafny model

This project models the core of a Go (gin) back end that keeps its data in
Elasticsearch, together with the product-list page of its React client:

- **Accounts.** Registration, sign-in and user lookup. Passwords are stored as
  bcrypt digests. Sessions are HS256 JWTs that expire after eight hours, and a
  bearer-token guard sits in front of the `/api` routes.
- **MFA.** Users can enable and disable TOTP multi-factor authentication and
  check one-time codes.
- **Profile maintenance.** Password change, profile update, picture upload and
  deletion, each a partial update or delete on the `users` index.
- **Products.** The paged product list and the product search: five products
  per page, with the page taken from the path by `strconv.Atoi`. Also the
  client's page state and its First / Previous / Next / Last buttons.
- **Sales charts.** Sales are summed per calendar month for the bar chart. The
  pie chart draws only the months with a positive total.

## How the model is built

- **Store.** The `users` index is a `UserStore.Store` object. It holds the
  documents by id and the order in which they were indexed; searches list hits
  in that order.
- **Documents.** A document is a map from field to JSON scalar. Reading a user
  decodes it into the `dto.Users` record. Decoding fails when a field holds a
  value of the wrong JSON type, as `encoding/json` does (`Records.DecodeUser`).
- **Writes.** A partial "doc" update merges the given fields into the stored
  document (`Records.Merge`).
- **Handlers that write** (register, MFA activate, change password, update
  profile, upload picture, delete) are methods on the store. Each states the
  new store contents and the reply for every branch.
- **Read-only handlers** are functions of the store contents.
- **Store outcomes and libraries as parameters.** How each store call ends is a
  parameter: `Up`, a transport error `Down`, or an error status `Failing`. The
  libraries the handlers call are parameters with uninterpreted behaviour:
  bcrypt, the JWT library, TOTP, QR encoding and base64, `humanize.Commaf` and
  the clock. Where a property needs the library's own promise, it is stated as
  a predicate: `Hashing.Sound` for bcrypt and `Jwt.Faithful` for the JWT
  library.
- **Client page state.** It is a `Prodlist.ProductTable` object. Its buttons
  are methods, and a fetched answer overwrites the state.
- **Go arithmetic.** `strconv.Atoi` and Go's 64-bit `int` arithmetic on the
  page offset are written out: sign, overflow clamping and wrap-around.

## Model

| member | source | states |
|---|---|---|
| Text.TrimPrefix | golang.elasticsearch/middleware/authmiddleware.go:31 | the prefix followed by the result gives back the header; a header without the prefix is returned unchanged |
| Text.Lower | golang.elasticsearch/middleware/auth/register.go:44 | same length, no upper-case letter left, every non-letter kept, already lower-case input unchanged |
| Text.LowerIdempotent | golang.elasticsearch/middleware/prods/searchproduct.go:28 | lower-casing twice is lower-casing once |
| Records.DecodeUser | golang.elasticsearch/utils/validation.go:47-66 | a stored user decodes exactly when every field has its declared JSON type, and the decoded id is the hit's id |
| Records.DecodedFields | golang.elasticsearch/dto/usersDto.go:3-18 | every present non-null field of a decodable document reads back as stored, every other field as Go's zero value |
| Records.EncodeUser | golang.elasticsearch/middleware/auth/register.go:59-74 | the marshalled `models.User` is well-typed and holds every field, nil pointers as null |
| Records.DecodeEncode | golang.elasticsearch/dto/usersDto.go:3-18 | a written user reads back as the same user under the document id |
| Records.ViewsTypeOk | golang.elasticsearch/dto/usersDto.go:3-18 | every field of a user is written with the JSON type its key decodes from |
| Records.DecodeViews | golang.elasticsearch/dto/usersDto.go:3-18 | a document holding exactly a user's field values decodes to that user under the document id |
| Records.Merge | golang.elasticsearch/middleware/users/updateprofile.go:43-59 | a partial update keeps the old keys and adds the patch's keys; patched fields take the patch's values and all others keep theirs |
| Records.MergeWellTyped | golang.elasticsearch/dto/usersDto.go:3-18 | a well-typed patch keeps a decodable document decodable |
| Records.DecodeMerge | golang.elasticsearch/middleware/users/updateprofile.go:43-59 | after a well-typed patch the user decodes, patched fields read back as written (a null as the zero value) and all other fields as before |
| Records.PatchedField | golang.elasticsearch/middleware/users/updateprofile.go:43-59 | one field a well-typed patch sets to a non-null value reads back as that value |
| Records.ClearedField | golang.elasticsearch/middleware/auth/mfaactivate.go:109-114 | one field a well-typed patch sets to null reads back as Go's zero value |
| UserStore.Without | golang.elasticsearch/middleware/users/deleteuserbyid.go:30-34 | removing a deleted id from the index order keeps exactly the other ids, still without duplicates |
| UserStore.MatchIds | golang.elasticsearch/middleware/auth/register.go:115-121 | a term query finds exactly the indexed documents whose field equals the value, and nothing when none does |
| UserStore.HitsOf | golang.elasticsearch/middleware/auth/register.go:149-155 | one hit per matching id, in order, carrying that document |
| UserStore.MatchIdsFrame | golang.elasticsearch/middleware/auth/register.go:115-121 | a term query's answer depends only on the listed documents' match on that field |
| UserStore.MatchIdsAppendFresh | golang.elasticsearch/middleware/auth/register.go:81-85 | indexing a matching document under a fresh id, when nothing matched before, makes it the only match |
| UserStore.GetUserid | golang.elasticsearch/utils/validation.go:13-70 | the ids query succeeds exactly when the store answers and the document (if any) decodes; it returns at most one user, exactly when the id exists, decoded with its id |
| UserStore.DecodedEmpty | golang.elasticsearch/middleware/auth/register.go:154-161 | a search returns no user exactly when no hit decodes |
| UserStore.SearchBy | golang.elasticsearch/middleware/auth/register.go:107-164 | a store error is an error; otherwise the decodable matching users, in index order |
| UserStore.SearchSeesAll | golang.elasticsearch/middleware/auth/register.go:154-161 | on a decodable index a search finds a user exactly when some document matches |
| UserStore.Store.Insert | golang.elasticsearch/middleware/auth/register.go:81-90 | indexing adds the document under a fresh id at the end of the order and keeps the index consistent |
| UserStore.Store.Update | golang.elasticsearch/middleware/users/changepassword.go:56-73 | the update is written exactly when the store is up and the id exists, merging the patch; a missing id is a 404 and a failing store a 500; otherwise nothing changes |
| UserStore.Store.Delete | golang.elasticsearch/middleware/users/deleteuserbyid.go:30-50 | the delete succeeds exactly when the store is up and the id exists, removing it from documents and order; a missing id is a 404; otherwise nothing changes |
| Hashing.HashPassword | golang.elasticsearch/utils/hashing.go:17-23 | a bcrypt failure gives the empty digest; with a sound bcrypt a produced digest accepts its password |
| Hashing.ComparePassword | golang.elasticsearch/utils/hashing.go:7-15 | true exactly when bcrypt accepts the password against the digest; with a sound bcrypt, any digest bcrypt produced from that password is accepted |
| Jwt.GenerateJWT | golang.elasticsearch/utils/jwt.go:19-45 | fails exactly when signing fails; otherwise the serialised HS256 token over the username, the eight-hour expiry, issued-at and not-before now, issuer "BARCLAYS BANK", subject "user_authentication" and id "1" |
| Jwt.IssueClaims | golang.elasticsearch/utils/jwt.go:21-33 | the claims name the user, and their validity window is exactly the eight hours from the issue time: valid at t iff now <= t < now + 8h |
| Jwt.VerifyJWT | golang.elasticsearch/utils/jwt.go:47-70 | claims come back exactly when the token parses, names an HMAC algorithm, carries the MAC of its claims under the key and is within its validity window; a non-HMAC algorithm is refused as an unexpected signing method |
| Jwt.IssuedToken | golang.elasticsearch/utils/jwt.go:22-34 | a freshly issued token parses back as HS256 with exactly the issued claims |
| Jwt.RoundTrip | golang.elasticsearch/utils/jwt.go:47-70 | within eight hours of issue the token verifies to its own claims and username |
| Jwt.OutsideWindow | golang.elasticsearch/utils/jwt.go:21-29 | before its issue time or from eight hours on, the token is refused on its claims |
| Jwt.OtherKey | golang.elasticsearch/utils/jwt.go:50-62 | under a key whose MAC differs the token is refused on its signature |
| AuthMiddleware.Authorize | golang.elasticsearch/middleware/authmiddleware.go:15-38 | a request is admitted exactly when the header starts with "Bearer " and the rest verifies; the admitted token is the rest of the header; every refusal is 401, "Unauthorized Access." without the scheme and "Invalid Bearer Token." after it |
| AuthMiddleware.Guard | golang.elasticsearch/middleware/authmiddleware.go:12-46 | a refusal writes its status and message and aborts without running the handler; an admission stores the token under "authToken" and runs the handler without writing a response |
| AuthMiddleware.FreshTokenAdmitted | golang.elasticsearch/middleware/authmiddleware.go:30-44 | a bearer header with a freshly issued token is admitted for eight hours and refused as an invalid token afterwards |
| AuthMiddleware.LowerCaseSchemeRefused | golang.elasticsearch/middleware/authmiddleware.go:23-28 | a lower-case "bearer " scheme is refused as unauthorised |
| Login.GetUserInfo | golang.elasticsearch/middleware/auth/login.go:73-144 | a store error is an error; no hit is "no user"; otherwise the first hit decoded with its id (never "no user" when that hit is well typed), or an error when it does not decode |
| Login.Profile | golang.elasticsearch/middleware/auth/login.go:54-67 | the sign-in profile carries the user's id and username and the token, and neither the password nor the secret |
| Login.Login | golang.elasticsearch/middleware/auth/login.go:25-71 | a malformed body is 400; a lookup error is 400 carrying the error's text; an unknown username is 404; a found user whose digest bcrypt rejects is 400 "Invalid Password."; sign-in answers 200 exactly when the first matching user decodes and bcrypt accepts the password; the 200 body has the user's id and username, no password or secret, and the token issued for the user's email |
| Login.UndecodableFirstHit | golang.elasticsearch/middleware/auth/login.go:133-140 | a first hit that does not decode makes sign-in fail with 400 |
| Login.UniqueUserSignsIn | golang.elasticsearch/middleware/auth/login.go:44-67 | a username matching exactly one decodable user whose digest accepts the password signs in with that id and a token for its email |
| Register.Register | golang.elasticsearch/middleware/auth/register.go:26-105 | a malformed body is 400; a taken lower-cased email (by the e-mail search), then a taken username (by the separate username search), is 400 with nothing written; an index failure is 500; otherwise the new user is indexed under the new id and the reply names it with 201 |
| Register.RegisteredUserReadsBack | golang.elasticsearch/middleware/auth/register.go:59-72 | the registered user reads back with the lower-cased email, the username, the digest, ROLE_USER, activated, "pix.png", a zero mail token and no MFA secret or QR code |
| Register.RegisterKeepsWellTyped | golang.elasticsearch/middleware/auth/register.go:74-90 | registering keeps every stored user decodable |
| Register.NewUserHolds | golang.elasticsearch/middleware/auth/register.go:59-74 | the indexed document holds the form's username and the lower-cased email |
| Register.NewUser | golang.elasticsearch/middleware/auth/register.go:59-72 | the new record has an already lower-cased email, the given digest and username, is activated and not blocked, and has no MFA secret or QR image |
| Register.NotTakenNoMatch | golang.elasticsearch/middleware/auth/register.go:44-56 | on a decodable table, a value the search does not report as taken is held by no document |
| Register.RegisterKeepsUnique | golang.elasticsearch/middleware/auth/register.go:44-56 | after a registration that passed both checks, the username and the email each match exactly the new user |
| MfaActivate.MfaActivate | golang.elasticsearch/middleware/auth/mfaactivate.go:32-141 | enabling looks the user up (400 on a lookup error, no response for an unknown id), generates a TOTP key for the user's email, stores its secret and the base64 QR image and answers with the image; disabling nulls both fields; failures answer 500 and change nothing |
| MfaActivate.EnablePatch | golang.elasticsearch/middleware/auth/mfaactivate.go:71-78 | the enabling patch sets exactly `secret` and `qrcodeurl`, both to strings, so it is well-typed and null-free |
| MfaActivate.EnabledUserReadsBack | golang.elasticsearch/middleware/auth/mfaactivate.go:74-88 | after enabling, the user reads back with that secret and QR image and is otherwise unchanged |
| MfaActivate.DisabledUserReadsBack | golang.elasticsearch/middleware/auth/mfaactivate.go:109-123 | after disabling, the user reads back with no secret and no QR image and is otherwise unchanged |
| MfaActivate.DisabledClears | golang.elasticsearch/middleware/auth/mfaactivate.go:109-114 | disabling leaves the document decodable with neither secret nor QR image |
| MfaActivate.DisabledOthersKept | golang.elasticsearch/middleware/auth/mfaactivate.go:109-114 | disabling changes no field other than the secret and the QR image |
| MfaActivate.DisableIdempotent | golang.elasticsearch/middleware/auth/mfaactivate.go:109-114 | disabling twice leaves the same document as disabling once |
| MfaVerifyotp.MfaVerifyotp | golang.elasticsearch/middleware/auth/mfaverifyotp.go:23-57 | the handler as written, where it does not panic: a malformed body or a lookup error is 400; 200 with the username exactly when the user exists and the code validates against the stored secret; otherwise 401 |
| MfaVerifyotp.MfaVerifyotpChecked | golang.elasticsearch/middleware/auth/mfaverifyotp.go:38-55 | the decision with its checks in order: an unknown id is 400 "User ID not found."; 200 exactly when the user has a secret and the code validates against it; otherwise 400 or 401 |
| MfaVerifyotp.CheckedAgrees | golang.elasticsearch/middleware/auth/mfaverifyotp.go:38-55 | wherever the handler as written does not panic, the checked decision answers the same |
| MfaVerifyotp.UnknownIdPanics | golang.elasticsearch/middleware/auth/mfaverifyotp.go:32-38 | a successful lookup of an unknown id makes the handler as written index an empty result |
| MfaVerifyotp.AfterDisablePanics | golang.elasticsearch/middleware/auth/mfaverifyotp.go:38-42 | after MFA is disabled, any OTP check on that user makes the handler as written dereference a nil secret |
| MfaVerifyotp.NoSecretRefused | golang.elasticsearch/middleware/auth/mfaverifyotp.go:40-51 | a user with no secret is refused with 401 whatever the code |
| ChangePassword.PasswordPatch | golang.elasticsearch/middleware/users/changepassword.go:46-53 | the same four fields as the handler's payload, with the same values except the mail token, which is the number 0; the patch is well-typed and null-free |
| ChangePassword.PasswordPatchAsWritten | golang.elasticsearch/middleware/users/changepassword.go:46-53 | the payload as the code writes it: the four fields password, isactivated, userpicture and mailtoken, with mailtoken a string, which the record's number type refuses, so the patch is not well-typed |
| ChangePassword.ChangePassword | golang.elasticsearch/middleware/users/changepassword.go:26-76 | a malformed body is 400; a lookup error or unknown id is 404 with nothing written; otherwise the digest, activation, default picture and zero mail token are merged in and the reply is 200, or 500 with nothing written when the update fails |
| ChangePassword.ChangedFieldsReadBack | golang.elasticsearch/middleware/users/changepassword.go:46-53 | the changed user decodes with the new digest, activated, "pix.png" and a zero mail token |
| ChangePassword.ChangedOthersKept | golang.elasticsearch/middleware/users/changepassword.go:46-62 | every field outside the four patched ones reads back as before |
| ChangePassword.ChangedUserReadsBack | golang.elasticsearch/middleware/users/changepassword.go:35-62 | after the change the lookup finds the user with the new fields and every other field as before |
| ChangePassword.ChangeKeepsWellTyped | golang.elasticsearch/middleware/users/changepassword.go:46-53 | a change keeps every stored user decodable |
| ChangePassword.AsWrittenBreaksLookup | golang.elasticsearch/middleware/users/changepassword.go:51 | with the mail token written as the string "0", the document no longer decodes and looking the user up by id fails |
| ChangePassword.AsWrittenHitsUndecodable | golang.elasticsearch/middleware/users/changepassword.go:51 | after that payload, every search hit for a field only that user matches is undecodable, and there is one when the user matched before |
| ChangePassword.AsWrittenLocksOut | golang.elasticsearch/middleware/users/changepassword.go:51 | after that payload, signing in as that user fails with 400 whatever the password |
| ChangePassword.AsWrittenFreesEmail | golang.elasticsearch/middleware/users/changepassword.go:51 | after that payload the user's email no longer counts as taken, so it can be registered again |
| UpdateProfile.ProfilePatch | golang.elasticsearch/middleware/users/updateprofile.go:43-49 | the patch names exactly first name, last name and mobile, well-typed and null-free |
| UpdateProfile.UpdateProfile | golang.elasticsearch/middleware/users/updateprofile.go:26-73 | a malformed body is 400; a lookup error or unknown id is 404 with nothing written; otherwise the three fields are merged in and the reply is 200, or 500 with nothing written when the update fails |
| UpdateProfile.ProfileFieldsReadBack | golang.elasticsearch/middleware/users/updateprofile.go:43-59 | the updated user decodes with the submitted names and mobile number |
| UpdateProfile.ProfileOthersKept | golang.elasticsearch/middleware/users/updateprofile.go:43-59 | every other field, password, email and MFA fields included, reads back as before |
| UpdateProfile.ProfileIdempotent | golang.elasticsearch/middleware/users/updateprofile.go:43-59 | submitting the same profile twice leaves the same document as once |
| DeleteUser.DeleteUserid | golang.elasticsearch/middleware/users/deleteuserbyid.go:24-64 | a transport error is 500 "Failed to execute delete"; a missing id 404 "User not found"; a failing store 500 "Elasticsearch error"; otherwise the user is removed and the reply is 200 with result "deleted"; on every failure nothing changes |
| DeleteUser.DeletedUserGone | golang.elasticsearch/middleware/users/deleteuserbyid.go:30-34 | after a delete the id is not found, and every other id is found as before |
| DeleteUser.DeleteKeepsIndex | golang.elasticsearch/middleware/users/deleteuserbyid.go:30-34 | deleting keeps the index order a duplicate-free list of the remaining ids |
| UploadPicture.AfterLastSlash | golang.elasticsearch/middleware/users/uploadpicture.go:42 | the last path element is a slash-free suffix preceded by a slash when it is not the whole path |
| UploadPicture.TrimTrailingSlashes | golang.elasticsearch/middleware/users/uploadpicture.go:42 | the result is a prefix of the path ending in no slash, and everything dropped is slashes |
| UploadPicture.Base | golang.elasticsearch/middleware/users/uploadpicture.go:42 | `filepath.Base` is never empty, is "/" or slash-free, and is the last element of a path that does not end in a slash |
| UploadPicture.Ext | golang.elasticsearch/middleware/users/uploadpicture.go:43 | `filepath.Ext` is empty or a suffix of the path that starts with its only '.' and holds no slash |
| UploadPicture.ExtEmptyIff | golang.elasticsearch/middleware/users/uploadpicture.go:43 | the extension is empty exactly when the last path element has no '.' |
| UploadPicture.ExtPng | golang.elasticsearch/middleware/users/uploadpicture.go:43 | a name ending in ".png" has extension ".png" |
| UploadPicture.PngKept | golang.elasticsearch/middleware/users/uploadpicture.go:42-44 | an uploaded ".png" file is stored as "00", the id and ".png", whatever its directory |
| UploadPicture.ExtOfLastElement | golang.elasticsearch/middleware/users/uploadpicture.go:42-43 | the extension depends only on the last path element |
| UploadPicture.StoredName | golang.elasticsearch/middleware/users/uploadpicture.go:42-44 | the stored name is "00" and the id followed by an empty or single-dot, slash-free extension |
| UploadPicture.DestinationInFolder | golang.elasticsearch/middleware/users/uploadpicture.go:45 | for an id without '/', the file lands directly in `assets/users/` under the stored name |
| UploadPicture.Destination | golang.elasticsearch/middleware/users/uploadpicture.go:45 | the path starts with `assets/users/`, and a name without '/' is the path's last element |
| UploadPicture.AfterLastSlashOfJoin | golang.elasticsearch/middleware/users/uploadpicture.go:45 | joining a slash-free name to a folder makes it the last path element |
| UploadPicture.UploadPicture | golang.elasticsearch/middleware/users/uploadpicture.go:27-88 | a lookup error is 400 with its text; an unknown id 400 "User ID not found."; a form error 400 as text; a save error 500 as text; otherwise the picture is saved at the destination, `userpicture` is set to the stored name and the reply is 200, or 500 when the update fails |
| UploadPicture.PictureReadsBack | golang.elasticsearch/middleware/users/uploadpicture.go:53-67 | after the upload the user reads back with the new picture and every other field as before |
| Paging.Wrap64 | golang.elasticsearch/middleware/prods/getproductlist.go:30 | the result is a 64-bit integer, equal to the exact value when that fits |
| Paging.DigitPrefix | golang.elasticsearch/middleware/prods/getproductlist.go:24 | the longest all-digit prefix of the string |
| Paging.Atoi | golang.elasticsearch/middleware/prods/getproductlist.go:24 | the value `strconv.Atoi` returns, its error ignored, always a 64-bit integer |
| Paging.PageNumber | golang.elasticsearch/middleware/prods/getproductlist.go:24-27 | the parsed page when it is at least 1, otherwise 1 |
| Paging.OffsetExact | golang.elasticsearch/middleware/prods/getproductlist.go:29-30 | up to the largest page that does not wrap, the offset is (page-1)*5 and each page starts five after the previous |
| Paging.Offset | golang.elasticsearch/middleware/prods/getproductlist.go:29-30 | the offset is a Go `int`, and equals (page-1)*5 for every page up to the largest one that does not wrap |
| Paging.TotalPages | golang.elasticsearch/middleware/prods/getproductlist.go:82-83 | the page count is the ceiling of total/5: enough pages for every record, and no empty last page |
| Paging.RecordOnSomePage | golang.elasticsearch/middleware/prods/getproductlist.go:29-37 | record k lies on page k/5+1, which is between 1 and the page count, inside that page's five slots |
| Paging.DecimalString | vite-react/src/components/Prodlist.tsx:51 | the client writes a page number as a non-empty string of decimal digits |
| Paging.DecimalStringValue | vite-react/src/components/Prodlist.tsx:51 | the digits written for a page number have that number as their value |
| Paging.DecimalRoundTrip | vite-react/src/components/Prodlist.tsx:51 | the page number the client writes is the page number the server reads |
| Paging.PageZeroServedAsOne | golang.elasticsearch/middleware/prods/getproductlist.go:24-27 | a request for page 0 is served as page 1 |
| Paging.NotANumberServedAsOne | golang.elasticsearch/middleware/prods/getproductlist.go:24-27 | a page parameter that is not a number is served as page 1 |
| Products.DecodeProduct | golang.elasticsearch/middleware/prods/searchproduct.go:91-96 | a hit whose `_source` is not an object decodes to the zero product |
| Products.DecodeEncodeProduct | golang.elasticsearch/dto/products.go:3-15 | a stored product decodes back to itself |
| ProductList.Present | golang.elasticsearch/middleware/prods/getproductlist.go:70-72 | keeps at most the hits, and all of them, in order, when every `_source` is an object |
| ProductList.WrapStep | golang.elasticsearch/middleware/prods/getproductlist.go:76 | incrementing the wrapped counter wraps like incrementing the exact value |
| ProductList.NumberProducts | golang.elasticsearch/middleware/prods/getproductlist.go:66-80 | one product per object `_source`, in order, the k-th with `id` set to offset+1+k in 64-bit arithmetic |
| ProductList.GetProductList | golang.elasticsearch/middleware/prods/getproductlist.go:20-92 | asks for five products from the page's offset; each malformed answer has its own 500 error; otherwise the page, the page count, the total and the numbered products |
| ProductList.Window | golang.elasticsearch/middleware/prods/getproductlist.go:34-40 | a search over a sorted catalogue returns the catalogue size and up to `size` entries from `from`, in order |
| ProductList.GlobalNumbering | golang.elasticsearch/middleware/prods/getproductlist.go:29-80 | the k-th product of page p is catalogue entry (p-1)*5+k, numbered with its 1-based place in the whole catalogue |
| ProductList.EntryListedOnItsPage | golang.elasticsearch/middleware/prods/getproductlist.go:29-40 | every catalogue entry is listed on the page its position falls in, which is within the page count |
| ProductSearch.SearchKey | golang.elasticsearch/middleware/prods/searchproduct.go:28 | the key is the lower-cased parameter between two '*' |
| ProductSearch.SearchKeyIgnoresCase | golang.elasticsearch/middleware/prods/searchproduct.go:28 | the key does not depend on the parameter's letter case |
| ProductSearch.DecodeAll | golang.elasticsearch/middleware/prods/searchproduct.go:89-99 | one product per hit, in hit order, each its hit decoded |
| ProductSearch.ProductSearch | golang.elasticsearch/middleware/prods/searchproduct.go:25-112 | searches with the key from the page's offset; a transport error is 500 with its text, an unparsable body 500 "Error parsing response", malformed hits the recovery 500, no hits 404 "products not found."; otherwise the page, page count, total and decoded products |
| ProductSearch.StoredProductsComeBack | golang.elasticsearch/middleware/prods/searchproduct.go:90-98 | stored products come back unchanged, one per hit, in order |
| Prodlist.Press | vite-react/src/components/Prodlist.tsx:67-89 | a button press never takes an in-range page out of range |
| Prodlist.NextPrevInverse | vite-react/src/components/Prodlist.tsx:72-84 | Next then Previous comes back except from the last page, Previous then Next except from page 1; Next on the last page and Previous on page 1 do nothing |
| Prodlist.ProductTable.constructor | vite-react/src/components/Prodlist.tsx:41-46 | the page starts at 1 with no pages, records or products |
| Prodlist.ProductTable.FirstPage | vite-react/src/components/Prodlist.tsx:67-70 | goes to page 1 and keeps everything else |
| Prodlist.ProductTable.NextPage | vite-react/src/components/Prodlist.tsx:72-77 | advances one page only before the last page, keeps the page in range and everything else unchanged |
| Prodlist.ProductTable.PrevPage | vite-react/src/components/Prodlist.tsx:79-84 | goes back one page only after page 1, keeps the page in range and everything else unchanged |
| Prodlist.ProductTable.LastPage | vite-react/src/components/Prodlist.tsx:86-89 | goes to the reported page count, in range once there is a page, everything else unchanged |
| Prodlist.ProductTable.Fetched | vite-react/src/components/Prodlist.tsx:48-61 | a listing overwrites products, page count, total and page; a failed fetch changes nothing |
| Prodlist.LastOnEmptyListRecovers | vite-react/src/components/Prodlist.tsx:86-89 | from any page, "Last" before the total was counted moves to page 0, and the request for page 0 is served as page 1 |
| Prodlist.ButtonsKeepRange | vite-react/src/components/Prodlist.tsx:67-89 | any sequence of presses from an in-range page stays in range |
| SalesData.MonthKeysDistinct | golang.elasticsearch/middleware/prods/salesdata.go:48 | twelve distinct month keys |
| SalesData.NoSaleNoTotal | golang.elasticsearch/middleware/prods/salesdata.go:64 | a month with no sale totals 0 |
| SalesData.PrefixStep | golang.elasticsearch/middleware/prods/salesdata.go:51-58 | one more hit adds its decoded sale, if any, to its month's total and marks that month as having a sale |
| SalesData.BucketsKeys | golang.elasticsearch/middleware/prods/salesdata.go:51-58 | every key of the accumulated month map is a month name |
| SalesData.BucketsMeaning | golang.elasticsearch/middleware/prods/salesdata.go:51-58 | the accumulated month map has a key exactly for the months with a decoded sale, holding that month's total |
| SalesData.Accumulate | golang.elasticsearch/middleware/prods/salesdata.go:49-58 | only month names are keys; a month is a key exactly when some decoded sale falls in it, and then it maps to that month's total |
| SalesData.GetSalesChart | golang.elasticsearch/middleware/prods/salesdata.go:23-66 | a failed search is 500 "ES search failed", an undecodable body a bare 500; otherwise twelve bars in calendar order, each its month's total |
| SalesData.MonthTotalAppend | golang.elasticsearch/middleware/prods/salesdata.go:51-58 | the month total of two runs of hits is the sum of their totals |
| SalesData.MonthTotalRemove | golang.elasticsearch/middleware/prods/salesdata.go:51-58 | taking one hit out takes its sale out of its month's total |
| SalesData.MultisetRemove | golang.elasticsearch/middleware/prods/salesdata.go:51-58 | taking one hit out removes one copy of it from the multiset of hits |
| SalesData.OrderIndependent | golang.elasticsearch/middleware/prods/salesdata.go:51-58 | the monthly totals do not depend on the order of the hits |
| SalesData.Conservation | golang.elasticsearch/middleware/prods/salesdata.go:51-66 | the twelve monthly totals add up to the sum of all decoded sales |
| LineChart.PieMonths | golang.elasticsearch/middleware/prods/linechart.go:61-62 | at most n months, each between 1 and n |
| LineChart.PieMonthsSorted | golang.elasticsearch/middleware/prods/linechart.go:61-62 | every pie month has a positive total, and the pie months are in increasing calendar order |
| LineChart.PieMonthsComplete | golang.elasticsearch/middleware/prods/linechart.go:61-62 | every month with a positive total is a pie month |
| LineChart.PieEntry | golang.elasticsearch/middleware/prods/linechart.go:63-66 | a slice shows its month's total and is labelled with the month name and ": " |
| LineChart.PieIsEntries | golang.elasticsearch/middleware/prods/linechart.go:60-67 | the slices built month by month are the entries of the pie months, in order |
| LineChart.GetLineChart | golang.elasticsearch/middleware/prods/linechart.go:23-68 | a failed search is 500 "ES search failed", an undecodable body a bare 500; otherwise the pie: one slice per month with a positive total, in calendar order |
| LineChart.TotalNonNegative | golang.elasticsearch/middleware/prods/linechart.go:51-58 | with no negative amounts every month total is non-negative |
| LineChart.PieCoversAll | golang.elasticsearch/middleware/prods/linechart.go:60-68 | with no negative amounts the values of the slices for months 1 to n add up to those months' bar totals |
| LineChart.ChartCoversAllSales | golang.elasticsearch/middleware/prods/linechart.go:44-68 | with no negative amounts the values of the drawn pie add up to every decoded sale's amount |
| Scenarios.RegisterThenSignIn | golang.elasticsearch/middleware/auth/login.go:44-67 | after a successful registration, signing in with the same username and password gives 200 with the new id and a token for the lower-cased email, and that token passes the guard for eight hours |

## Left out

- Elasticsearch itself (client, connection set-up, query JSON) is replaced by the in-memory `UserStore.Store` and by search answers passed as parameters; relevance scoring is replaced by index order.
- The sign-in `match` query on the analysed `username` field is modelled as exact equality, like the `term` queries of registration; text analysis (tokenising, lower-casing) is not modelled.
- Sorting the product list by `descriptions.keyword` is not modelled: `ProductList.Window` takes a catalogue already in that order.
- bcrypt, the JWT library, TOTP generation and validation, QR encoding, base64 and `humanize.Commaf` are uninterpreted parameters; their own guarantees (TOTP time windows, bcrypt collision resistance) are outside the model.
- The `JWT_SECRET` key and the clock are parameters rather than process globals; whether the key is read before the `.env` file is loaded is not modelled.
- Error texts that embed a library or store message ("Elasticsearch error: %s", "Failed to generate QR code: %v", `err.Error()` of store and decode errors) are modelled as fixed strings.
- Floating point: amounts, prices, quantities and the mail token are whole numbers, `math.Ceil` is the integer ceiling, and the client's two-decimal price formatting is not modelled.
- Chart rendering (the PNG, the logo, the 500 "Failed to render chart") and the PDF report are not modelled; the model stops at the chart values.
- The client's JSX, its console logging and the asynchrony of its fetches are not modelled; `Prodlist.ProductTable.Fetched` is the effect that runs after each change of `page`.
- `log.Print` lines and concurrency between requests are not modelled.
- Gin request binding is an optional body: `None` stands for any body that fails to bind, without modelling which bodies those are.
- Panics on unchecked type assertions over store answers (missing `hits`, `total` or `_id`, a hit that is not an object) are not modelled, except the malformed `hits` cases of the product search, which are gin's recovery 500.
- MfaActivate.MfaActivate: requires a decodable body, because the handler ends the process (`log.Fatalf`) on any other; for an enable request on an unknown id it returns `None` (no response written) rather than gin's implicit empty 200.
- MfaActivate.MfaActivate: on a failed TOTP generation, QR encoding or update it states only the status 500, not which message.
- ChangePassword.ChangePassword: writes the corrected payload, with the mail token as the number 0; the string "0" the code writes is modelled by PasswordPatchAsWritten and its lemmas (see Findings).
- ChangePassword.ChangePassword: on a failed update it states only the status 500, not which of "Error updating database" and "Elasticsearch error".
- UpdateProfile.UpdateProfile: on a failed update it states only the status 500, not which of "Error updating database" and "Elasticsearch error".
- UploadPicture.UploadPicture: on a failed update it states only the status 500, not which message; `filepath.Join` cleaning is modelled for ids without '/' only (route parameters cannot hold one), and the file content is not modelled (the save outcome is the `saveError` parameter).
- Register.Register: index creation when the index is missing, the marshal error (impossible for this record) and "Error parsing Elasticsearch response" are not modelled; the id the store assigns is the parameter `newId`; the stored record leaves out the `id`, `created_at` and `updated_at` fields, which no reader uses.
- DeleteUser.DeleteUserid: the "Error parsing ES response" branch is not modelled; `result` is the store's "deleted".
- ProductSearch.ProductSearch: the query-encoding error branch is not modelled, since encoding this query cannot fail.
- Text.Lower: lower-cases ASCII letters only, not the rest of Unicode as `strings.ToLower` does.
- Records.DecodeUser: Go's case-insensitive matching of JSON keys is not modelled; documents hold the record's own keys.
- Products.DecodeProduct: Go's case-insensitive matching of JSON keys is not modelled either; a `_source` key spelt `"Qty"` is not read as `qty`, while `json.Unmarshal` would read it.
- SalesData.GetSalesChart: the sales search (salesdata.go:25-29) sets no size, so Elasticsearch returns only its default first 10 hits by `salesdate`; the model's `hits` are that answer, so the bars, `Conservation` and `BucketsMeaning` speak of at most those ten sales, not of the whole index.
- LineChart.GetLineChart: the same search (linechart.go:25-29) has the same default of 10 hits; the pie, `PieCoversAll` and `ChartCoversAllSales` speak of at most those ten sales.
- ProductList.Window: the list search (getproductlist.go:34-40) does not ask for exact totals, so Elasticsearch caps `hits.total.value` at 10,000 and refuses a `from` + `size` beyond 10,000; `Window`, `GlobalNumbering` and `EntryListedOnItsPage` describe an uncapped store and hold as stated only for catalogues of at most 10,000 products.

The code issues the session token without any MFA step, and after MFA is disabled the OTP check does not refuse the user but panics (see Findings).

## Findings

| source | as written | input that shows it | evidently intended | confidence | as-written member | corrected member |
|---|---|---|---|---|---|---|
| golang.elasticsearch/middleware/users/changepassword.go:51 | the password change writes `mailtoken` as the JSON string "0", while `dto.Users` and `models.User` declare it float64 | change the password of a registered user, then sign in as that user, or register the same email again | write the number 0, as registration does | high, not executed | ChangePassword.AsWrittenLocksOut | ChangePassword.ChangedUserReadsBack |
| golang.elasticsearch/middleware/auth/mfaverifyotp.go:38-42 | `user[0]` is read before the length check and `*secret` is dereferenced without a nil check | an OTP check for an unknown id, or for a user after MFA was disabled (secret null) | answer "User ID not found." for an unknown id and refuse a user without a secret | high, not executed | MfaVerifyotp.AfterDisablePanics | MfaVerifyotp.MfaVerifyotpChecked |
