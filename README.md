# Multi-vendor shop backend: a Dafny model

This project models the backend of a small multi-vendor shop (`Backend/index.js`).
The backend keeps two document collections, Users and Product. Its HTTP handlers
are `/signup`, `/login`, `/addproduct`, `/allproducts` and `/upload`.

The database is modelled as a `Store` class. It holds each collection as a
sequence in store order. `findOne({ email })` is the first match in that order,
and `find({})` is the whole sequence. Signup and AddProduct are methods that
append to those sequences. Login and AllProducts are read-only functions. The
signed JWT is modelled only by its claims payload `{ user: { id, role } }`.

Modules:

- `Records` holds the two schemas, the request bodies, the claims and the handlers' replies (lines 21-41).
- `Identity` holds the email lookup, role defaulting, the login decision and lemmas that connect signup to login.
- `Catalog` holds next-id numbering, product construction, and lemmas about ids over one add and many adds.
- `ImageUpload` holds the stored filename `<field>_<ms><ext>`, the returned URL and the `/upload` reply.
- `Server` holds the `Store` class with one member for each of the four store handlers (`/signup`, `/login`, `/addproduct`, `/allproducts`), plus a client session proved from the contracts.

Facts about the code that the model keeps:

- The next product id is the last stored id + 1, or 1 when there are none (Backend/index.js:99). `Catalog.NextIdIsMaxPlusOne` proves this equals the largest id + 1 while ids increase in store order, and `Store.Valid` keeps ids increasing.
- A duplicate-email signup replies with status 400 (Backend/index.js:64). The two failed-login replies use status 200 (Backend/index.js:89, 92).
- Any non-empty role string is stored as given. An absent or empty role becomes `"customer"` (Backend/index.js:70).

## Model

| member | source | states |
|---|---|---|
| `Identity.FindByEmail` | Backend/index.js:62 | `findOne` by email: none exactly when no user has the email; otherwise the position of the first user with it |
| `Identity.DefaultRole` | Backend/index.js:70 | stored role is never empty; a non-empty supplied role is kept verbatim; absent or `""` becomes `"customer"` |
| `Identity.Login` | Backend/index.js:80-94 | unknown email gives `Wrong Email Id`; for the first user with the email, an exactly equal password gives that user's claims and role, any other password gives `Wrong Password`; all with status 200 |
| `Identity.LoginSucceedsIff` | Backend/index.js:81-87 | with unique emails, login succeeds iff some stored user has that email and password, and the token is that user's `{user:{id, role}}` |
| `Identity.LoginAfterSignup` | Backend/index.js:66-87 | after appending the user a signup builds for a free email, logging in with the same email and password succeeds with the same claims the signup token carried and the defaulted role |
| `Identity.AppendFreshEmailKeepsDistinct` | Backend/index.js:62-72 | appending a user whose email is not taken keeps emails pairwise distinct (the schema's `unique: true`) |
| `Identity.NewUser` | Backend/index.js:66-71 | the document a signup builds: the request's name, email and password, the defaulted (never empty) role, `isApproved = false`; appended by `Store.Signup` |
| `Identity.ClaimsOf` | Backend/index.js:74 | the token payload `{user:{id, role}}` holds exactly the user's id and role; used by `Login` and `Store.Signup`, tied together by `LoginAfterSignup` |
| `Catalog.NextId` | Backend/index.js:99 | last id + 1, or 1 when empty; above every stored id when ids increase; see `NextIdIsMaxPlusOne` |
| `Catalog.NewProduct` | Backend/index.js:101-109 | the document an add builds: the given id, every request field, `available = true` |
| `Catalog.Appended` | Backend/index.js:98-110 | one add: the old products as a prefix, then exactly `NewProduct(NextId(...), req)`; see `AppendedKeepsIncreasing` |
| `Catalog.AppendedAll` | Backend/index.js:97-112 | sequential adds: the old products stay a prefix and one product is added per request; numbering in `AppendedAllNumbersOnward` |
| `Catalog.NextIdIsMaxPlusOne` | Backend/index.js:99 | when ids increase in store order, last id + 1 equals max id + 1 (1 for none) and exceeds every stored id |
| `Catalog.AppendedKeepsIncreasing` | Backend/index.js:98-110 | one add keeps ids strictly increasing, grows the collection by one and keeps the existing products as a prefix |
| `Catalog.AppendedAllNumbersOnward` | Backend/index.js:97-112 | from products numbered 1..n, k sequential adds append exactly k products numbered n+1..n+k that carry their requests' fields with `available = true` |
| `Catalog.AppendedAllFromEmpty` | Backend/index.js:97-118 | from an empty catalogue, n adds make the product list exactly n records with ids 1..n and the requests' fields, in order |
| `ImageUpload.Decimal` | Backend/index.js:47 | the millisecond timestamp is written as a non-empty digit string with no leading zero |
| `ImageUpload.DecimalRoundTrip` | Backend/index.js:47 | reading the written digits back yields the timestamp |
| `ImageUpload.DecimalInjective` | Backend/index.js:47 | distinct timestamps are written differently |
| `ImageUpload.FileName` | Backend/index.js:47 | the filename is the field name, `_`, the timestamp's digits and the extension, and its middle part reads back as the timestamp |
| `ImageUpload.FileNameInjective` | Backend/index.js:47 | for `path.extname`-shaped extensions, two filenames under one field coincide only for the same millisecond and the same extension |
| `ImageUpload.ImageUrl` | Backend/index.js:56 | the URL is `http://localhost:4000/images/` followed by the filename (port 4000) |
| `ImageUpload.Upload` | Backend/index.js:53-58 | a file under `product` yields `{success:1}` with URL `http://localhost:4000/images/product_<ms><ext>`; a missing file or another field yields a server error |
| `Server.Store.constructor` | Backend/index.js:15-17 | a fresh store is empty and satisfies the store invariant |
| `Server.Store.Signup` | Backend/index.js:61-77 | a taken email gives status 400 `Email already exists` with both collections unchanged; otherwise exactly one user is appended and the reply is `{success:true, token}` with that user's id and role; emails stay unique, products stay unchanged |
| `Server.Store.Login` | Backend/index.js:80-94 | read-only; succeeds iff a stored user has the email and password, with that user's claims and role; unknown email and wrong password give their two errors |
| `Server.Store.AddProduct` | Backend/index.js:97-112 | appends exactly one product with id last + 1 (1 when empty) and `available = true`; the new id exceeds all stored ids; users unchanged; reply `{success:true, name}`; ids stay increasing |
| `Server.Store.AllProducts` | Backend/index.js:115-118 | read-only; returns exactly the stored product sequence, whose ids increase |

## Left out

- Express setup, JSON parsing, CORS, `app.listen` and the static `/images` route are HTTP plumbing. The static route appears only as the URL shape.
- The Mongoose connection and the model machinery are replaced by in-memory sequences. This includes the `_id` and `__v` fields Mongoose adds to every document, which `/allproducts` also sends; the model's records do not carry them.
- JWT signing and its secret are foreign cryptography. A token is its claims payload.
- `Date.now()` and `path.extname` are library calls. Their results are parameters of `ImageUpload.Upload`.
- The multer disk write and file contents are filesystem I/O. So is serving the file back.
- Concurrent requests and the check-then-insert races they allow are left out. The model handles one request at a time.
- The `date` field of both schemas (a `Date.now` default) is left out. So are Mongoose `required` validation failures: inputs are taken as well-typed, with strings as strings and prices as numbers.
- Server.Store.Signup: the Mongo ObjectId is represented by the user's insertion position. The model captures only its uniqueness, not its bytes or string form.
- Catalog.NextIdIsMaxPlusOne: ids are unbounded integers. The model does not capture the loss of precision of JavaScript numbers above 2^53 or non-integer ids.
- ImageUpload.Decimal: only non-negative integer timestamps are written. JavaScript's exponent notation for numbers of 10^21 and above is not modelled.
- ImageUpload.Upload: for a field other than `product`, the failure is multer's error, shown here as the same server error. Express's error page is not modelled.
- No endpoint hashes passwords or checks a token, so neither is modelled. Passwords are stored and compared as plain text, as the code does.
- ImageUpload.Upload: a request carries at most one file. A second file under `product` is refused by `upload.single` with multer's error, a 500, and that request cannot be expressed here.
