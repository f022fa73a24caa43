# Store administration backend and client guards, modelled in Dafny

The system is a small store administration application. An Express server
keeps three collections (users, stores, products) and exposes REST routes
guarded by a bearer-token middleware and a role gate (`admin`, `store_owner`,
`user`). A React client filters the lists it receives and guards its pages by
role.

This project models:

- the server's route logic as a class `Server.Db`. The class holds the three
  collections as sequences and has one method per route. Each method answers
  with a `Result`: a status code and a payload or an error message. A failing
  route leaves the collections as they were.
- the shared access policy (`Access`): the token middleware, the role gate,
  the ownership tests and the role-scoped listings.
- the dashboard figures (`Dashboard`).
- the JavaScript built-ins the code relies on (`Js`): `filter`, `findIndex`,
  `splice`, `reduce`, `split`, `includes`, `toLowerCase`. Each is modelled as
  a function, and the properties the routes need are proved about it.
  `splice(i, 1)` is defined only on indices inside the array. Those are the
  only indices the routes pass, because each comes from a successful
  `findIndex`.
- the client's list filters, store-name lookup and status badge
  (`Search`, `ProductsPage`, `StoresPage`).
- the client's `ProtectedRoute` decision, its route table and the login page's redirect of a signed-in user (`AppRoutes`).

Things the model does not compute itself become parameters:

- the token check becomes `verify: string -> Option<Claims>`, which stands for
  the signature and expiry check.
- the password comparison becomes `compare`.
- the bcrypt hash of a new password, fresh ids and the current time are passed
  in. The fresh id's freshness is a precondition.

Request body text fields are strings. The empty string stands for both an
absent and an empty field, because the routes only test them for
truthiness. There are three exceptions, where the routes tell a missing field
apart from a falsy one:

- the registration role (`role = 'user'` applies only when it is absent) is an
  `Option<string>`.
- an admin's `ownerId` is an `Option<string>`.
- a product's `price` and `stock` are `Option<int>`. A value of 0 is falsy for
  creation but replaces the stored value on update.

The invariant `Server.Db.Valid` says that no two users share an id or an
email, and that no two stores or products share an id. Every mutating route
preserves it.

## Model

| member | source | states |
|---|---|---|
| Js.Filter | server/index.js:248 | `filter` keeps exactly the elements that pass, as an order-preserving subsequence; each passing element is kept as many times as it occurs and every other element not at all; the length is the number of passing elements |
| Js.FilterKeepsAll | server/index.js:248-250 | filtering drops nothing exactly when every element passes, and then returns the input itself |
| Js.FilterCongruent | src/pages/Products.tsx:140-145 | two tests that agree on every element give the same filtered list |
| Js.FilterNarrows | src/pages/Products.tsx:140-145 | a stricter test keeps an order-preserving subsequence of what a looser test keeps |
| Js.FindIndex | server/index.js:310 | `findIndex` is -1 when nothing passes, otherwise the first index that passes |
| Js.RemoveAt | server/index.js:352 | `splice(i, 1)` removes exactly the element at `i`: elements before it stay in place, later ones shift down by one, and the multiset loses exactly that element |
| Js.Sum | server/index.js:506-507 | the `reduce` sum, folded from the left; a sum of non-negative terms is non-negative |
| Js.SumAppend | server/index.js:506-507 | the sum of a concatenation is the sum of the sums of its parts |
| Js.SubseqMembers | server/index.js:248 | every element of a subsequence is an element of the original |
| Js.SubseqKeepsDistinct | server/index.js:248 | deleting elements keeps keys distinct |
| Js.AppendKeepsDistinct | server/index.js:210 | appending a record with a new key keeps keys distinct |
| Js.RemoveAtKeepsDistinct | server/index.js:352 | splicing out one record keeps keys distinct |
| Js.ReplaceKeepsDistinct | server/index.js:321-328 | replacing a record by one with the same key keeps keys distinct |
| Js.IndexOf | server/index.js:125 | a helper of the `split` model (the source calls no `indexOf`): the first position of a character, or -1 exactly when it does not occur |
| Js.Split | server/index.js:125 | `split` gives at least one field, no field contains the separator, and joining the fields with it gives back the string |
| Js.SplitHead | server/index.js:125 | the first field is a prefix; there is a single field exactly when the string has no separator; otherwise the remaining fields are the split of what follows the first separator |
| Js.FieldAfter | server/index.js:125 | the first field after position `k` starts at `k + 1` and ends at the end of the string or at a separator |
| Js.SplitJoin | server/index.js:125 | splitting a join of separator-free fields gives back those fields |
| Js.OccursStep | src/pages/Products.tsx:141-142 | an occurrence not at the start of a string is an occurrence in its tail, shifted by one |
| Js.Includes | src/pages/Products.tsx:141-142 | `includes` holds exactly when the needle occurs at some offset; the empty needle is always included |
| Js.IncludesPrefix | src/pages/Products.tsx:141-142 | wherever a needle occurs, each of its prefixes occurs too |
| Js.Lower | src/pages/Products.tsx:141-142 | `toLowerCase` keeps the length and lower-cases each ASCII letter in place |
| Js.LowerKeepsPrefix | src/pages/Products.tsx:141-142 | lower-casing maps a prefix to a prefix |
| Js.LowerIsIdempotent | src/pages/Products.tsx:141-142 | lower-casing twice equals lower-casing once, and no upper-case ASCII letter survives it |
| Records.RegisteredRole | server/index.js:188 | a registration without a role stores "user"; a supplied role is stored as given, whatever it is |
| Records.SessionOf | server/index.js:166-180 | the token claims carry the user's id, email and role; the response user carries its id, email, name and role |
| Records.SafeView | server/index.js:237 | the user-list entry keeps every field except the password |
| Records.ViewsHidePassword | server/index.js:172-180 | the login and register responses and the user-list entry do not depend on the password hash |
| Records.Or | server/index.js:323-327 | `x \|\| current` keeps the stored value exactly when the supplied one is falsy |
| Records.IfDefined | server/index.js:441-442 | a supplied number replaces the stored one, 0 included; an absent one keeps it |
| Records.MergeStore | server/index.js:321-328 | the store update keeps id, owner and creation time; each of name, description, category and status is overwritten exactly when the supplied value is truthy; `updatedAt` is set |
| Records.MergeProduct | server/index.js:437-446 | the product update never changes `storeId`, id or creation time; price and stock are replaced exactly when supplied; text fields are replaced only when truthy; `updatedAt` is set |
| Records.MergeStoreIdempotent | server/index.js:321-328 | repeating a store update changes nothing but the stamp |
| Records.MergeProductIdempotent | server/index.js:437-446 | repeating a product update changes nothing but the stamp |
| Access.BearerToken | server/index.js:124-125 | a header yields a second field exactly when it is present and contains a space; that field never contains a space |
| Access.Presented | server/index.js:125-129 | a token is presented only by a header with a space; a header with a space that presents none has an empty second field (`"Bearer "`) |
| Access.BearerTokenShape | server/index.js:124-125 | the token is the space-free run right after the header's first space |
| Access.FirstFieldEndsAtFirstSpace | server/index.js:125 | when a header splits into several fields, the first field ends at the first space |
| Access.Authenticate | server/index.js:123-138 | a missing or empty token gives exactly 401 "Access token required"; a token the verifier rejects gives exactly 403 "Invalid or expired token"; otherwise the request carries the verified claims |
| Access.RequireRole | server/index.js:141-148 | authentication failures pass through; a role outside the list gives 403 "Insufficient permissions"; a listed role passes unchanged |
| Access.OnlyEditorsPassTheGate | server/index.js:141-148 | the mutation routes' gate lets a request through exactly when it authenticates as admin or store_owner |
| Access.IndexOfEmail | server/index.js:160 | the first user with an exactly equal email, or -1 when there is none |
| Access.IndexOfStore | server/index.js:310 | the first store with the id, or -1 when there is none |
| Access.IndexOfProduct | server/index.js:422 | the first product with the id, or -1 when there is none |
| Access.IndexOfStoreUnique | server/index.js:389 | with distinct store ids, looking up a store's id finds that store |
| Access.MayEditStore | server/index.js:316-319 | a store owner passes exactly for a store it owns; any other role passes |
| Access.MayEditProductsOf | server/index.js:386-393 | a store owner passes exactly when the first store with the id exists and is its own; any other role passes |
| Access.OwnedStores | server/index.js:267 | exactly the stores owned by the id, in order, each as many times as it occurs |
| Access.StoreIds | server/index.js:367 | the id of each store, position by position |
| Access.ProductsOf | server/index.js:368 | exactly the products whose `storeId` is among the ids, in order, each as many times as it occurs |
| Access.VisibleStores | server/index.js:262-275 | a store owner lists exactly its own stores, in order and with their multiplicities; any other role lists all stores unchanged |
| Access.VisibleProducts | server/index.js:361-376 | a store owner lists exactly the products of stores it owns, in order and with their multiplicities; any other role lists all products unchanged |
| Access.OwnerEditsExactlyVisibleProducts | server/index.js:429-435 | with distinct store ids, a store owner passes the product ownership test exactly for the products it lists |
| Access.OwnerEditsExactlyVisibleStores | server/index.js:315-318 | a store owner passes the store ownership test exactly for the stores it lists |
| Dashboard.ActiveStores | server/index.js:496 | the stores whose status is "active", in order and with their multiplicities; its length is the number of active stores, and equals the store count exactly when all are active |
| Dashboard.StatsFor | server/index.js:483-520 | admin gets the collection sizes and the number of active stores; a store owner's store and product totals are the lengths of its own store and product listings, and stock and value are summed over that product listing; any other role gets the number of active stores and the product count; an active count equals the store count exactly when every store is active |
| Dashboard.OwnerStockNonNegative | server/index.js:506 | a store owner's total stock is non-negative when every product's stock is |
| Server.WithoutUser | server/index.js:248-250 | every user with the id is removed and the others keep their order and multiplicities; the length is unchanged exactly when no user has the id |
| Server.Db.constructor | server/index.js:109-116 | a missing data file reads as an empty collection, so the store starts empty and valid |
| Server.Db.Login | server/index.js:151-184 | a falsy email or password gives 400; success exactly when the first user with the email exists and the password compares; the response is that user's claims and public fields; an unknown email and a wrong password give the same 401 |
| Server.Db.Register | server/index.js:186-231 | a falsy field gives 400 and a duplicate email gives 400 "User already exists", both with users unchanged; otherwise exactly one user is appended, with the hash, the fresh id and the role given or "user", and the response is 201; the invariant is kept |
| Server.Db.ListUsers | server/index.js:234-242 | admins only; every user in order, without its password |
| Server.Db.DeleteUser | server/index.js:244-259 | admins only; 404 exactly when no user has the id; otherwise every user with the id is removed and the rest keep their order; stores and products are untouched |
| Server.Db.ListStores | server/index.js:262-275 | any authenticated caller; the role-scoped store listing |
| Server.Db.CreateStore | server/index.js:277-302 | gate, then 400 for a falsy name, description or category; the appended store is active, and is owned by the caller when the caller is a store owner or by the body's `ownerId` otherwise; 201 |
| Server.Db.UpdateStore | server/index.js:304-335 | gate first, then 404, then 403 for a store owner's foreign store; only the record at the first matching index is replaced, by its merge; everything else is unchanged |
| Server.Db.DeleteStore | server/index.js:337-358 | same order of checks; exactly the first store with the id is spliced out; the products collection is untouched |
| Server.Db.ListProducts | server/index.js:361-376 | any authenticated caller; the role-scoped product listing |
| Server.Db.CreateProduct | server/index.js:378-414 | gate, then 400 for a falsy field (a price or stock of 0 included), then, for a store owner only, 403 unless the named store exists and is its own; the appended product has the default image when none is given; 201 |
| Server.Db.UpdateProduct | server/index.js:416-453 | gate, then 404, then 403 for a store owner whose product's store is missing or foreign; only the first matching record is replaced, by its merge, and its `storeId` is kept |
| Server.Db.DeleteProduct | server/index.js:455-480 | same order of checks; exactly the first product with the id is spliced out; stores are untouched |
| Server.Db.DashboardStats | server/index.js:483-520 | any authenticated caller; the figures for its role |
| Server.Db.OwnerEditsListedProducts | server/index.js:422-435 | with the collections valid, a store owner's product update passes the ownership test exactly for a product its product listing shows; the delete route makes the same test |
| Server.Db.OwnerEditsListedStores | server/index.js:310-318 | a store owner's store update passes the ownership test exactly for a store its store listing shows; the delete route makes the same test |
| Server.Db.CardNamesOwnStore | src/pages/Products.tsx:147-150 | with the collections valid, the store name a product card shows for a store's id is that store's name |
| Search.MatchesSearch | src/pages/Products.tsx:141-142 | a record matches exactly when the lower-cased term occurs somewhere in its lower-cased name or description; the empty term matches every record |
| Search.MatchesCategory | src/pages/Products.tsx:143 | with a category selected, exactly the records of that category pass; with none selected, every record passes |
| Search.LongerTermNarrows | src/pages/Stores.tsx:111-112 | a record that matches a term also matches every prefix of it |
| ProductsPage.FilteredProducts | src/pages/Products.tsx:140-145 | an order-preserving subsequence of the products, with each kept product as many times as it occurs: a product is kept exactly when its lower-cased name or description contains the lower-cased term and its category passes; with a category selected, every kept product has exactly that category |
| ProductsPage.EmptyQueryShowsAll | src/pages/Products.tsx:141-143 | with an empty term and no category selected, every product is kept, in order |
| ProductsPage.FilterIgnoresTermCase | src/pages/Products.tsx:141-142 | terms that lower-case alike give the same list |
| ProductsPage.RefiningNarrows | src/pages/Products.tsx:140-145 | extending the term or selecting a category keeps a subsequence of the earlier list |
| ProductsPage.StoreName | src/pages/Products.tsx:147-150 | "Unknown Store" when no store has the id, otherwise the name of the first store with the id |
| ProductsPage.StoreNameOfKnownStore | src/pages/Products.tsx:147-150 | with distinct store ids, the name shown is the name of the store with that id |
| StoresPage.FilteredStores | src/pages/Stores.tsx:110-115 | an order-preserving subsequence of the stores, with each kept store as many times as it occurs: a store is kept exactly when its lower-cased name or description contains the lower-cased term and its category passes; with a category selected, every kept store has exactly that category |
| StoresPage.EmptyQueryShowsAll | src/pages/Stores.tsx:111-113 | with an empty term and no category selected, every store is kept, in order |
| StoresPage.RefiningNarrows | src/pages/Stores.tsx:110-115 | extending the term or selecting a category keeps a subsequence of the earlier list |
| StoresPage.StatusColor | src/pages/Stores.tsx:117-126 | the green badge exactly for "active", the red badge exactly for "inactive", the gray badge exactly for any other status |
| AppRoutes.Guard | src/App.tsx:13-36 | loading shows the spinner; otherwise no user redirects to /login; a role list without the user's role redirects to /dashboard; otherwise the route's element is shown |
| AppRoutes.Trimmed | src/App.tsx:40-84 | a path with its trailing slashes removed: a prefix of it that does not end in a slash, followed in the path only by slashes |
| AppRoutes.Lookup | src/App.tsx:40-84 | a route whose path matches the location, ignoring letter case and trailing slashes as React Router does by default, or none exactly when no route matches |
| AppRoutes.LookupFinds | src/App.tsx:40-84 | the lookup returns the first route that matches |
| AppRoutes.LookupByKey | src/App.tsx:40-84 | locations that agree once case is folded and trailing slashes are dropped find the same route |
| AppRoutes.LoginScreen | src/pages/Login.tsx:21-23 | the login page sends a signed-in user on to /dashboard and shows the form to anybody else |
| AppRoutes.Visit | src/App.tsx:40-84 | a location that matches no route renders nothing; /login is not guarded, and sends a signed-in user on to /dashboard and shows the form to anybody else |
| AppRoutes.VisitByKey | src/App.tsx:40-84 | locations that differ only in letter case or trailing slashes show the same screen |
| AppRoutes.UsersPathVariants | src/App.tsx:56-62 | `/Users/` shows the same screen as `/users` |
| AppRoutes.OnlyLoginIsOpen | src/App.tsx:41-83 | every route other than /login is wrapped in the guard, and its element is not the login form |
| AppRoutes.RouteKeys | src/App.tsx:41-83 | the match keys of the seven route paths, which are pairwise different |
| AppRoutes.SignedOutGoesToLogin | src/App.tsx:27-29 | every location that matches a route other than /login redirects a visitor without a session to /login |
| AppRoutes.LoadingShowsSpinner | src/App.tsx:19-25 | while loading, every location that matches a guarded route shows the spinner and neither its element nor a redirect |
| AppRoutes.OnlyAdminsSeeUsers | src/App.tsx:56-62 | /users renders exactly for admins; any other signed-in role is redirected to /dashboard |
| AppRoutes.SignedInReachesOpenPages | src/App.tsx:49-83 | a signed-in user of any role gets the dashboard page at /dashboard, the stores page at /stores, the products page at /products and the profile page at /profile |
| AppRoutes.RootLeadsToDashboard | src/App.tsx:42-48 | a signed-in user who opens / is sent on to /dashboard |
| AppRoutes.SignedInNeverSeesLoginForm | src/pages/Login.tsx:21-23 | a signed-in user sees the login form at no location, loading or not |

## Left out

- File persistence: reading and writing the JSON files and the start-up seeding of demo users and products. The collections live in memory. A missing file reads as empty, which is the constructor's state.
- JWT signing and verification and bcrypt hashing and comparison are parameters of the routes. Token contents other than the claims, the 24-hour expiry and the secret are not modelled.
- Id generation and clocks: fresh ids and timestamps are parameters. Id freshness is a precondition of the routes that create records.
- `parseFloat` and `parseInt`: prices and stock are whole numbers. Fractional prices, `NaN` from unparsable input and floating-point rounding of the dashboard's total value are not modelled.
- Request fields of other JSON types (numbers where strings are expected, and so on) are not modelled. Text fields are strings; "" stands for both an absent and an empty field.
- The 500 "Server error" answers, which only arise from failed file I/O or library calls.
- Express routing, CORS and JSON encoding. The response body is the `Result` payload.
- Concurrent requests and their read-modify-write races: each route runs alone.
- React rendering, hooks, state, toasts, the network layer and the pages' forms and charts (the login form, the profile page, the dashboard charts). Of the login page only its redirect of a signed-in user is modelled.
- `toLowerCase` lower-cases ASCII letters only; Unicode case mapping is not modelled.
- AppRoutes.Lookup: route matching folds ASCII case and drops trailing slashes only. Percent-decoding of the location, Unicode case folding and React Router's ranking of dynamic segments are not modelled; the table has only static paths.
- Js.RemoveAt: `splice(i, 1)` is modelled only for an index inside the array, the only case the routes reach.
- The registration route stores whatever role the request names, `admin` included (`Records.RegisteredRole`, `Server.Db.Register`). The model keeps this behaviour as written.
