/**
 * The three collections' records, the identity a signed token carries, the
 * views of a user that leave the password hash out, the route outcomes with
 * their status codes and messages, and the partial-update merges that the
 * PUT routes apply to a store or a product.
 */
module Records {
  import opened Js

  // Roles are free strings: registration stores whatever role the body carries.
  const ADMIN := "admin"
  const STORE_OWNER := "store_owner"
  const USER := "user"

  const ACTIVE := "active"
  const DEFAULT_IMAGE := "https://images.pexels.com/photos/230544/pexels-photo-230544.jpeg"

  /** A user record; `password` holds the bcrypt hash, never the plain text. */
  datatype User = User(id: string, email: string, password: string, name: string, role: string, createdAt: string)

  /** A store record; `ownerId` is absent when an admin created it without one. */
  datatype Store = Store(
    id: string, name: string, description: string, category: string,
    ownerId: Option<string>, status: string, createdAt: string, updatedAt: Option<string>)

  /** A product record; prices are whole numbers here (see README). */
  datatype Product = Product(
    id: string, name: string, description: string, price: int, stock: int,
    category: string, storeId: string, image: string, createdAt: string, updatedAt: Option<string>)

  /** The claims a token is signed over. */
  datatype Claims = Claims(id: string, email: string, role: string)

  /** The user object that login and register return. */
  datatype PublicUser = PublicUser(id: string, email: string, name: string, role: string)

  /** A user as the user list returns it: every field but the password hash. */
  datatype SafeUser = SafeUser(id: string, email: string, name: string, role: string, createdAt: string)

  /** What login and register answer with: the claims of the issued token and the user. */
  datatype Session = Session(claims: Claims, user: PublicUser)

  /** A route's answer: a success code with its payload, or an error code with its message. */
  datatype Result<T> = Ok(code: int, value: T) | Fail(code: int, error: string) {
    /** The same failure, as the answer of a route with another payload type. */
    function Propagate<U>(): Result<U>
      requires Fail?
    {
      Fail(code, error)
    }
  }

  const TOKEN_REQUIRED := "Access token required"
  const TOKEN_INVALID := "Invalid or expired token"
  const INSUFFICIENT_PERMISSIONS := "Insufficient permissions"
  const CREDENTIALS_REQUIRED := "Email and password are required"
  const INVALID_CREDENTIALS := "Invalid credentials"
  const ALL_FIELDS_REQUIRED := "All fields are required"
  const USER_EXISTS := "User already exists"
  const USER_NOT_FOUND := "User not found"
  const USER_DELETED := "User deleted successfully"
  const STORE_NOT_FOUND := "Store not found"
  const STORE_DELETED := "Store deleted successfully"
  const PRODUCT_NOT_FOUND := "Product not found"
  const PRODUCT_DELETED := "Product deleted successfully"
  const ACCESS_DENIED := "Access denied"

  // Keys, as functions, for stating that a collection has no duplicates.
  function IdOfUser(u: User): string { u.id }
  function EmailOfUser(u: User): string { u.email }
  function IdOfStore(s: Store): string { s.id }
  function IdOfProduct(p: Product): string { p.id }
  function StockOf(p: Product): int { p.stock }
  function ValueOf(p: Product): int { p.price * p.stock }

  /** The role a registration stores: the body's role, or "user" only when the body has none. */
  function RegisteredRole(role: Option<string>): (r: string)
    ensures role.None? ==> r == USER
    ensures role.Some? ==> r == role.value
  {
    match role
    case None => USER
    case Some(x) => x
  }

  /** The claims a token is issued with and the user object returned beside it. */
  function SessionOf(u: User): (s: Session)
    ensures s.claims.id == u.id && s.claims.email == u.email && s.claims.role == u.role
    ensures s.user.id == u.id && s.user.email == u.email && s.user.name == u.name && s.user.role == u.role
  {
    Session(Claims(u.id, u.email, u.role), PublicUser(u.id, u.email, u.name, u.role))
  }

  /** The user list's view of a user: the record without its password hash. */
  function SafeView(u: User): (v: SafeUser)
    ensures v.id == u.id && v.email == u.email && v.name == u.name && v.role == u.role && v.createdAt == u.createdAt
  {
    SafeUser(u.id, u.email, u.name, u.role, u.createdAt)
  }

  /** No response about a user depends on its password hash. */
  lemma ViewsHidePassword(u: User, hash: string)
    ensures SessionOf(u.(password := hash)) == SessionOf(u)
    ensures SafeView(u.(password := hash)) == SafeView(u)
  {
  }

  /** `x || old`: a falsy request field keeps the stored value. */
  function Or(x: string, current: string): (r: string)
    ensures Truthy(x) ==> r == x
    ensures !Truthy(x) ==> r == current
  {
    if x != "" then x else current
  }

  /** `x !== undefined ? x : old`: a supplied number replaces the stored one, 0 included. */
  function IfDefined(x: Option<int>, current: int): (r: int)
    ensures x.Some? ==> r == x.value
    ensures x.None? ==> r == current
  {
    match x
    case Some(v) => v
    case None => current
  }

  /** The store PUT merge: only truthy fields overwrite, the identity and owner stay, the stamp is set. */
  function MergeStore(s: Store, name: string, description: string, category: string, status: string, now: string): (r: Store)
    ensures r.id == s.id && r.ownerId == s.ownerId && r.createdAt == s.createdAt
    ensures r.name == (if Truthy(name) then name else s.name)
    ensures r.description == (if Truthy(description) then description else s.description)
    ensures r.category == (if Truthy(category) then category else s.category)
    ensures r.status == (if Truthy(status) then status else s.status)
    ensures r.updatedAt == Some(now)
  {
    s.(name := Or(name, s.name), description := Or(description, s.description),
       category := Or(category, s.category), status := Or(status, s.status), updatedAt := Some(now))
  }

  /** The product PUT merge: price and stock replaced iff supplied, text fields only when truthy, storeId never. */
  function MergeProduct(p: Product, name: string, description: string, price: Option<int>, stock: Option<int>,
                        category: string, image: string, now: string): (r: Product)
    ensures r.id == p.id && r.storeId == p.storeId && r.createdAt == p.createdAt
    ensures r.name == (if Truthy(name) then name else p.name)
    ensures r.description == (if Truthy(description) then description else p.description)
    ensures r.price == (if price.Some? then price.value else p.price)
    ensures r.stock == (if stock.Some? then stock.value else p.stock)
    ensures r.category == (if Truthy(category) then category else p.category)
    ensures r.image == (if Truthy(image) then image else p.image)
    ensures r.updatedAt == Some(now)
  {
    p.(name := Or(name, p.name), description := Or(description, p.description),
       price := IfDefined(price, p.price), stock := IfDefined(stock, p.stock),
       category := Or(category, p.category), image := Or(image, p.image), updatedAt := Some(now))
  }

  /** Repeating a store update gives the same record, apart from the later stamp. */
  lemma MergeStoreIdempotent(s: Store, name: string, description: string, category: string, status: string, t1: string, t2: string)
    ensures MergeStore(MergeStore(s, name, description, category, status, t1), name, description, category, status, t2)
         == MergeStore(s, name, description, category, status, t2)
  {
  }

  /** Repeating a product update gives the same record, apart from the later stamp. */
  lemma MergeProductIdempotent(p: Product, name: string, description: string, price: Option<int>, stock: Option<int>,
                               category: string, image: string, t1: string, t2: string)
    ensures MergeProduct(MergeProduct(p, name, description, price, stock, category, image, t1),
                         name, description, price, stock, category, image, t2)
         == MergeProduct(p, name, description, price, stock, category, image, t2)
  {
  }
}
