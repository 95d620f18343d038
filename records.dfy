/** The two document collections of the shop backend (the Users and Product
    schemas), the request bodies of its handlers, the JWT claims payload and
    the JSON replies the handlers send. */
module Records {

  datatype Option<+T> = None | Some(value: T)

  /** A stored user. `id` stands for the store-assigned document id; the
      schema's `date` field is not modelled. */
  datatype User = User(
    id: nat,
    name: string,
    email: string,
    password: string,
    role: string,
    isApproved: bool)

  /** A stored product. Prices are carried through unchanged, never computed on. */
  datatype Product = Product(
    id: int,
    name: string,
    image: string,
    category: string,
    newPrice: real,
    oldPrice: real,
    sellerEmail: Option<string>,
    available: bool)

  /** Body of POST /signup; `role` is absent when the client sends none. */
  datatype SignupRequest = SignupRequest(
    username: string,
    email: string,
    password: string,
    role: Option<string>)

  /** Body of POST /addproduct. */
  datatype ProductRequest = ProductRequest(
    name: string,
    image: string,
    category: string,
    newPrice: real,
    oldPrice: real,
    sellerEmail: Option<string>)

  /** The payload a signed token carries: `{ user: { id, role } }`. */
  datatype ClaimUser = ClaimUser(id: nat, role: string)
  datatype Claims = Claims(user: ClaimUser)

  /** What a handler sends back. */
  datatype Response =
    | Rejected(status: nat, errors: string)   // { success: false, errors }
    | TokenIssued(token: Claims)              // { success: true, token }
    | LoggedIn(token: Claims, role: string)   // { success: true, token, role }
    | ProductAdded(name: string)              // { success: true, name }
    | ImageStored(imageUrl: string)           // { success: 1, image_url }
    | ServerError                             // an exception reaches Express: status 500
  {
    /** The HTTP status of the reply. */
    function Status(): nat {
      match this
      case Rejected(status, _) => status
      case ServerError => 500
      case _ => 200
    }
  }

  const HTTP_OK: nat := 200
  const HTTP_BAD_REQUEST: nat := 400

  const EMAIL_EXISTS := "Email already exists"
  const WRONG_EMAIL := "Wrong Email Id"
  const WRONG_PASSWORD := "Wrong Password"
}
