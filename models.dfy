/**
 * The records and enumerations shared by client and server: `Funko`, `Request`,
 * `Response`, and the user and token types the server works with.
 */
module Models {
  import opened Wrappers

  /** A `java.util.UUID`: two 64-bit halves; only equality matters to the model. */
  datatype Uuid = Uuid(mostSigBits: int, leastSigBits: int)

  /** A `java.time.LocalDate`; only the year is ever inspected. */
  datatype LocalDate = LocalDate(year: int, month: int, day: int)

  /** The `Modelo` enumeration, identified by its constant's name. */
  datatype Modelo = Modelo(name: string)

  /** The `Funko` record; the price is carried along but never inspected. */
  datatype Funko = Funko(codigo: Uuid, nombre: string, modelo: Modelo, precio: real, fechaLanzamiento: LocalDate)

  /** `User.Role`. */
  datatype Role = ADMIN | USER

  /** A BCrypt hash, recorded by the plain text it was computed from (the salt is random). */
  datatype PasswordHash = BcryptHash(plain: string)

  /** The `User` record: id, user name, password hash and role. */
  datatype User = User(id: int, username: string, password: PasswordHash, role: Role)

  /** The body of a LOGIN request. */
  datatype Login = Login(username: string, password: string)

  /** `Request.Type`. */
  datatype RequestType =
    | LOGIN | FECHA | UUID | SALIR | OTRO | GETALL | GETBYID | GETBYUUID
    | POST | UPDATE | DELETE | DELETEALL | GETBYMODELO | GETBYYEAR

  /** `Response.Status`. */
  datatype Status = OK | ERROR | UNAUTHORIZED | EXIT | TOKEN

  /** The JSON text of a request's content, before it is bound to a parameter type. */
  datatype Json = Json(text: string)

  /**
   * A request as Gson decodes it: a missing `type` or `token` field decodes to `null`,
   * so both are optional.
   */
  datatype Request = Request(kind: Option<RequestType>, content: Json, token: Option<string>, createdAt: string)

  /** What a response carries. */
  datatype Content =
    | Text(text: string)
    | FunkoItem(funko: Funko)
    | FunkoItems(funkos: seq<Funko>)
    | Null

  /** The `Response` record. */
  datatype Response = Response(status: Status, content: Content, createdAt: string)

  /** The claims of a verified JWT that the handlers read; a missing claim is `null`. */
  datatype Claims = Claims(id: Option<int>, username: Option<string>)
}
