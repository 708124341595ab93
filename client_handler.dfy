/**
 * `ClientHandler`: the per-connection request loop of the server. Handlers are found by
 * reflection over annotated methods; here each method is described by a `HandlerMethod`
 * value, and JSON decoding, token verification and handler bodies are inputs in an `Env`.
 */
module ClientHandler {
  import opened Wrappers
  import opened Models
  import UsersRepository
  import FunkoService
  import Lru

  // ----- Reflection, as data -----

  /** The declared Java types that binding distinguishes. */
  datatype ParamType =
    | DecodedJwtType | ObjectType | StringType | LoginType | UuidType | IntegerType | ModeloType | FunkoType

  /** `to.isAssignableFrom(from)` among the modelled types: the same class, or `Object`. */
  predicate Assignable(to: ParamType, from: ParamType) {
    to == from || to == ObjectType
  }

  /** `Class.getName()`. */
  function TypeName(t: ParamType): string {
    match t
    case DecodedJwtType => "com.auth0.jwt.interfaces.DecodedJWT"
    case ObjectType => "java.lang.Object"
    case StringType => "java.lang.String"
    case LoginType => "dev.common.models.Login"
    case UuidType => "java.util.UUID"
    case IntegerType => "java.lang.Integer"
    case ModeloType => "dev.server.database.models.Modelo"
    case FunkoType => "dev.common.models.Funko"
  }

  /** A method parameter with its `@RequestToken` and `@RequestBody` annotations. */
  datatype Parameter = Parameter(name: string, paramType: ParamType, requestToken: bool, requestBody: bool)

  /**
   * A declared method: the type of its `@RequestHandler` annotation if it has one, whether
   * its return type is `Response`, whether it is `@Authorized`, and its parameters.
   */
  datatype HandlerMethod = HandlerMethod(
    name: string,
    requestHandler: Option<RequestType>,
    returnsResponse: bool,
    authorized: bool,
    parameters: seq<Parameter>)

  /** A request body as Gson decodes it into a parameter's type. */
  datatype Value =
    | LoginValue(login: Login)
    | UuidValue(uuid: Uuid)
    | IntegerValue(n: int)
    | ModeloValue(modelo: Modelo)
    | FunkoValue(funko: Funko)

  /** `value.getClass()`. */
  function ClassOf(v: Value): ParamType {
    match v
    case LoginValue(_) => LoginType
    case UuidValue(_) => UuidType
    case IntegerValue(_) => IntegerType
    case ModeloValue(_) => ModeloType
    case FunkoValue(_) => FunkoType
  }

  /** An element of the `args` list: the (possibly null) verified token, or a decoded body. */
  datatype Arg = TokenArg(token: Option<Claims>) | BodyArg(value: Value)

  /** `ClientHandler.class.getName()`. */
  const CLIENT_HANDLER_CLASS: string := "dev.server.ClientHandler"

  // ----- registerHandlers -----

  /** A `@RequestHandler` method whose return type is not `Response`. */
  predicate BadReturnType(m: HandlerMethod) {
    m.requestHandler.Some? && !m.returnsResponse
  }

  /** The message of the `IllegalArgumentException` thrown for a bad return type. */
  function ReturnTypeMessage(m: HandlerMethod, className: string): string {
    "El método " + m.name + " de " + className + " debe devolver una respuesta"
  }

  /** The handler table after registration, and the message of the exception that ended it, if any. */
  datatype Registration = Registration(handlers: map<RequestType, HandlerMethod>, error: Option<string>)

  /**
   * `registerHandlers` over the declared methods in order: an annotated method is stored
   * under its type (replacing an earlier one); the first one with a bad return type throws,
   * leaving the entries stored before it in place.
   */
  function Register(handlers: map<RequestType, HandlerMethod>, methods: seq<HandlerMethod>, className: string): Registration
    decreases |methods|
  {
    if methods == [] then Registration(handlers, None)
    else
      var m := methods[0];
      if BadReturnType(m) then Registration(handlers, Some(ReturnTypeMessage(m, className)))
      else if m.requestHandler.Some? then Register(handlers[m.requestHandler.value := m], methods[1..], className)
      else Register(handlers, methods[1..], className)
  }

  /** The entry one method contributes. */
  function Entry(m: HandlerMethod): map<RequestType, HandlerMethod> {
    if m.requestHandler.Some? then map[m.requestHandler.value := m] else map[]
  }

  /** The entries of all annotated methods, a later one overriding an earlier one of the same type. */
  function Overlay(methods: seq<HandlerMethod>): map<RequestType, HandlerMethod>
    decreases |methods|
  {
    if methods == [] then map[] else Entry(methods[0]) + Overlay(methods[1..])
  }

  /** Registration fails exactly when some annotated method has a bad return type; otherwise it overlays the entries. */
  lemma {:induction false} RegisterIsOverlay(handlers: map<RequestType, HandlerMethod>, methods: seq<HandlerMethod>, className: string)
    ensures Register(handlers, methods, className).error.None? <==> forall i :: 0 <= i < |methods| ==> !BadReturnType(methods[i])
    ensures Register(handlers, methods, className).error.None? ==>
      Register(handlers, methods, className).handlers == handlers + Overlay(methods)
    decreases |methods|
  {
    if methods != [] {
      var m := methods[0];
      if BadReturnType(m) {
        assert Register(handlers, methods, className).error.Some?;
      } else {
        var next := if m.requestHandler.Some? then handlers[m.requestHandler.value := m] else handlers;
        assert Register(handlers, methods, className) == Register(next, methods[1..], className);
        RegisterIsOverlay(next, methods[1..], className);
        WellTypedTail(methods);
        assert next == handlers + Entry(m);
        UnionAssociative(handlers, Entry(m), Overlay(methods[1..]));
      }
    }
  }

  /** Past a well-typed first method, all methods are well typed exactly when the rest are. */
  lemma WellTypedTail(methods: seq<HandlerMethod>)
    requires methods != [] && !BadReturnType(methods[0])
    ensures (forall i :: 0 <= i < |methods| ==> !BadReturnType(methods[i]))
      <==> (forall i :: 0 <= i < |methods[1..]| ==> !BadReturnType(methods[1..][i]))
  {
    assert forall i :: 1 <= i < |methods| ==> methods[i] == methods[1..][i - 1];
  }

  /** The first method with a bad return type stops registration with its message; the earlier entries stay. */
  lemma {:induction false} RegisterStopsAtFirstBad(handlers: map<RequestType, HandlerMethod>, methods: seq<HandlerMethod>, className: string, i: nat)
    requires i < |methods| && BadReturnType(methods[i])
    requires forall j :: 0 <= j < i ==> !BadReturnType(methods[j])
    ensures Register(handlers, methods, className)
      == Registration(Register(handlers, methods[..i], className).handlers, Some(ReturnTypeMessage(methods[i], className)))
    ensures Register(handlers, methods[..i], className).error.None?
    decreases i
  {
    if i > 0 {
      var m := methods[0];
      var next := if m.requestHandler.Some? then handlers[m.requestHandler.value := m] else handlers;
      assert methods[..i][0] == m && methods[..i][1..] == methods[1..][..i - 1];
      RegisterStopsAtFirstBad(next, methods[1..], className, i - 1);
    }
  }

  /** A type is in the table exactly when some method names it; the method stored is the last to name it. */
  lemma {:induction false} OverlayLastWins(methods: seq<HandlerMethod>, t: RequestType)
    ensures t in Overlay(methods) <==> exists i :: 0 <= i < |methods| && methods[i].requestHandler == Some(t)
    ensures t in Overlay(methods) ==> exists i :: (0 <= i < |methods| && methods[i].requestHandler == Some(t)
      && Overlay(methods)[t] == methods[i]
      && forall j :: i < j < |methods| ==> methods[j].requestHandler != Some(t))
    decreases |methods|
  {
    if methods != [] {
      var rest := methods[1..];
      OverlayLastWins(rest, t);
      assert forall i :: 1 <= i < |methods| ==> methods[i] == rest[i - 1];
      if t in Overlay(rest) {
        var i :| 0 <= i < |rest| && rest[i].requestHandler == Some(t) && Overlay(rest)[t] == rest[i]
          && forall j :: i < j < |rest| ==> rest[j].requestHandler != Some(t);
        assert methods[i + 1] == rest[i];
      } else if methods[0].requestHandler == Some(t) {
        assert forall j :: 0 < j < |methods| ==> methods[j].requestHandler != Some(t);
      }
    }
  }

  /** Registering the same methods again, as every new connection does, changes nothing. */
  lemma RegisterTwice(handlers: map<RequestType, HandlerMethod>, methods: seq<HandlerMethod>, className: string)
    requires Register(handlers, methods, className).error.None?
    ensures Register(Register(handlers, methods, className).handlers, methods, className) == Register(handlers, methods, className)
  {
    var once := Register(handlers, methods, className).handlers;
    RegisterIsOverlay(handlers, methods, className);
    RegisterIsOverlay(once, methods, className);
    assert (handlers + Overlay(methods)) + Overlay(methods) == handlers + Overlay(methods);
  }

  /** The static `handlers` map. */
  class HandlerRegistry {
    var handlers: map<RequestType, HandlerMethod>

    constructor()
      ensures handlers == map[]
    {
      handlers := map[];
    }

    /** `registerHandlers(obj)` for the methods `obj`'s class declares. */
    method RegisterHandlers(methods: seq<HandlerMethod>, className: string) returns (error: Option<string>)
      modifies this
      ensures Registration(handlers, error) == Register(old(handlers), methods, className)
    {
      var i := 0;
      while i < |methods|
        invariant 0 <= i <= |methods|
        invariant Register(old(handlers), methods, className) == Register(handlers, methods[i..], className)
      {
        var m := methods[i];
        assert methods[i..][0] == m && methods[i..][1..] == methods[i + 1..];
        if m.requestHandler.Some? {
          if !m.returnsResponse {
            error := Some(ReturnTypeMessage(m, className));
            return;
          }
          handlers := handlers[m.requestHandler.value := m];
        }
        i := i + 1;
      }
      error := None;
    }
  }

  // ----- handleRequest -----

  /** How a handler call ended: with a response, or with an exception; either way with the new state. */
  datatype Invocation<S> = Returned(response: Response, state: S) | Threw(message: string, state: S)

  /**
   * What the handler sees of the world: `gson.fromJson` for the request line (empty on a
   * syntax error or a `null` result), the token service's verification, `gson.fromJson` for a
   * body into a parameter type (empty on an error or `null`), the handler bodies over a
   * state `S`, and the clock at each line.
   */
  datatype Env<!S> = Env(
    parse: string -> Option<Request>,
    verify: string -> Option<Claims>,
    deserialize: (Json, ParamType) -> Option<Value>,
    invoke: (S, HandlerMethod, seq<Arg>) -> Invocation<S>,
    now: nat -> string)

  /**
   * The end of `handleRequest`: a response it builds itself (no handler runs), the handler's
   * response, or an exception, with the state afterwards.
   */
  datatype Outcome<S> = Rejected(response: Response) | Handled(response: Response, state: S) | Failed(message: string, state: S)

  const REQUEST_NO_VALIDA: string := "Request no valida"
  const NO_AUTORIZADO: string := "No autorizado"
  const NULL_POINTER: string := "java.lang.NullPointerException"
  const MALFORMED_REQUEST: string := "com.google.gson.JsonSyntaxException"
  const WRONG_ARGUMENTS: string := "java.lang.IllegalArgumentException: wrong number of arguments"

  /** `verifyToken(token)`: a missing token is never verified; a present one is as the token service says. */
  function VerifyToken(verify: string -> Option<Claims>, token: Option<string>): (r: Option<Claims>)
    ensures token.None? ==> r.None?
    ensures r.Some? ==> token.Some? && verify(token.value) == r
    ensures token.Some? ==> r == verify(token.value)
  {
    if token.None? then None else verify(token.value)
  }

  /** The message thrown for a `@RequestToken` parameter not typed `DecodedJWT`. */
  function TokenTypeMessage(h: HandlerMethod, p: Parameter): string {
    "El parámetro " + p.name + " del método " + h.name + " de la clase " + CLIENT_HANDLER_CLASS + " debe ser de tipo DecodedJWT"
  }

  /** The message thrown for a body whose class does not fit the parameter. */
  function BodyTypeMessage(h: HandlerMethod, p: Parameter): string {
    "El parámetro " + p.name + " del método " + h.name + " de la clase " + CLIENT_HANDLER_CLASS + " debe ser de tipo " + TypeName(p.paramType)
  }

  /** The arguments one parameter adds: the token for `@RequestToken`, then the body for `@RequestBody`. */
  function BindOne(h: HandlerMethod, p: Parameter, token: Option<Claims>, content: Json, deserialize: (Json, ParamType) -> Option<Value>): Result<seq<Arg>>
  {
    if p.requestToken && !Assignable(p.paramType, DecodedJwtType) then Err(TokenTypeMessage(h, p))
    else
      var tokenArgs := if p.requestToken then [TokenArg(token)] else [];
      if !p.requestBody then Ok(tokenArgs)
      else
        match deserialize(content, p.paramType)
        case None => Err(NULL_POINTER)
        case Some(v) => if !Assignable(p.paramType, ClassOf(v)) then Err(BodyTypeMessage(h, p)) else Ok(tokenArgs + [BodyArg(v)])
  }

  /** The `args` list for the parameters `ps`, in order, or the first parameter's exception. */
  function Bind(h: HandlerMethod, ps: seq<Parameter>, token: Option<Claims>, content: Json, deserialize: (Json, ParamType) -> Option<Value>): Result<seq<Arg>>
    decreases |ps|
  {
    if ps == [] then Ok([])
    else
      match Bind(h, ps[..|ps| - 1], token, content, deserialize)
      case Err(e) => Err(e)
      case Ok(args) =>
        match BindOne(h, ps[|ps| - 1], token, content, deserialize)
        case Err(e) => Err(e)
        case Ok(more) => Ok(args + more)
  }

  /** The number of annotations on `ps`. */
  function Annotations(ps: seq<Parameter>): nat
    decreases |ps|
  {
    if ps == [] then 0
    else Annotations(ps[..|ps| - 1]) + (if ps[|ps| - 1].requestToken then 1 else 0) + (if ps[|ps| - 1].requestBody then 1 else 0)
  }

  /** Once a parameter fails, binding fails with its message whatever follows. */
  lemma {:induction false} BindErrorSticky(h: HandlerMethod, ps: seq<Parameter>, k: nat, token: Option<Claims>, content: Json, deserialize: (Json, ParamType) -> Option<Value>)
    requires k <= |ps| && Bind(h, ps[..k], token, content, deserialize).Err?
    ensures Bind(h, ps, token, content, deserialize) == Bind(h, ps[..k], token, content, deserialize)
    decreases |ps|
  {
    if k < |ps| {
      var init := ps[..|ps| - 1];
      assert init[..k] == ps[..k];
      BindErrorSticky(h, init, k, token, content, deserialize);
    } else {
      assert ps[..k] == ps;
    }
  }

  /**
   * Binding succeeds exactly when every parameter binds; then there is one argument per
   * annotation, every token argument is the verified token, and every body argument is a
   * value decoded for some `@RequestBody` parameter.
   */
  lemma {:induction false} BindShape(h: HandlerMethod, ps: seq<Parameter>, token: Option<Claims>, content: Json, deserialize: (Json, ParamType) -> Option<Value>)
    ensures Bind(h, ps, token, content, deserialize).Ok? <==>
      forall i :: 0 <= i < |ps| ==> BindOne(h, ps[i], token, content, deserialize).Ok?
    ensures Bind(h, ps, token, content, deserialize).Ok? ==>
      var args := Bind(h, ps, token, content, deserialize).value;
      && |args| == Annotations(ps)
      && (forall a :: a in args && a.TokenArg? ==> a.token == token)
      && (forall a :: a in args && a.BodyArg? ==>
            exists i :: 0 <= i < |ps| && ps[i].requestBody && deserialize(content, ps[i].paramType) == Some(a.value))
    decreases |ps|
  {
    if ps != [] {
      var init := ps[..|ps| - 1];
      var last := ps[|ps| - 1];
      BindShape(h, init, token, content, deserialize);
      assert forall i :: 0 <= i < |init| ==> init[i] == ps[i];
      if Bind(h, ps, token, content, deserialize).Ok? {
        var args := Bind(h, init, token, content, deserialize).value;
        var more := BindOne(h, last, token, content, deserialize).value;
        assert Bind(h, ps, token, content, deserialize).value == args + more;
        forall a | a in more && a.BodyArg?
          ensures exists i :: 0 <= i < |ps| && ps[i].requestBody && deserialize(content, ps[i].paramType) == Some(a.value)
        {
          assert ps[|ps| - 1] == last;
        }
      } else if Bind(h, init, token, content, deserialize).Ok? {
        assert !BindOne(h, ps[|ps| - 1], token, content, deserialize).Ok?;
      } else {
        var i :| 0 <= i < |init| && !BindOne(h, init[i], token, content, deserialize).Ok?;
        assert !BindOne(h, ps[i], token, content, deserialize).Ok?;
      }
    }
  }

  /**
   * Binding a parameter list that is split in two binds each part in turn: the arguments of
   * the first part come first, so the args list follows declaration order.
   */
  lemma {:induction false} BindConcat(h: HandlerMethod, a: seq<Parameter>, b: seq<Parameter>, token: Option<Claims>, content: Json, deserialize: (Json, ParamType) -> Option<Value>)
    ensures Bind(h, a + b, token, content, deserialize).Ok? <==>
      Bind(h, a, token, content, deserialize).Ok? && Bind(h, b, token, content, deserialize).Ok?
    ensures Bind(h, a + b, token, content, deserialize).Ok? ==>
      Bind(h, a + b, token, content, deserialize).value
        == Bind(h, a, token, content, deserialize).value + Bind(h, b, token, content, deserialize).value
    decreases |b|
  {
    if b == [] {
      assert a + b == a;
      assert Bind(h, b, token, content, deserialize) == Ok([]);
      if Bind(h, a, token, content, deserialize).Ok? {
        assert Bind(h, a, token, content, deserialize).value + [] == Bind(h, a, token, content, deserialize).value;
      }
    } else {
      var ab := a + b;
      var binit := b[..|b| - 1];
      var last := b[|b| - 1];
      assert ab[..|ab| - 1] == a + binit && ab[|ab| - 1] == last;
      BindConcat(h, a, binit, token, content, deserialize);
      var x := Bind(h, a, token, content, deserialize);
      var y := Bind(h, binit, token, content, deserialize);
      var z := BindOne(h, last, token, content, deserialize);
      if x.Ok? && y.Ok? && z.Ok? {
        assert (x.value + y.value) + z.value == x.value + (y.value + z.value);
      }
    }
  }

  /** A `@RequestToken` parameter not typed `DecodedJWT` makes binding throw; with the earlier parameters bound, with its message. */
  lemma MistypedTokenThrows(h: HandlerMethod, ps: seq<Parameter>, i: nat, token: Option<Claims>, content: Json, deserialize: (Json, ParamType) -> Option<Value>)
    requires i < |ps| && ps[i].requestToken && !Assignable(ps[i].paramType, DecodedJwtType)
    ensures Bind(h, ps, token, content, deserialize).Err?
    ensures Bind(h, ps[..i], token, content, deserialize).Ok? ==>
      Bind(h, ps, token, content, deserialize) == Err(TokenTypeMessage(h, ps[i]))
  {
    assert ps[..i + 1][..i] == ps[..i] && ps[..i + 1][i] == ps[i];
    BindErrorSticky(h, ps, i + 1, token, content, deserialize);
  }

  /** The argument loop of `handleRequest`. */
  method BindArguments(h: HandlerMethod, token: Option<Claims>, content: Json, deserialize: (Json, ParamType) -> Option<Value>)
    returns (r: Result<seq<Arg>>)
    ensures r == Bind(h, h.parameters, token, content, deserialize)
  {
    var ps := h.parameters;
    var args: seq<Arg> := [];
    var i := 0;
    while i < |ps|
      invariant 0 <= i <= |ps|
      invariant Bind(h, ps[..i], token, content, deserialize) == Ok(args)
    {
      var p := ps[i];
      assert ps[..i + 1][..i] == ps[..i] && ps[..i + 1][i] == p;
      var more: seq<Arg> := [];
      if p.requestToken {
        if !Assignable(p.paramType, DecodedJwtType) {
          BindErrorSticky(h, ps, i + 1, token, content, deserialize);
          return Err(TokenTypeMessage(h, p));
        }
        more := [TokenArg(token)];
      }
      if p.requestBody {
        var v := deserialize(content, p.paramType);
        if v.None? {
          BindErrorSticky(h, ps, i + 1, token, content, deserialize);
          return Err(NULL_POINTER);
        }
        if !Assignable(p.paramType, ClassOf(v.value)) {
          BindErrorSticky(h, ps, i + 1, token, content, deserialize);
          return Err(BodyTypeMessage(h, p));
        }
        more := more + [BodyArg(v.value)];
      }
      assert BindOne(h, p, token, content, deserialize) == Ok(more);
      args := args + more;
      i := i + 1;
    }
    assert ps[..|ps|] == ps;
    r := Ok(args);
  }

  /** `handler.invoke(this, args)`: reflection refuses an argument count that differs from the parameter count. */
  function Invoke<S>(env: Env<S>, s: S, h: HandlerMethod, args: seq<Arg>): Outcome<S> {
    if |args| != |h.parameters| then Failed(WRONG_ARGUMENTS, s)
    else
      match env.invoke(s, h, args)
      case Returned(r, s') => Handled(r, s')
      case Threw(m, s') => Failed(m, s')
  }

  /** `handleRequest(line)` against the table `handlers`, answering at time `now`. */
  function Handle<S>(env: Env<S>, handlers: map<RequestType, HandlerMethod>, s: S, line: string, now: string): Outcome<S> {
    match env.parse(line)
    case None => Failed(MALFORMED_REQUEST, s)
    case Some(req) =>
      if req.kind.None? || req.kind.value !in handlers then
        Rejected(Response(ERROR, Text(REQUEST_NO_VALIDA), now))
      else
        var h := handlers[req.kind.value];
        var token := VerifyToken(env.verify, req.token);
        if h.authorized && token.None? then
          Rejected(Response(UNAUTHORIZED, Text(NO_AUTORIZADO), now))
        else
          match Bind(h, h.parameters, token, req.content, env.deserialize)
          case Err(e) => Failed(e, s)
          case Ok(args) => Invoke(env, s, h, args)
  }

  /** `handleRequest`, with the argument loop. */
  method HandleRequest<S>(env: Env<S>, handlers: map<RequestType, HandlerMethod>, s: S, line: string, now: string)
    returns (o: Outcome<S>)
    ensures o == Handle(env, handlers, s, line, now)
  {
    var parsed := env.parse(line);
    if parsed.None? {
      return Failed(MALFORMED_REQUEST, s);
    }
    var req := parsed.value;
    if req.kind.None? || req.kind.value !in handlers {
      return Rejected(Response(ERROR, Text(REQUEST_NO_VALIDA), now));
    }
    var h := handlers[req.kind.value];
    var token := VerifyToken(env.verify, req.token);
    if h.authorized && token.None? {
      return Rejected(Response(UNAUTHORIZED, Text(NO_AUTORIZADO), now));
    }
    var args := BindArguments(h, token, req.content, env.deserialize);
    if args.Err? {
      return Failed(args.message, s);
    }
    o := Invoke(env, s, h, args.value);
  }

  /** A request whose type has no handler is answered ERROR "Request no valida", with no handler run. */
  lemma UnknownTypeIsError<S>(env: Env<S>, handlers: map<RequestType, HandlerMethod>, s: S, line: string, now: string, req: Request)
    requires env.parse(line) == Some(req)
    requires req.kind.None? || req.kind.value !in handlers
    ensures Handle(env, handlers, s, line, now) == Rejected(Response(ERROR, Text(REQUEST_NO_VALIDA), now))
  {
  }

  /** An `@Authorized` handler with a missing or unverifiable token is answered UNAUTHORIZED "No autorizado", with no handler run. */
  lemma AuthorizationGate<S>(env: Env<S>, handlers: map<RequestType, HandlerMethod>, s: S, line: string, now: string, req: Request)
    requires env.parse(line) == Some(req)
    requires req.kind.Some? && req.kind.value in handlers && handlers[req.kind.value].authorized
    requires req.token.None? || env.verify(req.token.value).None?
    ensures Handle(env, handlers, s, line, now) == Rejected(Response(UNAUTHORIZED, Text(NO_AUTORIZADO), now))
  {
  }

  /**
   * A handler runs exactly when its type is registered, it is not `@Authorized` or the token
   * verifies, the arguments bind, and there is one per parameter; it then gets those arguments.
   */
  lemma HandlerRunsIff<S>(env: Env<S>, handlers: map<RequestType, HandlerMethod>, s: S, line: string, now: string, req: Request)
    requires env.parse(line) == Some(req)
    ensures
      var token := VerifyToken(env.verify, req.token);
      (Handle(env, handlers, s, line, now).Rejected? <==>
        (req.kind.None? || req.kind.value !in handlers || (handlers[req.kind.value].authorized && token.None?)))
      && (Handle(env, handlers, s, line, now).Handled? ==>
        && req.kind.Some? && req.kind.value in handlers
        && (!handlers[req.kind.value].authorized || token.Some?)
        && var h := handlers[req.kind.value];
           var args := Bind(h, h.parameters, token, req.content, env.deserialize);
           && args.Ok? && |args.value| == |h.parameters|
           && env.invoke(s, h, args.value) == Returned(Handle(env, handlers, s, line, now).response, Handle(env, handlers, s, line, now).state))
  {
  }

  /** A handler that is not `@Authorized` runs even without a token; a `@RequestToken` parameter then gets `null`. */
  lemma OpenHandlerWithoutToken<S>(env: Env<S>, handlers: map<RequestType, HandlerMethod>, s: S, line: string, now: string, req: Request)
    requires env.parse(line) == Some(req)
    requires req.kind.Some? && req.kind.value in handlers && !handlers[req.kind.value].authorized
    requires req.token.None?
    ensures !Handle(env, handlers, s, line, now).Rejected?
    ensures var h := handlers[req.kind.value];
      Bind(h, h.parameters, None, req.content, env.deserialize).Ok? ==>
        Handle(env, handlers, s, line, now) == Invoke(env, s, h, Bind(h, h.parameters, None, req.content, env.deserialize).value)
  {
  }

  // ----- The session loop of start -----

  /** The responses written, the state afterwards, and the exception that ended the loop, if any. */
  datatype SessionResult<S> = SessionResult(written: seq<Response>, state: S, failure: Option<string>)

  function Prepend<S>(w: seq<Response>, r: SessionResult<S>): SessionResult<S> {
    SessionResult(w + r.written, r.state, r.failure)
  }

  /**
   * The loop of `start` over the input lines (line `start + k` handled at `env.now(start + k)`):
   * one response per line, until a line throws; that line gets no response and ends the loop.
   */
  function Session<S>(env: Env<S>, handlers: map<RequestType, HandlerMethod>, s: S, lines: seq<string>, start: nat): (r: SessionResult<S>)
    ensures |r.written| <= |lines|
    ensures r.failure.None? <==> |r.written| == |lines|
    decreases |lines|
  {
    if lines == [] then SessionResult([], s, None)
    else
      match Handle(env, handlers, s, lines[0], env.now(start))
      case Failed(m, s') => SessionResult([], s', Some(m))
      case Rejected(resp) => Prepend([resp], Session(env, handlers, s, lines[1..], start + 1))
      case Handled(resp, s') => Prepend([resp], Session(env, handlers, s', lines[1..], start + 1))
  }

  /** The state after an outcome that did not throw. */
  function After<S>(o: Outcome<S>, s: S): S {
    match o
    case Rejected(_) => s
    case Handled(_, s') => s'
    case Failed(_, s') => s'
  }

  /** The state before line `k` of a session. */
  function StateBefore<S>(env: Env<S>, handlers: map<RequestType, HandlerMethod>, s: S, lines: seq<string>, start: nat, k: nat): S
    requires k <= |lines|
  {
    Session(env, handlers, s, lines[..k], start).state
  }

  /**
   * Response `k` is the answer to line `k`, given in the state the earlier lines left; when
   * the loop ended early, it is the line after the last answered one that threw.
   */
  lemma {:induction false} SessionInOrder<S>(env: Env<S>, handlers: map<RequestType, HandlerMethod>, s: S, lines: seq<string>, start: nat, k: nat)
    requires k < |lines|
    requires k <= |Session(env, handlers, s, lines, start).written|
    ensures var o := Handle(env, handlers, StateBefore(env, handlers, s, lines, start, k), lines[k], env.now(start + k));
      var r := Session(env, handlers, s, lines, start);
      && (k < |r.written| ==> !o.Failed? && r.written[k] == o.response)
      && (k == |r.written| ==> o.Failed? && r.failure == Some(o.message) && r.state == o.state)
    decreases k
  {
    if k > 0 {
      SessionFirstAnswered(env, handlers, s, lines, start);
      var s1 := After(Handle(env, handlers, s, lines[0], env.now(start)), s);
      SessionInOrder(env, handlers, s1, lines[1..], start + 1, k - 1);
      SessionInOrderStep(env, handlers, s, lines, start, k);
    } else {
      assert lines[..0] == [];
      SessionFirstLine(env, handlers, s, lines, start);
    }
  }

  /** Line `k` of a session is line `k - 1` of the session after its first line, answered one position later. */
  lemma SessionInOrderStep<S>(env: Env<S>, handlers: map<RequestType, HandlerMethod>, s: S, lines: seq<string>, start: nat, k: nat)
    requires 0 < k < |lines|
    requires !Handle(env, handlers, s, lines[0], env.now(start)).Failed?
    requires var s1 := After(Handle(env, handlers, s, lines[0], env.now(start)), s);
      Answers(Handle(env, handlers, StateBefore(env, handlers, s1, lines[1..], start + 1, k - 1), lines[1..][k - 1], env.now(start + 1 + (k - 1))),
        Session(env, handlers, s1, lines[1..], start + 1), k - 1)
    ensures Answers(Handle(env, handlers, StateBefore(env, handlers, s, lines, start, k), lines[k], env.now(start + k)), Session(env, handlers, s, lines, start), k)
  {
    var o0 := Handle(env, handlers, s, lines[0], env.now(start));
    var s1 := After(o0, s);
    SessionUnfold(env, handlers, s, lines, start);
    StateBeforeStep(env, handlers, s, lines, start, k);
    assert lines[1..][k - 1] == lines[k] && start + 1 + (k - 1) == start + k;
    AnswersPrepend(Handle(env, handlers, StateBefore(env, handlers, s, lines, start, k), lines[k], env.now(start + k)), o0.response, Session(env, handlers, s1, lines[1..], start + 1), k);
  }

  /** Response `k` of `r` answers `o`, or `r` ended at `k` with `o`'s exception. */
  ghost predicate Answers<S>(o: Outcome<S>, r: SessionResult<S>, k: nat) {
    && (k < |r.written| ==> !o.Failed? && r.written[k] == o.response)
    && (k == |r.written| ==> o.Failed? && r.failure == Some(o.message) && r.state == o.state)
  }

  /** Writing one response before a session shifts every answer by one. */
  lemma AnswersPrepend<S>(o: Outcome<S>, x: Response, rest: SessionResult<S>, k: nat)
    requires 0 < k && Answers(o, rest, k - 1)
    ensures Answers(o, Prepend([x], rest), k)
  {
  }

  /** The first line of a session is answered first, or ends it with its exception. */
  lemma SessionFirstLine<S>(env: Env<S>, handlers: map<RequestType, HandlerMethod>, s: S, lines: seq<string>, start: nat)
    requires lines != []
    ensures Answers(Handle(env, handlers, s, lines[0], env.now(start)), Session(env, handlers, s, lines, start), 0)
  {
  }

  /** A session that wrote something did not throw on its first line. */
  lemma SessionFirstAnswered<S>(env: Env<S>, handlers: map<RequestType, HandlerMethod>, s: S, lines: seq<string>, start: nat)
    requires lines != [] && Session(env, handlers, s, lines, start).written != []
    ensures !Handle(env, handlers, s, lines[0], env.now(start)).Failed?
  {
  }

  /** A line that does not throw is answered first, and the rest of the session runs in the state it left. */
  lemma SessionUnfold<S>(env: Env<S>, handlers: map<RequestType, HandlerMethod>, s: S, lines: seq<string>, start: nat)
    requires lines != []
    requires !Handle(env, handlers, s, lines[0], env.now(start)).Failed?
    ensures var o := Handle(env, handlers, s, lines[0], env.now(start));
      Session(env, handlers, s, lines, start) == Prepend([o.response], Session(env, handlers, After(o, s), lines[1..], start + 1))
  {
  }

  /** The state before line `k` is the state before line `k - 1` of the session that starts after the first line. */
  lemma StateBeforeStep<S>(env: Env<S>, handlers: map<RequestType, HandlerMethod>, s: S, lines: seq<string>, start: nat, k: nat)
    requires 0 < k <= |lines|
    requires !Handle(env, handlers, s, lines[0], env.now(start)).Failed?
    ensures var o := Handle(env, handlers, s, lines[0], env.now(start));
      StateBefore(env, handlers, s, lines, start, k) == StateBefore(env, handlers, After(o, s), lines[1..], start + 1, k - 1)
  {
    assert lines[..k][0] == lines[0] && lines[..k][1..] == lines[1..][..k - 1];
  }

  /** An unknown request type leaves the connection open and the state untouched. */
  lemma UnknownTypeKeepsSession<S>(env: Env<S>, handlers: map<RequestType, HandlerMethod>, s: S, lines: seq<string>, start: nat, req: Request)
    requires lines != [] && env.parse(lines[0]) == Some(req)
    requires req.kind.None? || req.kind.value !in handlers
    ensures Session(env, handlers, s, lines, start)
      == Prepend([Response(ERROR, Text(REQUEST_NO_VALIDA), env.now(start))], Session(env, handlers, s, lines[1..], start + 1))
  {
  }

  lemma PrependTwice<S>(w: seq<Response>, v: seq<Response>, r: SessionResult<S>)
    ensures Prepend(w, Prepend(v, r)) == Prepend(w + v, r)
  {
    assert (w + v) + r.written == w + (v + r.written);
  }

  /** The session from line `i` on: line `i` is handled first. */
  lemma SessionAt<S>(env: Env<S>, handlers: map<RequestType, HandlerMethod>, s: S, lines: seq<string>, i: nat)
    requires i < |lines|
    ensures Session(env, handlers, s, lines[i..], i) ==
      match Handle(env, handlers, s, lines[i], env.now(i))
      case Failed(m, s') => SessionResult([], s', Some(m))
      case Rejected(resp) => Prepend([resp], Session(env, handlers, s, lines[i + 1..], i + 1))
      case Handled(resp, s') => Prepend([resp], Session(env, handlers, s', lines[i + 1..], i + 1))
  {
    assert lines[i..][0] == lines[i] && lines[i..][1..] == lines[i + 1..];
  }

  /** The read/respond loop of `start`. */
  method RunSession<S>(env: Env<S>, handlers: map<RequestType, HandlerMethod>, s0: S, lines: seq<string>)
    returns (written: seq<Response>, s: S, failure: Option<string>)
    ensures SessionResult(written, s, failure) == Session(env, handlers, s0, lines, 0)
  {
    written, s, failure := [], s0, None;
    var i := 0;
    while i < |lines|
      invariant 0 <= i <= |lines|
      invariant Session(env, handlers, s0, lines, 0) == Prepend(written, Session(env, handlers, s, lines[i..], i))
    {
      SessionAt(env, handlers, s, lines, i);
      var o := HandleRequest(env, handlers, s, lines[i], env.now(i));
      match o {
        case Failed(m, s') =>
          assert written + [] == written;
          s, failure := s', Some(m);
          return;
        case Rejected(resp) =>
          PrependTwice(written, [resp], Session(env, handlers, s, lines[i + 1..], i + 1));
          written := written + [resp];
        case Handled(resp, s') =>
          PrependTwice(written, [resp], Session(env, handlers, s', lines[i + 1..], i + 1));
          written, s := written + [resp], s';
      }
      i := i + 1;
    }
    assert lines[i..] == [];
    assert written + [] == written;
  }

  /**
   * `start()`: register the handlers (an exception there escapes before anything is read),
   * then run the loop against the table.
   */
  method Start<S>(registry: HandlerRegistry, methods: seq<HandlerMethod>, env: Env<S>, s0: S, lines: seq<string>)
    returns (written: seq<Response>, s: S, failure: Option<string>)
    modifies registry
    ensures var reg := Register(old(registry.handlers), methods, CLIENT_HANDLER_CLASS);
      && registry.handlers == reg.handlers
      && (reg.error.Some? ==> written == [] && s == s0 && failure == reg.error)
      && (reg.error.None? ==> SessionResult(written, s, failure) == Session(env, reg.handlers, s0, lines, 0))
  {
    var error := registry.RegisterHandlers(methods, CLIENT_HANDLER_CLASS);
    if error.Some? {
      return [], s0, error;
    }
    written, s, failure := RunSession(env, registry.handlers, s0, lines);
  }

  // ----- The methods ClientHandler declares -----

  const LoginMethod: HandlerMethod := HandlerMethod("login", Some(LOGIN), true, false, [Parameter("login", LoginType, false, true)])
  const GetAllMethod: HandlerMethod := HandlerMethod("getAllFunkos", Some(GETALL), true, true, [])
  const GetByIdMethod: HandlerMethod := HandlerMethod("getFunkoById", Some(GETBYID), true, true, [Parameter("id", UuidType, false, true)])
  const GetByYearMethod: HandlerMethod := HandlerMethod("getFunkoByYear", Some(GETBYYEAR), true, true, [Parameter("year", IntegerType, false, true)])
  const GetByModeloMethod: HandlerMethod := HandlerMethod("getByModelo", Some(GETBYMODELO), true, true, [Parameter("modelo", ModeloType, false, true)])
  const AddMethod: HandlerMethod := HandlerMethod("addFunko", Some(POST), true, true, [Parameter("funko", FunkoType, false, true)])
  const DeleteMethod: HandlerMethod := HandlerMethod("deleteFunko", Some(DELETE), true, true,
    [Parameter("token", DecodedJwtType, true, false), Parameter("funko", FunkoType, false, true)])
  const UpdateMethod: HandlerMethod := HandlerMethod("updateFunko", Some(UPDATE), true, true, [Parameter("funko", FunkoType, false, true)])

  /** The `@RequestHandler` methods of `ClientHandler`, in declaration order. */
  const RequestHandlers: seq<HandlerMethod> :=
    [LoginMethod, GetAllMethod, GetByIdMethod, GetByYearMethod, GetByModeloMethod, AddMethod, DeleteMethod, UpdateMethod]

  /** The methods of `ClientHandler`, the unannotated ones included. */
  const ClientHandlerMethods: seq<HandlerMethod> :=
    [
      HandlerMethod("start", None, false, false, []),
      HandlerMethod("openConnection", None, false, false, []),
      HandlerMethod("closeConnection", None, false, false, []),
      HandlerMethod("registerHandlers", None, false, false, [Parameter("obj", ObjectType, false, false)]),
      HandlerMethod("handleRequest", None, true, false, [Parameter("request", StringType, false, false)])
    ]
    + RequestHandlers
    + [HandlerMethod("verifyToken", None, false, false, [Parameter("token", StringType, false, false)])]

  /** The table `registerHandlers(this)` builds. */
  const ClientHandlerTable: map<RequestType, HandlerMethod> := map[
    UPDATE := UpdateMethod, DELETE := DeleteMethod, POST := AddMethod, GETBYMODELO := GetByModeloMethod,
    GETBYYEAR := GetByYearMethod, GETBYID := GetByIdMethod, GETALL := GetAllMethod, LOGIN := LoginMethod]

  /** The overlay of a concatenation: the second part's entries override the first's. */
  lemma {:induction false} OverlayAppend(a: seq<HandlerMethod>, b: seq<HandlerMethod>)
    ensures Overlay(a + b) == Overlay(a) + Overlay(b)
    decreases |a|
  {
    if a == [] {
      assert a + b == b;
      assert map[] + Overlay(b) == Overlay(b);
    } else {
      var c := a + b;
      assert c[0] == a[0] && c[1..] == a[1..] + b;
      assert Overlay(c) == Entry(a[0]) + Overlay(a[1..] + b);
      OverlayAppend(a[1..], b);
      UnionAssociative(Entry(a[0]), Overlay(a[1..]), Overlay(b));
    }
  }

  lemma UnionAssociative<K, V>(x: map<K, V>, y: map<K, V>, z: map<K, V>)
    ensures (x + y) + z == x + (y + z)
  {
  }

  /** Methods without `@RequestHandler` contribute no entries. */
  lemma {:induction false} OverlayUnannotated(a: seq<HandlerMethod>)
    requires forall i :: 0 <= i < |a| ==> a[i].requestHandler.None?
    ensures Overlay(a) == map[]
    decreases |a|
  {
    if a != [] {
      assert forall i :: 0 <= i < |a[1..]| ==> a[1..][i] == a[i + 1];
      OverlayUnannotated(a[1..]);
      assert Entry(a[0]) == map[] && map[] + Overlay(a[1..]) == Overlay(a[1..]);
    }
  }

  /** An annotated method whose type no later method claims adds its own entry. */
  lemma OverlayAdd(ms: seq<HandlerMethod>, k: nat)
    requires k < |ms| && ms[k].requestHandler.Some?
    requires ms[k].requestHandler.value !in Overlay(ms[k+1..])
    ensures Overlay(ms[k..]) == Overlay(ms[k+1..])[ms[k].requestHandler.value := ms[k]]
  {
    assert ms[k..][0] == ms[k] && ms[k..][1..] == ms[k+1..];
  }

  /** The request handlers overlay to the table: their types are distinct. */
  lemma HandlersOverlay()
    ensures Overlay(RequestHandlers) == ClientHandlerTable
  {
    var ms := RequestHandlers;
    assert ms[8..] == [];
    OverlayAdd(ms, 7);
    OverlayAdd(ms, 6);
    OverlayAdd(ms, 5);
    OverlayAdd(ms, 4);
    OverlayAdd(ms, 3);
    OverlayAdd(ms, 2);
    OverlayAdd(ms, 1);
    OverlayAdd(ms, 0);
    assert ms[0..] == ms;
  }

  /** The methods of `ClientHandler` overlay to its table. */
  lemma ClientHandlerOverlay()
    ensures Overlay(ClientHandlerMethods) == ClientHandlerTable
  {
    var head := ClientHandlerMethods[..5];
    var tail := [ClientHandlerMethods[13]];
    assert ClientHandlerMethods == head + RequestHandlers + tail;
    OverlayUnannotated(head);
    OverlayUnannotated(tail);
    OverlayAppend(head + RequestHandlers, tail);
    OverlayAppend(head, RequestHandlers);
    HandlersOverlay();
    assert map[] + ClientHandlerTable + map[] == ClientHandlerTable;
  }

  /** Every `@RequestHandler` method of `ClientHandler` returns a `Response`. */
  lemma ClientHandlerReturnTypes()
    ensures forall i :: 0 <= i < |ClientHandlerMethods| ==> !BadReturnType(ClientHandlerMethods[i])
  {
    var head := ClientHandlerMethods[..5];
    var tail := ClientHandlerMethods[13..];
    assert forall i :: 0 <= i < |RequestHandlers| ==> RequestHandlers[i].returnsResponse;
    assert ClientHandlerMethods == head + RequestHandlers + tail;
    forall i | 0 <= i < |ClientHandlerMethods|
      ensures !BadReturnType(ClientHandlerMethods[i])
    {
      if 5 <= i < 13 {
        assert ClientHandlerMethods[i] == RequestHandlers[i - 5];
      }
    }
  }

  /** Registering `ClientHandler` succeeds and builds its table. */
  lemma ClientHandlerRegistration()
    ensures Register(map[], ClientHandlerMethods, CLIENT_HANDLER_CLASS) == Registration(ClientHandlerTable, None)
  {
    ClientHandlerReturnTypes();
    RegisterIsOverlay(map[], ClientHandlerMethods, CLIENT_HANDLER_CLASS);
    ClientHandlerOverlay();
    EmptyUnion(ClientHandlerTable);
  }

  lemma EmptyUnion<K, V>(m: map<K, V>)
    ensures map[] + m == m
  {
  }

  /** In the table only LOGIN is open, and six request types have no handler. */
  lemma ClientHandlerTableShape()
    ensures forall t :: t in ClientHandlerTable ==> (ClientHandlerTable[t].authorized <==> t != LOGIN)
    ensures forall t :: t in {FECHA, UUID, SALIR, OTRO, GETBYUUID, DELETEALL} ==> t !in ClientHandlerTable
  {
  }

  /** No two annotated methods of `ms` claim the same request type. */
  predicate DistinctTypes(ms: seq<HandlerMethod>) {
    forall i, j :: 0 <= i < j < |ms| && ms[i].requestHandler.Some? ==> ms[i].requestHandler != ms[j].requestHandler
  }

  /** When no type is claimed twice, the table does not depend on the order of the declared methods. */
  lemma OverlayPermutation(a: seq<HandlerMethod>, b: seq<HandlerMethod>)
    requires multiset(a) == multiset(b) && DistinctTypes(a)
    ensures Overlay(a) == Overlay(b)
  {
    forall t
      ensures (t in Overlay(a) <==> t in Overlay(b)) && (t in Overlay(b) ==> Overlay(a)[t] == Overlay(b)[t])
    {
      OverlayLastWins(a, t);
      OverlayLastWins(b, t);
      if t in Overlay(a) {
        var i :| 0 <= i < |a| && a[i].requestHandler == Some(t);
        assert a[i] in multiset(b);
        var j :| 0 <= j < |b| && b[j] == a[i];
      }
      if t in Overlay(b) {
        var j :| 0 <= j < |b| && b[j].requestHandler == Some(t) && Overlay(b)[t] == b[j];
        assert b[j] in multiset(a);
        var k :| 0 <= k < |a| && a[k] == b[j];
        var i :| 0 <= i < |a| && a[i].requestHandler == Some(t) && Overlay(a)[t] == a[i];
        assert i == k;
      }
    }
  }

  /** The eight request handlers claim eight different types. */
  lemma ClientHandlerDistinctTypes()
    ensures DistinctTypes(ClientHandlerMethods)
  {
    var ms := ClientHandlerMethods;
    assert ms == ms[..5] + RequestHandlers + ms[13..];
    assert forall i :: 0 <= i < 5 ==> ms[i].requestHandler.None?;
    assert ms[13].requestHandler.None?;
    assert DistinctTypes(RequestHandlers);
    forall i, j | 0 <= i < j < |ms| && ms[i].requestHandler.Some?
      ensures ms[i].requestHandler != ms[j].requestHandler
    {
      assert 5 <= i < 13;
      if j < 13 {
        assert ms[i] == RequestHandlers[i - 5] && ms[j] == RequestHandlers[j - 5];
      }
    }
  }

  /** Registering a reordering of well-typed methods with distinct types gives the table of the original order. */
  lemma RegisterPermutation(a: seq<HandlerMethod>, b: seq<HandlerMethod>, className: string)
    requires multiset(a) == multiset(b) && DistinctTypes(a)
    requires forall i :: 0 <= i < |a| ==> !BadReturnType(a[i])
    ensures Register(map[], b, className) == Registration(Overlay(a), None)
  {
    OverlayPermutation(a, b);
    forall i | 0 <= i < |b| ensures !BadReturnType(b[i]) {
      assert b[i] in multiset(a);
      var k :| 0 <= k < |a| && a[k] == b[i];
    }
    RegisterIsOverlay(map[], b, className);
    EmptyUnion(Overlay(a));
  }

  /** `getDeclaredMethods` may list the methods in any order: registration builds the same table. */
  lemma ClientHandlerRegistrationAnyOrder(ms: seq<HandlerMethod>)
    requires multiset(ms) == multiset(ClientHandlerMethods)
    ensures Register(map[], ms, CLIENT_HANDLER_CLASS) == Registration(ClientHandlerTable, None)
  {
    ClientHandlerDistinctTypes();
    ClientHandlerReturnTypes();
    RegisterPermutation(ClientHandlerMethods, ms, CLIENT_HANDLER_CLASS);
    ClientHandlerOverlay();
  }

  /** A DELETE request without a token is refused before `deleteFunko` runs. */
  lemma DeleteWithoutTokenRefused<S>(env: Env<S>, s: S, line: string, now: string, req: Request)
    requires env.parse(line) == Some(req) && req.kind == Some(DELETE) && req.token.None?
    ensures Handle(env, ClientHandlerTable, s, line, now) == Rejected(Response(UNAUTHORIZED, Text(NO_AUTORIZADO), now))
  {
  }

  /** `deleteFunko` gets the verified token and then the decoded funko. */
  lemma DeleteBindsTokenThenBody<S>(env: Env<S>, token: Claims, content: Json, f: Funko)
    requires env.deserialize(content, FunkoType) == Some(FunkoValue(f))
    ensures Bind(DeleteMethod, DeleteMethod.parameters, Some(token), content, env.deserialize)
      == Ok([TokenArg(Some(token)), BodyArg(FunkoValue(f))])
  {
    var ps := DeleteMethod.parameters;
    var d := env.deserialize;
    assert ps[..1][..0] == [] && ps[..1][0] == ps[0];
    assert BindOne(DeleteMethod, ps[0], Some(token), content, d) == Ok([TokenArg(Some(token))]);
    assert Bind(DeleteMethod, ps[..1], Some(token), content, d) == Ok([] + [TokenArg(Some(token))]);
    assert BindOne(DeleteMethod, ps[1], Some(token), content, d) == Ok([] + [BodyArg(FunkoValue(f))]);
    assert ps[..|ps| - 1] == ps[..1] && ps[|ps| - 1] == ps[1];
    assert ([] + [TokenArg(Some(token))]) + ([] + [BodyArg(FunkoValue(f))]) == [TokenArg(Some(token)), BodyArg(FunkoValue(f))];
  }

  // ----- Handler bodies -----

  const LOGIN_FAILED: string := "Usuario no encontrado o falla la contraseña"

  /**
   * `login`: a TOKEN response with a token created for the user when some user has that
   * name and the password checks against the stored hash; the ERROR response otherwise.
   */
  function LoginResponse(login: Login, checkPw: (string, PasswordHash) -> bool, createToken: User -> string, now: string): (r: Response)
    ensures r.status == TOKEN <==>
      exists u :: u in UsersRepository.Users && u.username == login.username && checkPw(login.password, u.password)
    ensures r.status == TOKEN ==> exists u :: (u in UsersRepository.Users && u.username == login.username
      && r == Response(TOKEN, Text(createToken(u)), now))
    ensures r.status != TOKEN ==> r == Response(ERROR, Text(LOGIN_FAILED), now)
  {
    UsersRepository.UsersKeysUnique();
    var user := UsersRepository.FindByUsername(login.username);
    if user.None? || !checkPw(login.password, user.value.password) then Response(ERROR, Text(LOGIN_FAILED), now)
    else Response(TOKEN, Text(createToken(user.value)), now)
  }

  /** The password check of BCrypt, for hashes recorded by their plain text. */
  ghost predicate SoundCheck(checkPw: (string, PasswordHash) -> bool) {
    forall p: string, q: string :: checkPw(p, BcryptHash(q)) <==> p == q
  }

  /** juan logs in with "juan1234" and not with another password. */
  lemma JuanLogin(checkPw: (string, PasswordHash) -> bool, createToken: User -> string, now: string, password: string)
    requires SoundCheck(checkPw)
    ensures LoginResponse(Login("juan", password), checkPw, createToken, now).status == TOKEN <==> password == "juan1234"
  {
    assert checkPw(password, BcryptHash("juan1234")) <==> password == "juan1234";
    assert checkPw(password, BcryptHash("manolo1234")) <==> password == "manolo1234";
    assert "juan" != "manolo" by {
      assert "juan"[0] != "manolo"[0];
    }
  }

  /** `deleteFunko`'s check: the token's user name belongs to a user with role ADMIN. */
  function IsAdminToken(token: Claims): (r: bool)
    ensures r <==> (token.username.Some? &&
      exists u :: u in UsersRepository.Users && u.username == token.username.value && u.role == ADMIN)
  {
    UsersRepository.UsersKeysUnique();
    if token.username.None? then false
    else
      var user := UsersRepository.FindByUsername(token.username.value);
      user.Some? && user.value.role == ADMIN
  }

  /** Only juan's tokens may delete. */
  lemma OnlyJuanDeletes(token: Claims)
    ensures IsAdminToken(token) <==> token.username == Some("juan")
  {
  }

  /** A token issued at login, presented again, carries the user's name, so juan's may delete and manolo's may not. */
  lemma LoginTokenAuthorizesDelete(checkPw: (string, PasswordHash) -> bool, createToken: User -> string,
                                   verify: string -> Option<Claims>, now: string, login: Login)
    requires forall u :: verify(createToken(u)) == Some(Claims(Some(u.id), Some(u.username)))
    requires LoginResponse(login, checkPw, createToken, now).status == TOKEN
    ensures var token := LoginResponse(login, checkPw, createToken, now).content.text;
      verify(token).Some? && (IsAdminToken(verify(token).value) <==> login.username == "juan")
  {
    var u :| u in UsersRepository.Users && u.username == login.username
      && LoginResponse(login, checkPw, createToken, now) == Response(TOKEN, Text(createToken(u)), now);
    OnlyJuanDeletes(Claims(Some(u.id), Some(u.username)));
  }

  const DELETED: string := "Funko borrado correctamente"
  const DELETE_FAILED: string := "Ha ocurrido un error al borrar el funko"

  /** The instance state the handler bodies use. */
  class ClientHandler {
    const funkoService: FunkoService.FunkosServiceImpl

    constructor(service: FunkoService.FunkosServiceImpl)
      ensures funkoService == service
    {
      funkoService := service;
    }

    /**
     * `deleteFunko(token, funko)`: UNAUTHORIZED, and nothing deleted, unless the token's user
     * is an admin; otherwise the service deletes the funko's code, and the answer is OK when
     * that deleted a row and ERROR when it did not.
     */
    method DeleteFunko(token: Claims, funko: Funko, now: string) returns (r: Response)
      requires funkoService.Valid()
      modifies funkoService.repository, funkoService.cache
      ensures funkoService.Valid()
      ensures !IsAdminToken(token) ==>
        && r == Response(UNAUTHORIZED, Text(NO_AUTORIZADO), now)
        && funkoService.repository.store == old(funkoService.repository.store)
        && funkoService.cache.State() == old(funkoService.cache.State())
      ensures IsAdminToken(token) ==>
        && funkoService.repository.store == old(funkoService.repository.store) - {funko.codigo}
        && r == if funko.codigo in old(funkoService.repository.store) then Response(OK, Text(DELETED), now)
                else Response(ERROR, Text(DELETE_FAILED), now)
      ensures IsAdminToken(token) ==>
        funkoService.cache.State() == if funko.codigo in old(funkoService.repository.store)
          then Lru.Remove(old(funkoService.cache.State()), funko.codigo)
          else old(funkoService.cache.State())
      ensures old(funkoService.Coherent()) ==> funkoService.Coherent()
    {
      var unauthorized := Response(UNAUTHORIZED, Text(NO_AUTORIZADO), now);
      if token.username.None? {
        return unauthorized;
      }
      var user := UsersRepository.FindByUsername(token.username.value);
      if user.None? {
        return unauthorized;
      }
      if user.value.role != ADMIN {
        return unauthorized;
      }
      var deleted := funkoService.Delete(funko.codigo);
      if deleted {
        r := Response(OK, Text(DELETED), now);
      } else {
        r := Response(ERROR, Text(DELETE_FAILED), now);
      }
    }
  }
}
