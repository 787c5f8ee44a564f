/** The backend's error kinds and the user-facing message chosen for an
    error response (app/domain/types/api.ts). */
module ApiErrors {
  import opened Optional

  /** The `error` field of a response. The backend sends it as a string, so
      besides the kinds the table lists it may carry any other name;
      `KindOf` decodes the string, and `Other` then never holds a listed
      name. */
  datatype ErrorKind =
    | RouteNotFound
    | ResourceNotFound
    | UserNotFound
    | PersonNotFound
    | ValidationError
    | InvalidCpf
    | InvalidEmail
    | RequiredField
    | ConflictError
    | PersonAlreadyExists
    | EmailAlreadyExists
    | InternalServerError
    | DatabaseError
    | UnknownError
    | Other(name: string)

  /** The name the backend sends for a listed kind. */
  function WireName(kind: ErrorKind): string
    requires !kind.Other?
  {
    match kind
    case RouteNotFound => "ROUTE_NOT_FOUND"
    case ResourceNotFound => "RESOURCE_NOT_FOUND"
    case UserNotFound => "USER_NOT_FOUND"
    case PersonNotFound => "PERSON_NOT_FOUND"
    case ValidationError => "VALIDATION_ERROR"
    case InvalidCpf => "INVALID_CPF"
    case InvalidEmail => "INVALID_EMAIL"
    case RequiredField => "REQUIRED_FIELD"
    case ConflictError => "CONFLICT_ERROR"
    case PersonAlreadyExists => "PERSON_ALREADY_EXISTS"
    case EmailAlreadyExists => "EMAIL_ALREADY_EXISTS"
    case InternalServerError => "INTERNAL_SERVER_ERROR"
    case DatabaseError => "DATABASE_ERROR"
    case UnknownError => "UNKNOWN_ERROR"
  }

  /** The names the table lists as its own keys. */
  const ListedNames: set<string> := {
    "ROUTE_NOT_FOUND", "RESOURCE_NOT_FOUND", "USER_NOT_FOUND", "PERSON_NOT_FOUND",
    "VALIDATION_ERROR", "INVALID_CPF", "INVALID_EMAIL", "REQUIRED_FIELD",
    "CONFLICT_ERROR", "PERSON_ALREADY_EXISTS", "EMAIL_ALREADY_EXISTS",
    "INTERNAL_SERVER_ERROR", "DATABASE_ERROR", "UNKNOWN_ERROR"}

  /** Decoding the `error` string: a listed name gives its kind, any other
      name is kept as `Other`. */
  function KindOf(name: string): (k: ErrorKind)
    ensures k.Other? <==> name !in ListedNames
    ensures k.Other? ==> k.name == name
    ensures !k.Other? ==> WireName(k) == name
  {
    if name == "ROUTE_NOT_FOUND" then RouteNotFound
    else if name == "RESOURCE_NOT_FOUND" then ResourceNotFound
    else if name == "USER_NOT_FOUND" then UserNotFound
    else if name == "PERSON_NOT_FOUND" then PersonNotFound
    else if name == "VALIDATION_ERROR" then ValidationError
    else if name == "INVALID_CPF" then InvalidCpf
    else if name == "INVALID_EMAIL" then InvalidEmail
    else if name == "REQUIRED_FIELD" then RequiredField
    else if name == "CONFLICT_ERROR" then ConflictError
    else if name == "PERSON_ALREADY_EXISTS" then PersonAlreadyExists
    else if name == "EMAIL_ALREADY_EXISTS" then EmailAlreadyExists
    else if name == "INTERNAL_SERVER_ERROR" then InternalServerError
    else if name == "DATABASE_ERROR" then DatabaseError
    else if name == "UNKNOWN_ERROR" then UnknownError
    else Other(name)
  }

  /** Decoding the name of a listed kind gives that kind back. */
  lemma KindOfWireName(kind: ErrorKind)
    requires !kind.Other?
    ensures KindOf(WireName(kind)) == kind
  {
  }

  /** The names a plain object literal inherits from `Object.prototype`:
      looking one of them up in the table finds a function (or, for
      `__proto__`, an object), never `undefined`. */
  predicate InheritedName(name: string) {
    name in {"constructor", "hasOwnProperty", "isPrototypeOf", "propertyIsEnumerable",
             "toLocaleString", "toString", "valueOf", "__defineGetter__",
             "__defineSetter__", "__lookupGetter__", "__lookupSetter__", "__proto__"}
  }

  /** What `getErrorMessage` hands back: a string, or, for an inherited
      name, the inherited member itself, which is truthy and so wins over
      the fallback although it is not a string. */
  datatype Shown = Text(text: string) | InheritedMember(name: string)

  /** An error response; `statusCode`, `timestamp` and `path` are never read
      by the lookup and are left out. */
  datatype ErrorResponse = ErrorResponse(error: ErrorKind, message: seq<string>)

  /** The table's own entry for a kind: its message, or nothing for a name
      the table does not list (what the lookup then finds is decided by
      `InheritedName`). */
  function Message(kind: ErrorKind): (entry: Option<string>)
    ensures entry.Some? <==> !kind.Other?
  {
    match kind
    case RouteNotFound => Some("Rota não encontrada")
    case ResourceNotFound => Some("Recurso não encontrado")
    case UserNotFound => Some("Usuário não encontrado")
    case PersonNotFound => Some("Pessoa não encontrada")
    case ValidationError => Some("Erro de validação")
    case InvalidCpf => Some("CPF inválido")
    case InvalidEmail => Some("E-mail inválido")
    case RequiredField => Some("Campo obrigatório não preenchido")
    case ConflictError => Some("Conflito de dados")
    case PersonAlreadyExists => Some("Pessoa já existe")
    case EmailAlreadyExists => Some("E-mail já existe")
    case InternalServerError => Some("Erro interno do servidor")
    case DatabaseError => Some("Erro no banco de dados")
    case UnknownError => Some("Erro desconhecido")
    case Other(_) => None
  }

  /** The internal-server-error text every fallback shows. */
  const Fallback: string := "Erro interno do servidor"

  /** `getErrorMessage`: an unknown error shows the server's first message
      when it has a non-empty one; a listed kind shows its table entry; an
      inherited name shows what it inherits; any other name falls back to
      the internal-server-error text. */
  function GetErrorMessage(response: ErrorResponse): (m: Shown)
    ensures m.Text? ==> m.text != ""
    ensures m.InheritedMember? <==> response.error.Other? && InheritedName(response.error.name)
    ensures response.error != UnknownError && Message(response.error).Some? ==>
      m == Text(Message(response.error).value)
    ensures response.error.Other? && !InheritedName(response.error.name) ==> m == Text(Fallback)
    ensures response.error == UnknownError ==>
      (m == Text(Fallback) || (response.message != [] && m == Text(response.message[0])))
  {
    if response.error == UnknownError then
      if response.message != [] && response.message[0] != "" then Text(response.message[0])
      else Text(Fallback)
    else
      var entry := Message(response.error);
      if entry.Some? && entry.value != "" then Text(entry.value)
      else if response.error.Other? && InheritedName(response.error.name) then
        InheritedMember(response.error.name)
      else Text(Fallback)
  }

  /** Every table entry is a non-empty message, the fallback is the
      internal-server-error entry, and distinct listed kinds have distinct
      messages. */
  lemma MessagesDistinct(a: ErrorKind, b: ErrorKind)
    ensures Message(a).Some? ==> Message(a).value != ""
    ensures Message(InternalServerError) == Some(Fallback)
    ensures Message(a).Some? && Message(a) == Message(b) ==> a == b
  {
  }

  /** An unknown error with a non-empty first message shows that message. */
  lemma UnknownShowsServerMessage(messages: seq<string>)
    requires messages != [] && messages[0] != ""
    ensures GetErrorMessage(ErrorResponse(UnknownError, messages)) == Text(messages[0])
  {
  }

  /** An unknown error with no message, or an empty first one, falls back to
      the internal-server-error text. */
  lemma UnknownFallsBack(messages: seq<string>)
    requires messages == [] || messages[0] == ""
    ensures GetErrorMessage(ErrorResponse(UnknownError, messages)) == Text("Erro interno do servidor")
  {
  }

  /** An error name that is neither listed nor inherited shows the
      internal-server-error text, whatever the messages. */
  lemma OutsideTableFallsBack(name: string, messages: seq<string>)
    requires name !in ListedNames && !InheritedName(name)
    ensures GetErrorMessage(ErrorResponse(KindOf(name), messages)) == Text("Erro interno do servidor")
  {
  }

  /** An inherited name such as "toString" is not caught by the fallback:
      the lookup hands back the inherited member instead of a message. */
  lemma InheritedNameLeaks(name: string, messages: seq<string>)
    requires InheritedName(name)
    ensures GetErrorMessage(ErrorResponse(KindOf(name), messages)) == InheritedMember(name)
  {
  }

  /** For any kind but the unknown error the server's messages do not
      matter. */
  lemma KnownIgnoresMessages(kind: ErrorKind, m1: seq<string>, m2: seq<string>)
    requires kind != UnknownError
    ensures GetErrorMessage(ErrorResponse(kind, m1)) == GetErrorMessage(ErrorResponse(kind, m2))
  {
  }
}
