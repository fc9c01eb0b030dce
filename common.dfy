/** Shared vocabulary of the PHP backend: optional JSON members, PHP's notion of
    an "empty" value, HTTP methods and status codes, and the library functions the
    handlers call but whose implementation is not part of this model. */
module Common {

  datatype Option<T> = None | Some(value: T) {
    function GetOr(default: T): T {
      match this
      case Some(v) => v
      case None => default
    }
  }

  /** PHP's `empty()` on a member of a decoded JSON body holding a string:
      absent, null, "" and "0" are all empty. */
  predicate Blank(o: Option<string>) {
    o.None? || o.value == "" || o.value == "0"
  }

  /** PHP's `empty()` on a member holding a number: absent, null and 0 are empty
      (a negative number is not). */
  predicate BlankInt(o: Option<int>) {
    o.None? || o.value == 0
  }

  /** PHP's truthiness of a string column value: "" and "0" are false. */
  predicate Truthy(s: string) {
    s != "" && s != "0"
  }

  /** The request method, as the handlers' `switch($method)` sees it. */
  datatype Method = Get | Post | Put | Delete | Options | OtherMethod(name: string)

  const StatusOk: int := 200
  const StatusCreated: int := 201
  const StatusBadRequest: int := 400
  const StatusUnauthorized: int := 401
  const StatusMethodNotAllowed: int := 405
  const StatusConflict: int := 409
  const StatusServerError: int := 500
  const StatusUnavailable: int := 503

  /** What the storage layer does with one prepared statement: it runs (and then
      integrity constraints decide), `execute()` returns false, or it throws. */
  datatype Exec = Runs | ReturnsFalse | Throws

  /** The storage layer's behaviour for the (at most two) statements a request runs,
      in the order the handler runs them. */
  datatype Plan = Plan(first: Exec, second: Exec)

  /** PHP library functions the handlers call:
      `clean` is `htmlspecialchars(strip_tags(.))`, `md5` the password digest,
      `jsonEncode`/`jsonDecode` the JSON codec of a registration-number list. */
  datatype Runtime = Runtime(
    clean: string -> string,
    md5: string -> string,
    jsonEncode: seq<string> -> string,
    jsonDecode: string -> seq<string>)

  /** `htmlspecialchars(strip_tags($x))` of an optional member: PHP turns an absent
      member (null) into "". */
  function CleanOr(php: Runtime, o: Option<string>): string {
    match o
    case Some(s) => php.clean(s)
    case None => ""
  }

  /** `isset($x) ? htmlspecialchars(strip_tags($x)) : null` */
  function CleanOpt(php: Runtime, o: Option<string>): (r: Option<string>)
    ensures r.Some? <==> o.Some?
  {
    match o
    case Some(s) => Some(php.clean(s))
    case None => None
  }
}
