/** The pieces of the Swift proxy runtime that the undelete middleware consumes:
    header dictionaries, WSGI environment lookups, Swift's `config_true_value`,
    `http.is_success`, and the request/response objects whose headers the
    middleware updates in place. */
module SwiftCommon {

  datatype Option<+T> = None | Some(value: T)

  /** A header dictionary. For swob requests and responses (case-insensitive
      dictionaries) keys are written in lower case; for the dictionaries
      handed to the transport client keys keep the spelling used at the call. */
  type Headers = map<string, string>

  /** What an HTTP exchange returns: status code, headers and full body. */
  datatype Reply = Reply(status: int, headers: Headers, content: string)

  /** How an internal request issued by the middleware ends: with a reply, or
      with an exception raised while building or sending it (a transport
      error or time-out from the client library, a missing `Host` header or
      missing keystone token information in the environment). */
  datatype Exchange = Answered(reply: Reply) | Raised

  /** The Python values the policy code feeds to `config_true_value` and `bool`. */
  datatype PyValue = PyBool(b: bool) | PyInt(n: int) | PyStr(s: string)

  /** `http.is_success`: a 2xx status. */
  predicate IsSuccess(status: int)
  {
    200 <= status <= 299
  }

  /** The literals Swift's `config_true_value` accepts, once lower-cased. */
  const TrueValues: set<string> := {"true", "1", "yes", "on", "t", "y"}

  function LowerChar(c: char): (r: char)
    ensures 'A' <= c <= 'Z' ==> 'a' <= r <= 'z'
    ensures !('A' <= c <= 'Z') ==> r == c
  {
    if 'A' <= c <= 'Z' then (c as int + 32) as char else c
  }

  /** `str.lower()` on ASCII letters. Every literal this middleware compares a
      lowered value with is ASCII, so the comparisons come out as in Python. */
  function Lower(s: string): (r: string)
    ensures |r| == |s|
    ensures forall i :: 0 <= i < |s| ==> r[i] == LowerChar(s[i])
  {
    if s == [] then [] else [LowerChar(s[0])] + Lower(s[1..])
  }

  /** Swift's `utils.config_true_value`: `value is True`, or a string whose
      lower-cased form is one of the true literals. */
  predicate ConfigTrueValue(v: PyValue)
  {
    v == PyBool(true) || (v.PyStr? && Lower(v.s) in TrueValues)
  }

  /** Python's `bool(x)` for an optional value (None is false). */
  predicate Truthy(v: Option<PyValue>)
  {
    match v
    case None => false
    case Some(PyBool(b)) => b
    case Some(PyInt(n)) => n != 0
    case Some(PyStr(s)) => s != ""
  }

  /** What the middleware reads from a request's WSGI environment: the
      `reseller_request` marker set by the auth layer, the auth token, and the
      `sysmeta` dictionaries `get_container_info` and `get_account_info`
      return for the request's container and account (keys without the
      `x-<type>-sysmeta-` prefix). */
  datatype Environ = Environ(
    resellerRequest: Option<PyValue>,
    authToken: string,
    containerSysmeta: map<string, string>,
    accountSysmeta: map<string, string>)

  /** The result of `req.split_path(2, 4, rest_with_last=True)`: either the
      path cannot be split (a `ValueError`, e.g. `/info`), or a version, an
      account and optional container and object segments. */
  datatype SplitPath =
    | Unroutable
    | Split(version: string, account: string, container: Option<string>, obj: Option<string>)

  /** A swob request: its path, method and environment are fixed, its headers
      are updated in place by the middleware. */
  class Request {
    const path: SplitPath
    const verb: string
    const environ: Environ
    var headers: Headers

    constructor (path: SplitPath, verb: string, environ: Environ, headers: Headers)
      ensures this.path == path && this.verb == verb && this.environ == environ
      ensures this.headers == headers
    {
      this.path := path;
      this.verb := verb;
      this.environ := environ;
      this.headers := headers;
    }
  }

  /** A swob response; the middleware rewrites its headers in place. */
  class Response {
    var status: int
    var headers: Headers
    var body: string

    constructor (reply: Reply)
      ensures status == reply.status && headers == reply.headers && body == reply.content
    {
      status := reply.status;
      headers := reply.headers;
      body := reply.content;
    }
  }
}
