/** The REST side of the hooks: the three entities, the requests the hooks issue,
    the replies they can get back, and the error messages they derive from a
    failed reply. The HTTP transport itself is not modelled: the server's answer
    is an input, and `Transmit` stands for the one thing the browser decides on
    its own, rejecting a URL whose scheme it cannot fetch. */
module Rest {
  import opened Fields
  import opened Js

  datatype Entity = Employee | Product | Blog

  datatype Verb = GET | POST | PUT | DELETE

  datatype Request = Request(verb: Verb, url: string, body: Option<Record>)

  /** What a request gets back.
      - `Ok(body)`: a 2xx status with a body that parsed as JSON;
      - `HttpErr`: any other status; `errorBody` is the body parsed as a JSON
        object, or `None` when it did not parse;
      - `NetworkErr(message)`: `fetch` itself rejected, with no response;
      - `BadBody(message)`: a 2xx status whose body did not parse, so
        `response.json()` rejected. */
  datatype Reply<T> =
    | Ok(body: T)
    | HttpErr(status: nat, statusText: string, errorBody: Option<Record>)
    | NetworkErr(message: string)
    | BadBody(message: string)

  /** A 2xx status, whether or not its body parsed: all that a DELETE looks at. */
  predicate StatusOk<T>(r: Reply<T>) {
    r.Ok? || r.BadBody?
  }

  const ApiBase: string := "http://localhost:4000/api/"

  function ResourceName(e: Entity): string {
    match e
    case Employee => "employee"
    case Product => "products"
    case Blog => "blog"
  }

  /** The collection endpoint: GET lists the entity. */
  function CollectionUrl(e: Entity): (url: string)
    ensures StartsWith(url, "http://")
  {
    ApiBase + ResourceName(e)
  }

  /** `${base}/${id}`: the endpoint PUT and DELETE go to. */
  function ItemUrl(e: Entity, id: Value): (url: string)
    ensures StartsWith(url, "http://")
    ensures StartsWith(url, CollectionUrl(e) + "/")
  {
    CollectionUrl(e) + "/" + JsString(id)
  }

  /** The URL the employee hook actually POSTs to: its scheme is misspelt. */
  function CreateUrlAsWritten(e: Entity): string {
    if e == Employee then "hhttp://localhost:4000/api/employee" else CollectionUrl(e)
  }

  /** The URL every create is meant to POST to: the collection endpoint. */
  function CreateUrl(e: Entity): string {
    CollectionUrl(e)
  }

  /** The message browsers give when `fetch` cannot reach a URL at all. */
  const FailedToFetch: string := "Failed to fetch"

  /** What `fetch(url)` settles with when the server would answer `server`: the
      page only ever fetches `http://` URLs, and anything else is rejected before
      a request leaves the browser. */
  function Transmit<T>(url: string, server: Reply<T>): Reply<T> {
    if StartsWith(url, "http://") then server else NetworkErr(FailedToFetch)
  }

  /** As written, an employee create never reaches the server: whatever the
      server would have answered, the promise rejects at the network level. */
  lemma EmployeeCreateAsWrittenAlwaysRejected<T>(server: Reply<T>)
    ensures Transmit(CreateUrlAsWritten(Employee), server) == NetworkErr(FailedToFetch)
    ensures CreateUrlAsWritten(Employee) != CreateUrl(Employee)
  {
    assert CreateUrlAsWritten(Employee)[1] == 'h';
    assert CreateUrl(Employee)[1] == 't';
  }

  /** The corrected create URL is the collection endpoint of every entity, and
      the server's answer reaches the hook unchanged. */
  lemma CreateReachesServer<T>(e: Entity, server: Reply<T>)
    ensures Transmit(CreateUrl(e), server) == server
    ensures e != Employee ==> CreateUrl(e) == CreateUrlAsWritten(e)
  {
  }

  /** `Error: ${status} ${statusText}`. */
  function StatusMessage(status: nat, statusText: string): (m: string)
    ensures StartsWith(m, "Error: ")
  {
    "Error: " + DecimalString(status) + " " + statusText
  }

  /** In a status line, the status digits run up to the first space. */
  lemma FirstSpaceAfterStatus(status: nat, statusText: string)
    ensures var d, m := DecimalString(status), StatusMessage(status, statusText);
      m[7 + |d|] == ' ' && forall i :: 7 <= i < 7 + |d| ==> m[i] != ' '
  {
    var d, m := DecimalString(status), StatusMessage(status, statusText);
    forall i | 7 <= i < 7 + |d| ensures m[i] != ' ' {
      assert m[i] == d[i - 7];
    }
  }

  /** Two failures with different statuses never share a status message. */
  lemma StatusMessageInjective(s1: nat, t1: string, s2: nat, t2: string)
    requires StatusMessage(s1, t1) == StatusMessage(s2, t2)
    ensures s1 == s2 && t1 == t2
  {
    var d1, d2 := DecimalString(s1), DecimalString(s2);
    var m := StatusMessage(s1, t1);
    assert m == "Error: " + d1 + " " + t1;
    assert m == "Error: " + d2 + " " + t2;
    FirstSpaceAfterStatus(s1, t1);
    FirstSpaceAfterStatus(s2, t2);
    assert |d1| == |d2|;
    assert d1 == m[7..7 + |d1|] == d2;
    DecimalInjective(s1, s2);
    assert t1 == m[8 + |d1|..] == t2;
  }

  /** The message a failed list fetch stores: the status line for an HTTP
      failure (the body is not read), otherwise the rejection's own message. */
  function FetchErrorMessage<T>(r: Reply<T>): (m: string)
    requires !r.Ok?
    ensures r.HttpErr? ==> m == StatusMessage(r.status, r.statusText)
    ensures r.NetworkErr? || r.BadBody? ==> m == r.message
  {
    match r
    case HttpErr(status, text, _) => StatusMessage(status, text)
    case NetworkErr(message) => message
    case BadBody(message) => message
  }

  /** The message a failed create, update or delete stores and rethrows:
      `new Error(errorData.message || statusLine).message`, where an error body
      that does not parse counts as `{}`. */
  function MutationErrorMessage<T>(r: Reply<T>): (m: string)
    requires !r.Ok?
  {
    match r
    case HttpErr(status, text, body) =>
      JsString(Or(Get(body.GetOr(map[]), Message), Str(StatusMessage(status, text))))
    case NetworkErr(message) => message
    case BadBody(message) => message
  }

  /** A truthy `message` in the error body wins; a missing, empty or unparseable
      one falls back to the status line the list fetch would report too. */
  lemma MutationErrorMessageCases<T>(r: Reply<T>)
    requires !r.Ok?
    ensures r.HttpErr? && r.errorBody.Some? && Truthy(Get(r.errorBody.value, Message)) ==>
      MutationErrorMessage(r) == JsString(Get(r.errorBody.value, Message))
    ensures r.HttpErr? && (r.errorBody.None? || !Truthy(Get(r.errorBody.value, Message))) ==>
      MutationErrorMessage(r) == StatusMessage(r.status, r.statusText)
    ensures !r.HttpErr? ==> MutationErrorMessage(r) == FetchErrorMessage(r)
  {
  }

  /** The two messages differ only when the error body carries a truthy message. */
  lemma MutationMessageAgreesWithFetch<T>(r: Reply<T>)
    requires !r.Ok?
    ensures MutationErrorMessage(r) != FetchErrorMessage(r) ==>
      r.HttpErr? && r.errorBody.Some? && Truthy(Get(r.errorBody.value, Message))
  {
  }
}
