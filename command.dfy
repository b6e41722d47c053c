/** What the abstract `Command` class offers its subclasses: the login gate
    that the commands needing a login call, the default syntax text, and the
    state a command reads and changes. */
module Command {
  import opened Bank

  /** The state a command works on: the connection's session key and the registry. */
  datatype Snapshot = Snapshot(key: string, customers: Registry)

  /** What executing a command yields: the reply it returns and the new state. */
  datatype Outcome = Outcome(reply: string, after: Snapshot)

  /** The states reachable on a connection: the session is logged out or names a
      registered customer, and nobody holds more than five accounts. */
  predicate WellFormed(s: Snapshot) {
    && (s.key == "" || s.key in s.customers)
    && forall u :: u in s.customers ==> |s.customers[u]| <= MaxAccounts
  }

  /** The exceptions the gate can raise. */
  datatype Rejection = RequestNotAllowed

  /** Message of `RequestNotAllowedException`. Its real text is not part of this
      model; only that it differs from every usage message matters. */
  const RequestNotAllowedMessage := "Request not allowed."

  /** `getMessage()` of a raised rejection. */
  function Message(r: Rejection): string
  {
    match r
    case RequestNotAllowed => RequestNotAllowedMessage
  }

  /** Base `getSyntax()`: a command documents no syntax unless it overrides this. */
  function GetSyntax(): (s: string)
    ensures |s| == 0
  {
    ""
  }

  /** `isLoggedIn(customer)`: the session holds a username. */
  predicate IsLoggedIn(customer: CustomerID)
    reads customer
    ensures IsLoggedIn(customer) <==> |customer.key| > 0
  {
    customer.key != ""
  }

  /** `checkLoggedIn(customer)`: raises RequestNotAllowed exactly when the session
      is empty and otherwise returns normally. Being a function, it cannot change
      the session. */
  function CheckLoggedIn(customer: CustomerID): (r: Option<Rejection>)
    reads customer
    ensures r == Some(RequestNotAllowed) <==> customer.key == ""
    ensures r == None <==> IsLoggedIn(customer)
  {
    if !IsLoggedIn(customer) then Some(RequestNotAllowed) else None
  }

  datatype Option<T> = None | Some(value: T)
}
