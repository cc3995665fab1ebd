/** The plain value records handed out by the credential stores, and the
    small wrappers the stores use to signal an absent result or a failure. */
module Records {

  /** An absent result (`None` in the service's return values) or a value. */
  datatype Option<+T> = None | Some(value: T)

  /** The failure a store operation can report to its caller. `Conflict` is the
      backend's uniqueness-constraint violation, which the service lets
      propagate unchanged. */
  datatype StoreError = Conflict

  datatype Result<+T> = Success(value: T) | Failure(error: StoreError)

  /** Record identifiers are assigned by the store; users are identified by
      their string form, so `str(user_id)` is the identifier itself. */
  type TokenId = nat
  type UserId = string

  /** Timestamps are opaque values that the stores only copy through. */
  type Timestamp = nat

  /** The configuration handed to the storage backend; never interpreted here. */
  type Config = map<string, string>

  /** A locally issued access/refresh token pair and its bookkeeping. */
  datatype AccessToken = AccessToken(
    name: string,
    id: TokenId,
    userId: UserId,
    accessToken: string,
    refreshToken: string,
    revoked: bool,
    issuedOn: Timestamp,
    lastUsedOn: Option<Timestamp>,
    jti: string)

  /** A link between a local user and an account at an identity provider. */
  datatype OAuthToken = OAuthToken(
    id: TokenId,
    userId: UserId,
    provider: string,
    providerId: string,
    token: string)

  /** The smallest identifier of a non-empty set: the first row, in
      identifier order, among several rows that match a query. */
  function MinKey(s: set<TokenId>): (k: TokenId)
    requires s != {}
    ensures k in s
    ensures forall j :: j in s ==> k <= j
  {
    MinKeyExists(s);
    var k :| k in s && forall j :: j in s ==> k <= j;
    k
  }

  lemma {:induction false} MinKeyExists(s: set<TokenId>)
    requires s != {}
    ensures exists k :: k in s && forall j :: j in s ==> k <= j
  {
    var x :| x in s;
    if s != {x} {
      MinKeyExists(s - {x});
      var m :| m in s - {x} && forall j :: j in s - {x} ==> m <= j;
      var k := if x < m then x else m;
      forall j | j in s
        ensures k <= j
      {
        if j != x {
          assert j in s - {x};
        }
      }
    } else {
      assert forall j :: j in s ==> x <= j;
    }
  }
}
