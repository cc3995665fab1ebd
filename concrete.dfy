/** The two token services over a shared relational driver. The read-only
    lookups `get`, `get_by_name`, `get_by_jti` (access tokens) and `get`,
    `get_by_provider`, `get_by_user` (provider links) are the functions of
    modules AccessTable and OAuthTable applied to `driver.accessRows` and
    `driver.oauthRows`; the classes below hold the operations that change a
    table, and `get_by_user` for access tokens, which builds its answer in a
    loop. Each service call is one atomic step on the driver's tables. */
module Concrete {
  import opened Records
  import AccessTable
  import OAuthTable
  import opened Relational

  /** The token-issuing collaborator: mints a signed access or refresh token
      for a user, and extracts the `jti` from an access token. */
  datatype Minter = Minter(
    accessFor: UserId -> string,
    refreshFor: UserId -> string,
    jtiOf: string -> string)

  /** An optional string argument that is missing or empty, which the source
      treats alike (`not access_token`). */
  predicate Falsy(s: Option<string>) {
    s == None || s == Some("")
  }

  /** The value the source ends up with for an optional argument: the given
      one when it is non-empty, the minted one otherwise. */
  function OrMinted(given: Option<string>, minted: string): string {
    if Falsy(given) then minted else given.value
  }

  /** The first step of `AccessTokenService.create`: each missing or empty
      token is minted for the user, and a missing or empty `jti` is taken
      from the final access token (never from the refresh token). */
  method ResolveCredentials(userId: UserId, accessToken: Option<string>, refreshToken: Option<string>,
                            jti: Option<string>, minter: Minter)
    returns (access: string, refresh: string, tokenJti: string)
    ensures access == OrMinted(accessToken, minter.accessFor(userId))
    ensures refresh == OrMinted(refreshToken, minter.refreshFor(userId))
    ensures tokenJti == OrMinted(jti, minter.jtiOf(access))
  {
    var a, r, j := accessToken, refreshToken, jti;
    if Falsy(a) {
      a := Some(minter.accessFor(userId));
    }
    if Falsy(r) {
      r := Some(minter.refreshFor(userId));
    }
    if Falsy(j) {
      j := Some(minter.jtiOf(a.value));
    }
    access, refresh, tokenJti := a.value, r.value, j.value;
  }

  /** The access-token service. */
  class AccessTokenService {
    const driver: RelationalStorage

    constructor (driver: RelationalStorage)
      ensures this.driver == driver
    {
      this.driver := driver;
    }

    /** `create`: resolves the tokens, then stores a new unrevoked record
        under a fresh identifier issued at `now`, unless the backend's
        uniqueness constraints refuse it; the stored record is returned and
        `get`, `get_by_name` and `get_by_jti` find it. */
    method Create(name: string, userId: UserId, accessToken: Option<string>, refreshToken: Option<string>,
                  jti: Option<string>, minter: Minter, now: Timestamp)
      returns (r: Result<AccessToken>)
      requires driver.Valid()
      modifies driver`accessRows, driver`nextAccessId
      ensures driver.Valid()
      ensures var access := OrMinted(accessToken, minter.accessFor(userId));
              var row := AccessToken(name, old(driver.nextAccessId), userId, access,
                                     OrMinted(refreshToken, minter.refreshFor(userId)),
                                     false, now, None, OrMinted(jti, minter.jtiOf(access)));
              if AccessTable.Conflicts(old(driver.accessRows), userId, name, row.jti) then
                && r == Failure(Conflict)
                && driver.accessRows == old(driver.accessRows)
                && driver.nextAccessId == old(driver.nextAccessId)
              else
                && r == Success(row)
                && row.id !in old(driver.accessRows)
                && driver.accessRows == old(driver.accessRows)[row.id := row]
                && driver.nextAccessId == old(driver.nextAccessId) + 1
      ensures r.Success? ==> AccessTable.Get(driver.accessRows, r.value.id) == Some(r.value)
      ensures r.Success? ==> AccessTable.GetByName(driver.accessRows, userId, name) == Some(r.value)
      ensures r.Success? ==> AccessTable.GetByJti(driver.accessRows, userId, r.value.jti) == Some(r.value)
    {
      var access, refresh, tokenJti := ResolveCredentials(userId, accessToken, refreshToken, jti, minter);
      if AccessTable.Conflicts(driver.accessRows, userId, name, tokenJti) {
        return Failure(Conflict);
      }
      var row := AccessToken(name, driver.nextAccessId, userId, access, refresh, false, now, None, tokenJti);
      AccessTable.CreateThenGet(driver.accessRows, row);
      driver.accessRows := driver.accessRows[row.id := row];
      driver.nextAccessId := driver.nextAccessId + 1;
      r := Success(row);
    }

    /** `get_by_user`: a mapping whose keys are exactly the names of the
        user's records, each name mapped to its record; empty for a user
        without records. */
    method GetByUser(userId: UserId) returns (result: map<string, AccessToken>)
      requires driver.Valid()
      ensures result.Keys == AccessTable.UserNames(driver.accessRows, userId)
      ensures forall k :: k in driver.accessRows && driver.accessRows[k].userId == userId ==>
                result[driver.accessRows[k].name] == driver.accessRows[k]
      ensures result == map[] <==> forall k :: k in driver.accessRows ==> driver.accessRows[k].userId != userId
      ensures |result| == |AccessTable.UserIds(driver.accessRows, userId)|
    {
      var rows := driver.accessRows;
      var owned := AccessTable.UserIds(rows, userId);
      var pending := owned;
      result := map[];
      while pending != {}
        invariant pending <= owned
        invariant result.Keys == set k | k in owned - pending :: rows[k].name
        invariant forall k :: k in owned - pending ==> result[rows[k].name] == rows[k]
        decreases pending
      {
        var k :| k in pending;
        result := result[rows[k].name := rows[k]];
        pending := pending - {k};
      }
      assert owned - pending == owned;
      AccessTable.NamesCount(rows, userId, owned);
      assert |result| == |result.Keys|;
    }

    /** `delete`: removes the user's record `tokenId`, touching nothing else. */
    method Delete(userId: UserId, tokenId: TokenId)
      requires driver.Valid()
      modifies driver`accessRows
      ensures driver.Valid()
      ensures driver.accessRows == AccessTable.Deleted(old(driver.accessRows), userId, tokenId)
    {
      AccessTable.DeleteThenGet(driver.accessRows, userId, tokenId);
      driver.accessRows := AccessTable.Deleted(driver.accessRows, userId, tokenId);
    }

    /** `revoke`: marks the user's record `tokenId` revoked, touching nothing else. */
    method Revoke(userId: UserId, tokenId: TokenId)
      requires driver.Valid()
      modifies driver`accessRows
      ensures driver.Valid()
      ensures driver.accessRows == AccessTable.Revoked(old(driver.accessRows), userId, tokenId)
    {
      AccessTable.RevokeThenGet(driver.accessRows, userId, tokenId);
      driver.accessRows := AccessTable.Revoked(driver.accessRows, userId, tokenId);
    }
  }

  /** The provider-token service. */
  class OAuthTokenService {
    const driver: RelationalStorage

    constructor (driver: RelationalStorage)
      ensures this.driver == driver
    {
      this.driver := driver;
    }

    /** `create`: stores a new link under a fresh identifier, unless the
        backend's uniqueness constraints refuse it; the stored link is
        returned and `get` and `get_by_provider` find it. */
    method Create(userId: UserId, provider: string, providerId: string, token: string)
      returns (r: Result<OAuthToken>)
      requires driver.Valid()
      modifies driver`oauthRows, driver`nextOAuthId
      ensures driver.Valid()
      ensures var row := OAuthToken(old(driver.nextOAuthId), userId, provider, providerId, token);
              if OAuthTable.Conflicts(old(driver.oauthRows), userId, provider, providerId) then
                && r == Failure(Conflict)
                && driver.oauthRows == old(driver.oauthRows)
                && driver.nextOAuthId == old(driver.nextOAuthId)
              else
                && r == Success(row)
                && row.id !in old(driver.oauthRows)
                && driver.oauthRows == old(driver.oauthRows)[row.id := row]
                && driver.nextOAuthId == old(driver.nextOAuthId) + 1
      ensures r.Success? ==> OAuthTable.Get(driver.oauthRows, userId, r.value.id) == Some(r.value)
      ensures r.Success? ==> OAuthTable.GetByProvider(driver.oauthRows, provider, providerId) == Some(r.value)
    {
      if OAuthTable.Conflicts(driver.oauthRows, userId, provider, providerId) {
        return Failure(Conflict);
      }
      var row := OAuthToken(driver.nextOAuthId, userId, provider, providerId, token);
      OAuthTable.CreateThenGet(driver.oauthRows, row);
      driver.oauthRows := driver.oauthRows[row.id := row];
      driver.nextOAuthId := driver.nextOAuthId + 1;
      r := Success(row);
    }

    /** `delete`: removes the user's link `oauthId`, touching nothing else. */
    method Delete(userId: UserId, oauthId: TokenId)
      requires driver.Valid()
      modifies driver`oauthRows
      ensures driver.Valid()
      ensures driver.oauthRows == OAuthTable.Deleted(old(driver.oauthRows), userId, oauthId)
    {
      OAuthTable.DeleteThenGet(driver.oauthRows, userId, oauthId);
      driver.oauthRows := OAuthTable.Deleted(driver.oauthRows, userId, oauthId);
    }

    /** `delete_by_user`: removes all of the user's links and no other. */
    method DeleteByUser(userId: UserId)
      requires driver.Valid()
      modifies driver`oauthRows
      ensures driver.Valid()
      ensures driver.oauthRows == OAuthTable.DeletedByUser(old(driver.oauthRows), userId)
    {
      OAuthTable.DeleteByUserThenGet(driver.oauthRows, userId);
      driver.oauthRows := OAuthTable.DeletedByUser(driver.oauthRows, userId);
    }

    /** `set_for_user`: replaces the token of the user's links, keeping their
        identifiers; a user without a link is left without one. */
    method SetForUser(userId: UserId, token: string)
      requires driver.Valid()
      modifies driver`oauthRows
      ensures driver.Valid()
      ensures driver.oauthRows == OAuthTable.Updated(old(driver.oauthRows), userId, token)
    {
      OAuthTable.SetForUserThenGet(driver.oauthRows, userId, token);
      driver.oauthRows := OAuthTable.Updated(driver.oauthRows, userId, token);
    }
  }
}
