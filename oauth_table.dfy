/** The table of provider-token links behind `OAuthTokenService`, as a map
    from link identifier to link, with the lookups the service exposes and
    the updates its mutating operations apply. As for access tokens, the
    returned record is the stored link itself. */
module OAuthTable {
  import opened Records

  type Table = map<TokenId, OAuthToken>

  /** What the backend guarantees of every table: each link is stored under
      its own identifier, `(provider, provider_id)` names at most one link
      across all users, and a user has at most one link per provider. */
  ghost predicate Valid(t: Table) {
    && (forall k :: k in t ==> t[k].id == k)
    && (forall a, b :: a in t && b in t && t[a].provider == t[b].provider && t[a].providerId == t[b].providerId ==> a == b)
    && (forall a, b :: a in t && b in t && t[a].userId == t[b].userId && t[a].provider == t[b].provider ==> a == b)
  }

  /** A new link of `userId` to `(provider, providerId)` would violate a
      uniqueness constraint. */
  predicate Conflicts(t: Table, userId: UserId, provider: string, providerId: string) {
    exists k :: k in t && (
      || (t[k].provider == provider && t[k].providerId == providerId)
      || (t[k].userId == userId && t[k].provider == provider))
  }

  /** The identifiers of the links to the external account `(provider, providerId)`. */
  function ProviderIds(t: Table, provider: string, providerId: string): set<TokenId> {
    set k | k in t && t[k].provider == provider && t[k].providerId == providerId
  }

  /** The identifiers of all of `userId`'s links. */
  function UserIds(t: Table, userId: UserId): set<TokenId> {
    set k | k in t && t[k].userId == userId
  }

  /** `OAuthTokenService.get`: the link `oauthId` when it belongs to `userId`. */
  function Get(t: Table, userId: UserId, oauthId: TokenId): (r: Option<OAuthToken>)
    ensures r.None? <==> !(oauthId in t && t[oauthId].userId == userId)
    ensures r.Some? ==> r.value == t[oauthId]
  {
    if oauthId in t && t[oauthId].userId == userId then Some(t[oauthId]) else None
  }

  /** `OAuthTokenService.get_by_provider`: absent when no link names the
      external account, otherwise a stored link that does. */
  function GetByProvider(t: Table, provider: string, providerId: string): (r: Option<OAuthToken>)
    ensures r.None? <==> forall k :: k in t ==> !(t[k].provider == provider && t[k].providerId == providerId)
    ensures r.Some? ==> r.value in t.Values && r.value.provider == provider && r.value.providerId == providerId
  {
    var hits := ProviderIds(t, provider, providerId);
    if hits == {} then
      assert forall k :: k in t ==> k !in hits;
      None
    else
      var k := MinKey(hits);
      assert k in t;
      Some(t[k])
  }

  /** `OAuthTokenService.get_by_user`: absent when the user has no link,
      otherwise one of the user's links, the first one stored. */
  function GetByUser(t: Table, userId: UserId): (r: Option<OAuthToken>)
    ensures r.None? <==> forall k :: k in t ==> t[k].userId != userId
    ensures r.Some? ==> r.value in t.Values && r.value.userId == userId
    ensures r.Some? && Valid(t) ==> forall k :: k in t && t[k].userId == userId ==> r.value.id <= k
  {
    var hits := UserIds(t, userId);
    if hits == {} then
      assert forall k :: k in t ==> k !in hits;
      None
    else
      var k := MinKey(hits);
      assert k in t;
      assert forall j :: j in t && t[j].userId == userId ==> j in hits;
      Some(t[k])
  }

  /** `OAuthTokenService.set_for_user`: every link of `userId` gets the new
      token and keeps everything else; other users' links are unchanged. */
  function Updated(t: Table, userId: UserId, token: string): (r: Table)
    ensures r.Keys == t.Keys
    ensures forall k :: k in t && t[k].userId == userId ==> r[k] == t[k].(token := token)
    ensures forall k :: k in t && t[k].userId != userId ==> r[k] == t[k]
  {
    map k | k in t :: if t[k].userId == userId then t[k].(token := token) else t[k]
  }

  /** `OAuthTokenService.delete`: the link `oauthId`, when it belongs to
      `userId`, is removed; every other link is left as it was. */
  function Deleted(t: Table, userId: UserId, oauthId: TokenId): (r: Table)
    ensures oauthId in t && t[oauthId].userId == userId ==> r.Keys == t.Keys - {oauthId}
    ensures !(oauthId in t && t[oauthId].userId == userId) ==> r == t
    ensures forall k :: k in r ==> k in t && r[k] == t[k]
  {
    if oauthId in t && t[oauthId].userId == userId then t - {oauthId} else t
  }

  /** `OAuthTokenService.delete_by_user`: all of `userId`'s links are removed
      and every other user's links are left as they were. */
  function DeletedByUser(t: Table, userId: UserId): (r: Table)
    ensures r.Keys == t.Keys - UserIds(t, userId)
    ensures forall k :: k in r ==> r[k] == t[k] && r[k].userId != userId
    ensures forall k :: k in t && t[k].userId != userId ==> k in r
  {
    map k | k in t && t[k].userId != userId :: t[k]
  }

  /** Under the uniqueness constraints a stored link is the one answer to
      its owner-and-identifier key and to its external-account key. */
  lemma StoredIsFound(t: Table, k: TokenId)
    requires Valid(t) && k in t
    ensures Get(t, t[k].userId, k) == Some(t[k])
    ensures GetByProvider(t, t[k].provider, t[k].providerId) == Some(t[k])
  {
  }

  /** Storing a link under a fresh identifier, when no constraint objects,
      keeps the table valid; the new link is then what `get` and
      `get_by_provider` return, the user now has a link, and every other
      identifier still gives what it gave before. */
  lemma CreateThenGet(t: Table, row: OAuthToken)
    requires Valid(t)
    requires row.id !in t
    requires !Conflicts(t, row.userId, row.provider, row.providerId)
    ensures Valid(t[row.id := row])
    ensures Get(t[row.id := row], row.userId, row.id) == Some(row)
    ensures GetByProvider(t[row.id := row], row.provider, row.providerId) == Some(row)
    ensures GetByUser(t[row.id := row], row.userId).Some?
    ensures forall u, k :: k != row.id ==> Get(t[row.id := row], u, k) == Get(t, u, k)
  {
  }

  /** Setting a user's token keeps the table valid, and afterwards
      `get_by_user` returns the same link as before, with the same
      identifier and the new token. */
  lemma SetForUserThenGet(t: Table, userId: UserId, token: string)
    requires Valid(t)
    ensures Valid(Updated(t, userId, token))
    ensures GetByUser(Updated(t, userId, token), userId) ==
              match GetByUser(t, userId)
              case None => None
              case Some(link) => Some(link.(token := token))
  {
  }

  /** Deleting a user's links keeps the table valid; afterwards the user has
      no link, and every other user's `get_by_user` answer is unchanged. */
  lemma DeleteByUserThenGet(t: Table, userId: UserId)
    requires Valid(t)
    ensures Valid(DeletedByUser(t, userId))
    ensures GetByUser(DeletedByUser(t, userId), userId) == None
    ensures forall other :: other != userId ==> GetByUser(DeletedByUser(t, userId), other) == GetByUser(t, other)
  {
  }

  /** Deleting a link keeps the table valid; afterwards `get` finds nothing
      under the deleted identifier. */
  lemma DeleteThenGet(t: Table, userId: UserId, oauthId: TokenId)
    requires Valid(t)
    ensures Valid(Deleted(t, userId, oauthId))
    ensures Get(Deleted(t, userId, oauthId), userId, oauthId) == None
  {
  }
}
