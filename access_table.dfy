/** The table of access-token records behind `AccessTokenService`, as a map
    from record identifier to record, with the lookups the service exposes
    and the updates its mutating operations apply. Each lookup returns the
    stored record itself: the service copies a row field by field into an
    immutable record, which gives a value equal to the row. */
module AccessTable {
  import opened Records

  type Table = map<TokenId, AccessToken>

  /** What the backend guarantees of every table: each record is stored under
      its own identifier, `(user_id, name)` is unique, and `jti` is unique
      across all users. */
  ghost predicate Valid(t: Table) {
    && (forall k :: k in t ==> t[k].id == k)
    && (forall a, b :: a in t && b in t && t[a].userId == t[b].userId && t[a].name == t[b].name ==> a == b)
    && (forall a, b :: a in t && b in t && t[a].jti == t[b].jti ==> a == b)
  }

  /** A new record for `userId` named `name` with this `jti` would violate a
      uniqueness constraint. */
  predicate Conflicts(t: Table, userId: UserId, name: string, jti: string) {
    exists k :: k in t && ((t[k].userId == userId && t[k].name == name) || t[k].jti == jti)
  }

  /** `AccessTokenService.get`: the record stored under `tokenId`, if any. */
  function Get(t: Table, tokenId: TokenId): (r: Option<AccessToken>)
    ensures r.None? <==> tokenId !in t
    ensures r.Some? ==> r.value == t[tokenId]
  {
    if tokenId in t then Some(t[tokenId]) else None
  }

  /** The identifiers of `userId`'s records named `name`. */
  function NamedIds(t: Table, userId: UserId, name: string): set<TokenId> {
    set k | k in t && t[k].userId == userId && t[k].name == name
  }

  /** The identifiers of `userId`'s records carrying `jti`. */
  function JtiIds(t: Table, userId: UserId, jti: string): set<TokenId> {
    set k | k in t && t[k].userId == userId && t[k].jti == jti
  }

  /** The identifiers of all of `userId`'s records. */
  function UserIds(t: Table, userId: UserId): set<TokenId> {
    set k | k in t && t[k].userId == userId
  }

  /** The names of all of `userId`'s records. */
  function UserNames(t: Table, userId: UserId): set<string> {
    set k | k in UserIds(t, userId) :: t[k].name
  }

  /** `AccessTokenService.get_by_name`: absent when no record matches both
      keys, otherwise a stored record that does. */
  function GetByName(t: Table, userId: UserId, name: string): (r: Option<AccessToken>)
    ensures r.None? <==> forall k :: k in t ==> !(t[k].userId == userId && t[k].name == name)
    ensures r.Some? ==> r.value in t.Values && r.value.userId == userId && r.value.name == name
  {
    var hits := NamedIds(t, userId, name);
    if hits == {} then
      assert forall k :: k in t ==> k !in hits;
      None
    else
      var k := MinKey(hits);
      assert k in t;
      Some(t[k])
  }

  /** `AccessTokenService.get_by_jti`: absent when no record matches both
      keys, otherwise a stored record that does. */
  function GetByJti(t: Table, userId: UserId, jti: string): (r: Option<AccessToken>)
    ensures r.None? <==> forall k :: k in t ==> !(t[k].userId == userId && t[k].jti == jti)
    ensures r.Some? ==> r.value in t.Values && r.value.userId == userId && r.value.jti == jti
  {
    var hits := JtiIds(t, userId, jti);
    if hits == {} then
      assert forall k :: k in t ==> k !in hits;
      None
    else
      var k := MinKey(hits);
      assert k in t;
      Some(t[k])
  }

  /** `AccessTokenService.revoke`: the record `tokenId`, when it belongs to
      `userId`, is marked revoked; every other record is left as it was. */
  function Revoked(t: Table, userId: UserId, tokenId: TokenId): (r: Table)
    ensures r.Keys == t.Keys
    ensures tokenId in t && t[tokenId].userId == userId ==>
              r[tokenId].revoked && r[tokenId] == t[tokenId].(revoked := true)
    ensures forall k :: k in t && !(k == tokenId && t[k].userId == userId) ==> r[k] == t[k]
  {
    if tokenId in t && t[tokenId].userId == userId then t[tokenId := t[tokenId].(revoked := true)] else t
  }

  /** `AccessTokenService.delete`: the record `tokenId`, when it belongs to
      `userId`, is removed; every other record is left as it was. */
  function Deleted(t: Table, userId: UserId, tokenId: TokenId): (r: Table)
    ensures tokenId in t && t[tokenId].userId == userId ==> r.Keys == t.Keys - {tokenId}
    ensures !(tokenId in t && t[tokenId].userId == userId) ==> r == t
    ensures forall k :: k in r ==> k in t && r[k] == t[k]
  {
    if tokenId in t && t[tokenId].userId == userId then t - {tokenId} else t
  }

  /** Under the uniqueness constraints a stored record is the one answer to
      each of its keys. */
  lemma StoredIsFound(t: Table, k: TokenId)
    requires Valid(t) && k in t
    ensures Get(t, k) == Some(t[k])
    ensures GetByName(t, t[k].userId, t[k].name) == Some(t[k])
    ensures GetByJti(t, t[k].userId, t[k].jti) == Some(t[k])
  {
  }

  /** Storing a record under a fresh identifier, when no constraint objects,
      keeps the table valid; the new record is then what `get`,
      `get_by_name` and `get_by_jti` return, and every other identifier
      still gives what it gave before. */
  lemma CreateThenGet(t: Table, row: AccessToken)
    requires Valid(t)
    requires row.id !in t
    requires !Conflicts(t, row.userId, row.name, row.jti)
    ensures Valid(t[row.id := row])
    ensures Get(t[row.id := row], row.id) == Some(row)
    ensures GetByName(t[row.id := row], row.userId, row.name) == Some(row)
    ensures GetByJti(t[row.id := row], row.userId, row.jti) == Some(row)
    ensures forall k :: k != row.id ==> Get(t[row.id := row], k) == Get(t, k)
  {
  }

  /** A record, once stored, makes every later record with its user and
      name, or with its `jti`, a conflict. */
  lemma CreateTwiceConflicts(t: Table, row: AccessToken, other: AccessToken)
    requires (other.userId == row.userId && other.name == row.name) || other.jti == row.jti
    ensures Conflicts(t[row.id := row], other.userId, other.name, other.jti)
  {
    assert row.id in t[row.id := row];
  }

  /** After a record is stored, a new record conflicts exactly when it
      conflicted before, or shares the stored record's user and name, or its
      `jti`: a second record with another name and another `jti` is accepted. */
  lemma ConflictsAfterCreate(t: Table, row: AccessToken, userId: UserId, name: string, jti: string)
    requires row.id !in t
    ensures Conflicts(t[row.id := row], userId, name, jti) <==>
              || Conflicts(t, userId, name, jti)
              || (userId == row.userId && name == row.name)
              || jti == row.jti
  {
    var t' := t[row.id := row];
    if Conflicts(t', userId, name, jti) {
      var k :| k in t' && ((t'[k].userId == userId && t'[k].name == name) || t'[k].jti == jti);
      if k != row.id {
        assert k in t && t[k] == t'[k];
      }
    }
    if Conflicts(t, userId, name, jti) {
      var k :| k in t && ((t[k].userId == userId && t[k].name == name) || t[k].jti == jti);
      assert k in t' && t'[k] == t[k];
    }
    if (userId == row.userId && name == row.name) || jti == row.jti {
      assert row.id in t';
    }
  }

  /** Under the uniqueness constraints a user's records have pairwise
      different names, so there are as many names as records. */
  lemma {:induction false} NamesCount(t: Table, userId: UserId, ids: set<TokenId>)
    requires Valid(t)
    requires forall k :: k in ids ==> k in t && t[k].userId == userId
    ensures |set k | k in ids :: t[k].name| == |ids|
  {
    if ids != {} {
      var x :| x in ids;
      var rest := ids - {x};
      NamesCount(t, userId, rest);
      var names := set k | k in rest :: t[k].name;
      assert (set k | k in ids :: t[k].name) == names + {t[x].name};
      assert t[x].name !in names;
    }
  }

  /** Revoking keeps the table valid and is idempotent; afterwards `get`
      reports the record as revoked. */
  lemma RevokeThenGet(t: Table, userId: UserId, tokenId: TokenId)
    requires Valid(t)
    ensures Valid(Revoked(t, userId, tokenId))
    ensures Revoked(Revoked(t, userId, tokenId), userId, tokenId) == Revoked(t, userId, tokenId)
    ensures tokenId in t && t[tokenId].userId == userId ==>
              Get(Revoked(t, userId, tokenId), tokenId) == Some(t[tokenId].(revoked := true))
  {
  }

  /** Deleting keeps the table valid; afterwards `get` finds nothing under
      the deleted identifier. */
  lemma DeleteThenGet(t: Table, userId: UserId, tokenId: TokenId)
    requires Valid(t)
    ensures Valid(Deleted(t, userId, tokenId))
    ensures tokenId in t && t[tokenId].userId == userId ==> Get(Deleted(t, userId, tokenId), tokenId) == None
  {
  }
}
