# Credential store of the auth service, modelled in Dafny

This project models the storage layer behind the platform's authentication
service. It has two stores and a facade:

- the **access-token store** (`AccessTokenService`) keeps locally issued
  access/refresh token records. It finds them by id, by `(user_id, name)`,
  by `(user_id, jti)` or by user. It creates, revokes and deletes them;
- the **OAuth store** (`OAuthTokenService`) keeps links between a local user
  and an account at an identity provider. It finds them by `(user_id, id)`,
  by `(provider, provider_id)` or by user. It creates them, replaces a
  user's stored token, and deletes links one at a time or all of a user's;
- the **storage facade** (`AuthStorage`, `initialize_storage`,
  `shutdown_storage`) opens one relational driver and builds both stores
  over it. At start-up it lets the first registered entry point named
  `"auth"` replace the built-in backend.

The relational backend is an in-memory table per record kind: a map from
record id to record, held by the driver class `Relational.RelationalStorage`.
Each `with orm_session()` block is one atomic step on that map. A service
copies a row field by field into an immutable record, and that record is
equal to the row, so a lookup returns the stored value itself.

Files:

- `records.dfy` (module `Records`): the two record types, `Option`, `Result`
  with the `Conflict` error, and `MinKey` (the first of several matching rows).
- `access_table.dfy` (module `AccessTable`): the access-token table, its
  constraints, the three lookups, the revoke and delete updates, and lemmas
  relating them.
- `oauth_table.dfy` (module `OAuthTable`): the same for provider links.
- `relational.dfy` (module `Relational`): the driver with its tables, id
  counters and open/configure/release lifecycle.
- `concrete.dfy` (module `Concrete`): the two service classes and the minting
  step of `create`.
- `storage.dfy` (module `Storage`): `AuthStorage`, the entry-point registry,
  `InitializeStorage` and `ShutdownStorage`.

Collaborators outside `storage/concrete.py` and `storage/__init__.py` are given as parameters or kept small:

- the token-minting library (`create_access_token`, `create_refresh_token`,
  `get_jti`) is the `Concrete.Minter` value. It holds three functions that
  are passed to `create`. The library puts a new `jti` into every token it
  mints, so a `Minter` stands for what the library returns during one
  `create` call, and each call is given a fresh one. Reusing one `Minter`
  for two defaulted `create` calls of the same user would mint the same
  `jti` twice and make the second call a `Conflict`, which the program does
  not do;
- the clock that stamps `issued_on` is the `now` parameter of `create`;
- the backend is assumed to enforce uniqueness constraints (the ORM
  models in `storage/model.py` are not modelled): `(user_id, name)` and `jti` are unique among
  access tokens; `(provider, provider_id)` and `(user_id, provider)` are
  unique among provider links. A `create` that would break one returns
  `Failure(Conflict)` and leaves the table as it was. This stands for the
  backend's integrity error reaching the caller;
- user ids are strings, so `str(user_id)` is the user id itself. Record ids
  are natural numbers that the driver draws from a counter, in place of
  UUIDs.

Minting is logically a collaborator's job, but `create` calls the minting
library itself, and only when a value is missing or empty (`not access_token`).
The model follows the code: it mints from the user id, and takes a missing
`jti` from the final access token.

## Model

| member | source | states |
|---|---|---|
| AccessTable.Get | chaosplt_auth/storage/concrete.py:19-35 | absent exactly when no row has the id; otherwise the stored row with all nine fields unchanged |
| AccessTable.GetByName | chaosplt_auth/storage/concrete.py:37-54 | absent exactly when no row matches both user and name; otherwise a stored row carrying that user and name |
| AccessTable.GetByJti | chaosplt_auth/storage/concrete.py:56-73 | absent exactly when no row matches both user and jti; otherwise a stored row carrying that user and jti |
| AccessTable.StoredIsFound | chaosplt_auth/storage/concrete.py:19-73 | in a table meeting its constraints, each stored row is the answer of `get` to its id, of `get_by_name` to its user and name, and of `get_by_jti` to its user and jti |
| AccessTable.Revoked | chaosplt_auth/storage/concrete.py:126-128 | the user's targeted row becomes the same row with `revoked` true; the set of ids and every other row stay the same |
| AccessTable.Deleted | chaosplt_auth/storage/concrete.py:122-124 | the user's targeted row is gone; no other row changes; a target that is absent or belongs to another user leaves the table as it was |
| AccessTable.CreateThenGet | chaosplt_auth/storage/concrete.py:85-101 | A row stored under a fresh id without a constraint clash keeps the table valid, is returned by `get`, `get_by_name` and `get_by_jti`, and leaves `get` of every other id unchanged. |
| AccessTable.CreateTwiceConflicts | chaosplt_auth/storage/concrete.py:85-89 | After a row is stored, any new row with the same user and name, or the same jti, is a conflict. |
| AccessTable.ConflictsAfterCreate | chaosplt_auth/storage/concrete.py:85-89 | After a row is stored, a new row conflicts exactly when it conflicted before or shares the stored row's user and name, or its jti; so a second token with another name and another jti is accepted. |
| AccessTable.NamesCount | chaosplt_auth/storage/concrete.py:103-120 | under the constraints a user's rows have pairwise different names, so there are as many names as rows |
| AccessTable.RevokeThenGet | chaosplt_auth/storage/concrete.py:126-128 | revoking keeps the constraints and is idempotent; afterwards `get` returns the targeted row with `revoked` true |
| AccessTable.DeleteThenGet | chaosplt_auth/storage/concrete.py:122-124 | deleting keeps the constraints; afterwards `get` of the deleted id is absent |
| OAuthTable.Get | chaosplt_auth/storage/concrete.py:135-147 | absent exactly when no link has the id for that user; otherwise the stored link unchanged |
| OAuthTable.GetByProvider | chaosplt_auth/storage/concrete.py:149-161 | absent exactly when no link names `(provider, provider_id)`; otherwise a stored link that does |
| OAuthTable.GetByUser | chaosplt_auth/storage/concrete.py:163-174 | absent exactly when the user has no link; otherwise a stored link of that user, the one with the smallest id |
| OAuthTable.Updated | chaosplt_auth/storage/concrete.py:200-202 | each of the user's links changes only its token; other users' links and the set of ids stay the same |
| OAuthTable.Deleted | chaosplt_auth/storage/concrete.py:191-194 | the user's targeted link is gone; no other link changes; an absent or foreign target changes nothing |
| OAuthTable.DeletedByUser | chaosplt_auth/storage/concrete.py:196-198 | exactly the user's links are removed; every link of another user is kept unchanged |
| OAuthTable.StoredIsFound | chaosplt_auth/storage/concrete.py:135-161 | in a table meeting its constraints, each stored link is the answer of `get` to its owner and id and of `get_by_provider` to its external account |
| OAuthTable.CreateThenGet | chaosplt_auth/storage/concrete.py:176-189 | storing a link under a fresh id that breaks no constraint keeps the constraints; `get` and `get_by_provider` then return it, `get_by_user` finds a link, and other ids give the same answers as before |
| OAuthTable.SetForUserThenGet | chaosplt_auth/storage/concrete.py:200-202 | setting the token keeps the constraints; `get_by_user` then returns the same link as before, with the same id and the new token |
| OAuthTable.DeleteByUserThenGet | chaosplt_auth/storage/concrete.py:196-198 | deleting a user's links keeps the constraints; `get_by_user` is then absent for that user and unchanged for every other user |
| OAuthTable.DeleteThenGet | chaosplt_auth/storage/concrete.py:191-194 | deleting keeps the constraints; afterwards `get` of the deleted link is absent |
| Concrete.ResolveCredentials | chaosplt_auth/storage/concrete.py:77-83 | Each resolved value is `OrMinted` of the argument: a non-empty access token, refresh token or jti is kept as given, a missing or empty token is minted for the user, and a missing or empty jti is taken from the final access token. |
| Concrete.AccessTokenService.constructor | chaosplt_auth/storage/concrete.py:16-17 | the service keeps the driver it is given |
| Concrete.AccessTokenService.Create | chaosplt_auth/storage/concrete.py:75-101 | on a constraint clash: `Conflict`, table unchanged; otherwise a new record under a fresh id, with the given name and user, the resolved tokens, not revoked, issued now, never used; it is added to the table; `get`, `get_by_name` and `get_by_jti` then return it |
| Concrete.AccessTokenService.GetByUser | chaosplt_auth/storage/concrete.py:103-120 | keys are exactly the names of the user's records and each maps to its record; one entry per record; empty exactly when the user has no records |
| Concrete.AccessTokenService.Delete | chaosplt_auth/storage/concrete.py:122-124 | the table becomes `AccessTable.Deleted` of the old one; no other driver state changes; the constraints still hold |
| Concrete.AccessTokenService.Revoke | chaosplt_auth/storage/concrete.py:126-128 | the table becomes `AccessTable.Revoked` of the old one; no other driver state changes; the constraints still hold |
| Concrete.OAuthTokenService.constructor | chaosplt_auth/storage/concrete.py:132-133 | the service keeps the driver it is given |
| Concrete.OAuthTokenService.Create | chaosplt_auth/storage/concrete.py:176-189 | on a constraint clash: `Conflict`, table unchanged; otherwise a new link under a fresh id with the given user, provider, provider id and token; it is added to the table; `get` and `get_by_provider` then return it |
| Concrete.OAuthTokenService.Delete | chaosplt_auth/storage/concrete.py:191-194 | the table becomes `OAuthTable.Deleted` of the old one; nothing else changes |
| Concrete.OAuthTokenService.DeleteByUser | chaosplt_auth/storage/concrete.py:196-198 | the table becomes `OAuthTable.DeletedByUser` of the old one; nothing else changes |
| Concrete.OAuthTokenService.SetForUser | chaosplt_auth/storage/concrete.py:200-202 | the table becomes `OAuthTable.Updated` of the old one; nothing else changes |
| Relational.RelationalStorage.constructor | chaosplt_auth/storage/__init__.py:17 | a driver opened over exactly the given config, with empty tables that meet their constraints |
| Relational.RelationalStorage.Configure | chaosplt_auth/storage/__init__.py:18 | the driver is configured in place; only its phase changes |
| Relational.RelationalStorage.Release | chaosplt_auth/storage/__init__.py:25 | the driver is released; only its phase changes |
| Storage.AuthStorage.constructor | chaosplt_auth/storage/__init__.py:16-22 | one fresh driver over the given config, configured; both services are built over that same driver |
| Storage.AuthStorage.Release | chaosplt_auth/storage/__init__.py:24-25 | releases the driver acquired at construction and changes nothing else |
| Storage.PluginStorage.constructor | chaosplt_auth/storage/__init__.py:31-32 | the replacement backend is built by the loaded class from exactly the given config |
| Storage.PluginStorage.Release | chaosplt_auth/storage/__init__.py:38 | the replacement backend is marked released |
| Storage.FirstAuth | chaosplt_auth/storage/__init__.py:29-32 | the position of the first entry point named "auth", with every earlier one named otherwise; absent exactly when none is named "auth" |
| Storage.InitializeStorage | chaosplt_auth/storage/__init__.py:28-34 | with an "auth" entry point, a fresh instance of the first one's class built over the given config; otherwise, an empty registry included, a fresh built-in storage over the given config, with both services sharing its configured driver |
| Storage.ShutdownStorage | chaosplt_auth/storage/__init__.py:37-38 | Releases the given backend: the built-in one's driver becomes released with its tables and id counters unchanged, and a replacement one is marked released. |

## Left out

- Sessions and transactions (`orm_session`, `session.flush()`): each service call is one atomic step on the in-memory tables. Releasing the session on every exit path is not modelled.
- The ORM models in `storage/model.py`, which is not part of this model. The model gives its queries these meanings. `delete` and `revoke` act only on a row that belongs to the given user. `update_by_user` and `delete_by_user` act on every link of the user. A query that several rows could match answers with the row of smallest id.
- OAuthTable.GetByUser: when a user has links to several providers, which one the backend returns is not stated by the source. The model returns the first stored one (smallest id).
- Minting and decoding of signed tokens: these are foreign calls, given as the functions of a `Minter` argument. The model does not cover the minting library failing (no signer available).
- Concrete.Minter: the fresh `jti` the library puts into every token it mints is not generated by the model. Each `create` call is given its own `Minter`, standing for that call's minted values; the model does not prove that two calls mint different values, and reusing one `Minter` for two defaulted `create` calls of one user makes the second a `Conflict`, unlike the program.
- Timestamps: `issued_on` is the `now` argument of `create`; `last_used_on` starts absent and is never changed here.
- Concurrency: uniqueness under concurrent `create` calls is the database's job. Only sequential conflicts are modelled.
- Backend failures (connection lost, use of a released driver): these are not modelled. Operations work on the tables whatever the driver's phase is.
- Entry-point discovery (`pkg_resources.iter_entry_points`) and `plugin.load()`: the registry is a given sequence of `(name, class)` pairs. Loading is assumed to succeed. What a replacement backend does beyond being built and released is its own code.
- The driver's initial data: a newly opened driver starts with empty tables.
- `setup.py` (packaging), `chaosplt_auth/service/__init__.py` (service wiring) and `chaosplt_auth/views/web/oauth2.py` (web routes and the OAuth redirect flow) are outside the storage core.
