/** The relational storage driver shared by both token services: an
    in-memory stand-in for the database connection, holding the two tables,
    the counters from which new identifiers are drawn, and the lifecycle of
    the connection itself. */
module Relational {
  import opened Records
  import AccessTable
  import OAuthTable

  /** Where a driver stands: opened, bound to the sessions, or released. */
  datatype Phase = Initialized | Configured | Released

  class RelationalStorage {
    /** The configuration the driver was opened with. */
    const config: Config
    var phase: Phase
    var accessRows: AccessTable.Table
    var oauthRows: OAuthTable.Table
    var nextAccessId: TokenId
    var nextOAuthId: TokenId

    /** Both tables meet their constraints, and every identifier in use lies
        below the counter it was drawn from, so the counter is always fresh. */
    ghost predicate Valid()
      reads this
    {
      && AccessTable.Valid(accessRows)
      && OAuthTable.Valid(oauthRows)
      && (forall k :: k in accessRows ==> k < nextAccessId)
      && (forall k :: k in oauthRows ==> k < nextOAuthId)
    }

    /** Opens a driver over `config` (`init_storage`); its tables start empty. */
    constructor (config: Config)
      ensures this.config == config
      ensures phase == Initialized
      ensures accessRows == map[] && oauthRows == map[]
      ensures Valid()
    {
      this.config := config;
      phase := Initialized;
      accessRows, oauthRows := map[], map[];
      nextAccessId, nextOAuthId := 0, 0;
    }

    /** Binds the driver for use by the sessions (`configure_storage`). */
    method Configure()
      modifies this`phase
      ensures phase == Configured
    {
      phase := Configured;
    }

    /** Releases the connection (`release_storage`); the stored data stays as it is. */
    method Release()
      modifies this`phase
      ensures phase == Released
    {
      phase := Released;
    }
  }
}
