/** The middleware's immutable configuration and the pure decisions made from
    it: whether a container is a trash container, whether the caller is a
    superuser, and whether a delete must first save a copy. */
module Policy {
  import opened SwiftCommon

  const DefaultTrashPrefix: string := ".trash-"
  const DefaultTrashLifetime: int := 86400 * 90

  /** Key of the undelete flag in the `sysmeta` dictionaries of container and
      account info. */
  const SysmetaUndeleteEnabled: string := "undelete-enabled"

  /** The configuration fields set once by `UndeleteMiddleware.__init__`. */
  datatype Config = Config(
    trashPrefix: string,
    trashLifetime: int,
    blockTrashDeletes: bool,
    enableByDefault: bool)

  /** The configuration `__init__` builds when given no options. */
  const Defaults: Config := Config(DefaultTrashPrefix, DefaultTrashLifetime, false, true)

  /** Whether a container is a trash container: its name starts with the prefix. */
  predicate IsTrash(cfg: Config, con: string)
    ensures IsTrash(cfg, con) <==>
      |cfg.trashPrefix| <= |con| && con[..|cfg.trashPrefix|] == cfg.trashPrefix
  {
    cfg.trashPrefix <= con
  }

  /** The trash container that receives copies of objects deleted from `con`. */
  function TrashContainer(cfg: Config, con: string): string
  {
    cfg.trashPrefix + con
  }

  /** Whether the caller is a superuser: the environment's `reseller_request`
      marker is present and truthy. */
  predicate IsSuperuser(env: Environ)
    ensures env.resellerRequest.None? ==> !IsSuperuser(env)
    ensures env.resellerRequest == Some(PyBool(true)) ==> IsSuperuser(env)
    ensures env.resellerRequest == Some(PyBool(false)) ==> !IsSuperuser(env)
  {
    Truthy(env.resellerRequest)
  }

  /** The value `is_enabled_for` hands to `config_true_value`: the container's
      flag when the container has one (even an empty one), else the account's,
      else the configured default. */
  function ResolvedFlag(cfg: Config, env: Environ): PyValue
  {
    if SysmetaUndeleteEnabled in env.containerSysmeta then
      PyStr(env.containerSysmeta[SysmetaUndeleteEnabled])
    else if SysmetaUndeleteEnabled in env.accountSysmeta then
      PyStr(env.accountSysmeta[SysmetaUndeleteEnabled])
    else
      PyBool(cfg.enableByDefault)
  }

  /** Whether undelete protection applies to the request's container. */
  predicate IsEnabledFor(cfg: Config, env: Environ)
    ensures SysmetaUndeleteEnabled in env.containerSysmeta ==>
      (IsEnabledFor(cfg, env) <==> Lower(env.containerSysmeta[SysmetaUndeleteEnabled]) in TrueValues)
    ensures SysmetaUndeleteEnabled !in env.containerSysmeta && SysmetaUndeleteEnabled in env.accountSysmeta ==>
      (IsEnabledFor(cfg, env) <==> Lower(env.accountSysmeta[SysmetaUndeleteEnabled]) in TrueValues)
    ensures SysmetaUndeleteEnabled !in env.containerSysmeta && SysmetaUndeleteEnabled !in env.accountSysmeta ==>
      (IsEnabledFor(cfg, env) <==> cfg.enableByDefault)
  {
    ConfigTrueValue(ResolvedFlag(cfg, env))
  }

  /** Whether a copy must be saved before deleting an object of `con`; never for
      a trash container, lest trash be copied into trash. */
  predicate ShouldSaveCopy(cfg: Config, env: Environ, con: string)
    ensures IsTrash(cfg, con) ==> !ShouldSaveCopy(cfg, env, con)
    ensures !IsTrash(cfg, con) ==> (ShouldSaveCopy(cfg, env, con) <==> IsEnabledFor(cfg, env))
  {
    !IsTrash(cfg, con) && IsEnabledFor(cfg, env)
  }

  /** The trash container and its versions companion are themselves trash, so
      deleting from either never saves another copy. */
  lemma TrashDestinationsAreNotProtected(cfg: Config, env: Environ, con: string)
    ensures IsTrash(cfg, TrashContainer(cfg, con))
    ensures IsTrash(cfg, TrashContainer(cfg, con) + "-versions")
    ensures !ShouldSaveCopy(cfg, env, TrashContainer(cfg, con))
    ensures !ShouldSaveCopy(cfg, env, TrashContainer(cfg, con) + "-versions")
  {
  }

  /** With an empty prefix every container counts as trash. */
  lemma EmptyPrefixMakesEverythingTrash(cfg: Config, env: Environ, con: string)
    requires cfg.trashPrefix == ""
    ensures IsTrash(cfg, con) && !ShouldSaveCopy(cfg, env, con)
  {
  }
}
