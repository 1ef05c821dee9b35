/** The internal requests the middleware issues: the object COPY built by
    `CopyContext.copy` and the container PUTs built by `ContainerContext.create`,
    as the header dictionaries handed to the transport client. */
module Outgoing {
  import opened SwiftCommon
  import opened Policy

  /** One request issued to the storage cluster, in the order issued. A COPY
      goes to the path of the object being deleted; a PUT creates `container`
      in the account of the request path. */
  datatype Call =
    | Copy(headers: Headers)
    | CreateContainer(container: string, headers: Headers)

  const CopyErrorPrefix: string := "Error copying object to trash:\n"

  /** `friendly_error`: the upstream body behind a fixed explanatory line. */
  function FriendlyError(origError: string): (r: string)
    ensures |r| == |CopyErrorPrefix| + |origError|
    ensures r[..|CopyErrorPrefix|] == CopyErrorPrefix
    ensures r[|CopyErrorPrefix|..] == origError
  {
    CopyErrorPrefix + origError
  }

  /** The headers of the COPY request. `deleteAfter` is the lifetime in seconds
      (None or 0 keep the copy forever); `expiryStamp` is the text the clock
      yields for the instant `deleteAfter` seconds from now. */
  function CopyHeaders(token: string, destContainer: string, destObject: string,
                       deleteAfter: Option<int>, expiryStamp: string): (r: Headers)
    ensures "X-Auth-Token" in r && r["X-Auth-Token"] == token
    ensures "Destination" in r && r["Destination"] == destContainer + "/" + destObject
    ensures "X-Delete-At" in r <==> Truthy(if deleteAfter.Some? then Some(PyInt(deleteAfter.value)) else None)
    ensures "X-Delete-At" in r ==> r["X-Delete-At"] == expiryStamp
    ensures r.Keys <= {"X-Auth-Token", "Destination", "X-Delete-At"}
  {
    var headers := map["X-Auth-Token" := token, "Destination" := destContainer + "/" + destObject];
    if deleteAfter.Some? && deleteAfter.value != 0 then headers["X-Delete-At" := expiryStamp]
    else headers
  }

  /** The headers of the container PUT: `X-Versions-Location` only when a
      (non-empty) versions container is given. */
  function ContainerHeaders(token: string, versions: Option<string>): (r: Headers)
    ensures "X-Auth-Token" in r && r["X-Auth-Token"] == token
    ensures "X-Versions-Location" in r <==> versions.Some? && versions.value != ""
    ensures "X-Versions-Location" in r ==> r["X-Versions-Location"] == versions.value
    ensures r.Keys <= {"X-Auth-Token", "X-Versions-Location"}
  {
    var headers := map["X-Auth-Token" := token];
    if versions.Some? && versions.value != "" then headers["X-Versions-Location" := versions.value]
    else headers
  }

  /** `copy_object`: a COPY of the object into `trashContainer`, same name,
      expiring after the configured lifetime. */
  function CopyObject(cfg: Config, env: Environ, trashContainer: string, obj: string,
                      expiryStamp: string): (c: Call)
    ensures c.Copy? && "Destination" in c.headers
    ensures c.headers["Destination"] == trashContainer + "/" + obj
    ensures "X-Delete-At" in c.headers <==> cfg.trashLifetime != 0
  {
    Copy(CopyHeaders(env.authToken, trashContainer, obj, Some(cfg.trashLifetime), expiryStamp))
  }

  /** How the receiving side splits a Destination header: the container is
      everything before the first '/', the object everything after it. This
      stands for Swift's COPY handler, which is not part of this model; the
      percent-decoding that handler applies first is left out. */
  function SplitDestination(d: string): (r: Option<(string, string)>)
    ensures r.Some? ==> '/' !in r.value.0 && d == r.value.0 + "/" + r.value.1
    ensures r.None? ==> '/' !in d
  {
    if d == [] then None
    else if d[0] == '/' then Some(([], d[1..]))
    else match SplitDestination(d[1..])
      case None => None
      case Some(parts) => Some(([d[0]] + parts.0, parts.1))
  }

  /** The Destination header names the container and object it was built from,
      provided the container has no '/'. */
  lemma {:induction false} DestinationRoundTrip(container: string, obj: string)
    requires '/' !in container
    ensures SplitDestination(container + "/" + obj) == Some((container, obj))
  {
    var d := container + "/" + obj;
    if container == [] {
      assert d[1..] == obj;
    } else {
      assert d[0] == container[0];
      assert d[1..] == container[1..] + "/" + obj;
      DestinationRoundTrip(container[1..], obj);
      assert [container[0]] + container[1..] == container;
    }
  }

  /** A container name with a '/' cannot be recovered from the Destination
      header: the copy would land somewhere else. */
  lemma SlashedContainerMisroutes(container: string, obj: string)
    requires '/' in container
    ensures SplitDestination(container + "/" + obj) != Some((container, obj))
  {
  }

  /** The COPY for a delete from `con` names the trash container and the same
      object, whenever neither the prefix nor the container contain a '/'. */
  lemma CopyTargetsTrash(cfg: Config, env: Environ, con: string, obj: string, expiryStamp: string)
    requires '/' !in cfg.trashPrefix && '/' !in con
    ensures SplitDestination(CopyObject(cfg, env, TrashContainer(cfg, con), obj, expiryStamp).headers["Destination"])
      == Some((TrashContainer(cfg, con), obj))
  {
    DestinationRoundTrip(TrashContainer(cfg, con), obj);
  }

  /** With the options `__init__` defaults to, deletes from trash containers
      are not blocked, a container without flags is protected, its trash
      container is `.trash-` followed by its name, and the copies expire. */
  lemma DefaultConfiguration(env: Environ, con: string, obj: string, expiryStamp: string)
    requires SysmetaUndeleteEnabled !in env.containerSysmeta
    requires SysmetaUndeleteEnabled !in env.accountSysmeta
    requires !IsTrash(Defaults, con)
    ensures !Defaults.blockTrashDeletes
    ensures ShouldSaveCopy(Defaults, env, con)
    ensures TrashContainer(Defaults, con) == ".trash-" + con
    ensures "X-Delete-At" in CopyObject(Defaults, env, TrashContainer(Defaults, con), obj, expiryStamp).headers
  {
  }

  /** `create_trash_container`: create the versions companion, then the trash
      container pointing at it. `versionsResult` and `trashResult` say how the
      two PUTs end. A reply, whatever its status, is not looked at; an
      exception stops the sequence and propagates (`raised`). `calls` lists
      the PUTs issued. */
  method CreateTrashContainer(env: Environ, trashContainer: string,
                              versionsResult: Exchange, trashResult: Exchange)
    returns (calls: seq<Call>, raised: bool)
    ensures calls == [CreateContainer(trashContainer + "-versions", ContainerHeaders(env.authToken, None)),
                      CreateContainer(trashContainer, ContainerHeaders(env.authToken, Some(trashContainer + "-versions")))]
                     [..if versionsResult.Raised? then 1 else 2]
    ensures raised <==> versionsResult.Raised? || trashResult.Raised?
    ensures calls[0].container == trashContainer + "-versions"
    ensures "X-Versions-Location" !in calls[0].headers
    ensures |calls| == 2 ==> calls[1].container == trashContainer
    ensures |calls| == 2 ==> "X-Versions-Location" in calls[1].headers
    ensures |calls| == 2 ==> calls[1].headers["X-Versions-Location"] == calls[0].container
    ensures forall c :: c in calls ==> "X-Auth-Token" in c.headers && c.headers["X-Auth-Token"] == env.authToken
  {
    var versionsContainer := trashContainer + "-versions";
    calls := [CreateContainer(versionsContainer, ContainerHeaders(env.authToken, None))];
    if versionsResult.Raised? {
      return calls, true;
    }
    calls := calls + [CreateContainer(trashContainer, ContainerHeaders(env.authToken, Some(versionsContainer)))];
    raised := trashResult.Raised?;
  }
}
