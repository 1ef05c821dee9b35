/** `UndeleteMiddleware.__call__`: classify each request, translate the undelete
    flag on account and container requests, and turn an object DELETE into
    "copy to trash, then delete". */
module Undelete {
  import opened SwiftCommon
  import opened Policy
  import opened Sysmeta
  import opened Outgoing

  /** What the middleware does with a request: hand it on unchanged to the
      next stage (`return self.app`), return the downstream response after
      flag translation, answer itself, or end with an exception raised by one
      of its internal requests (the delete is then not handed on). */
  datatype Outcome =
    | Forward
    | Translated(resp: Response)
    | Replied(status: int, headers: Headers, body: string)
    | Aborted

  const TextPlain: Headers := map["content-type" := "text/plain"]
  const BlockedBody: string :=
    "Attempted to delete from a trash container, but block_trash_deletes is enabled\n"
  const ForbiddenBody: string :=
    "Attempted to delete from a trash container, but user is not a superuser\n"

  predicate IsAccountRequest(p: SplitPath)
  {
    p.Split? && p.container.None?
  }

  predicate IsContainerRequest(p: SplitPath)
  {
    p.Split? && p.container.Some? && p.obj.None?
  }

  predicate IsObjectDelete(p: SplitPath, verb: string)
  {
    p.Split? && p.container.Some? && p.obj.Some? && verb == "DELETE"
  }

  /** Whether the first COPY answered 404 (the trash container is missing). */
  predicate FirstMissing(first: Exchange)
  {
    first.Answered? && first.reply.status == 404
  }

  /** The request sequence of a delete that saves a copy when nothing raises:
      the COPY alone, or, when the trash container is missing, the COPY, the
      two container PUTs and the COPY once more. Each COPY reads the clock
      itself: `expiryStamp` and `retryStamp` are the two readings. */
  function CopyProtocolCalls(cfg: Config, env: Environ, con: string, obj: string,
                             missing: bool, expiryStamp: string, retryStamp: string): seq<Call>
  {
    var trash := TrashContainer(cfg, con);
    var copy := CopyObject(cfg, env, trash, obj, expiryStamp);
    if missing then
      [copy,
       CreateContainer(trash + "-versions", ContainerHeaders(env.authToken, None)),
       CreateContainer(trash, ContainerHeaders(env.authToken, Some(trash + "-versions"))),
       CopyObject(cfg, env, trash, obj, retryStamp)]
    else [copy]
  }

  /** How many requests of `CopyProtocolCalls` are issued: an exception stops
      the sequence after the request that raised it. */
  function IssuedCalls(first: Exchange, createVersions: Exchange, createTrash: Exchange): nat
  {
    if !FirstMissing(first) then 1
    else if createVersions.Raised? then 2
    else if createTrash.Raised? then 3
    else 4
  }

  /** The copy protocol issues the COPY into the trash container; on a 404 it
      creates the versions companion before the trash container that points at
      it, and repeats the COPY exactly once, to the same destination under the
      same token, with an expiry taken from a fresh clock reading. */
  lemma CopyProtocolShape(cfg: Config, env: Environ, con: string, obj: string,
                          missing: bool, expiryStamp: string, retryStamp: string)
    ensures var calls := CopyProtocolCalls(cfg, env, con, obj, missing, expiryStamp, retryStamp);
      && |calls| == (if missing then 4 else 1)
      && calls[0].Copy?
      && calls[0].headers["Destination"] == TrashContainer(cfg, con) + "/" + obj
      && calls[0].headers["X-Auth-Token"] == env.authToken
      && ("X-Delete-At" in calls[0].headers <==> cfg.trashLifetime != 0)
      && ("X-Delete-At" in calls[0].headers ==> calls[0].headers["X-Delete-At"] == expiryStamp)
      && (missing ==>
            && calls[3].Copy?
            && calls[3].headers.Keys == calls[0].headers.Keys
            && calls[3].headers["Destination"] == calls[0].headers["Destination"]
            && calls[3].headers["X-Auth-Token"] == calls[0].headers["X-Auth-Token"]
            && ("X-Delete-At" in calls[3].headers ==> calls[3].headers["X-Delete-At"] == retryStamp)
            && calls[1] == CreateContainer(TrashContainer(cfg, con) + "-versions", calls[1].headers)
            && "X-Versions-Location" !in calls[1].headers
            && calls[2] == CreateContainer(TrashContainer(cfg, con), calls[2].headers)
            && "X-Versions-Location" in calls[2].headers
            && calls[2].headers["X-Versions-Location"] == calls[1].container)
  {
  }

  /** Handle one request. `app` is the rest of the pipeline, seen through the
      request headers it receives. `first`, `createVersions`, `createTrash`
      and `retry` say how the first COPY, the two container PUTs and the
      retried COPY end; `expiryStamp` and `retryStamp` are the clock's
      X-Delete-At texts when the first and the retried COPY are built.
      `calls` lists the internal requests issued, in order. */
  method Handle(cfg: Config, req: Request, app: Headers -> Reply,
                first: Exchange, createVersions: Exchange, createTrash: Exchange, retry: Exchange,
                expiryStamp: string, retryStamp: string)
    returns (outcome: Outcome, calls: seq<Call>)
    modifies req
    // Unroutable paths (e.g. /info) are handed on untouched.
    ensures req.path.Unroutable? ==> outcome == Forward && calls == [] && req.headers == old(req.headers)
    // Account and container requests only translate the flag; nothing is copied.
    ensures IsAccountRequest(req.path) || IsContainerRequest(req.path) ==>
      var m := if IsAccountRequest(req.path) then AccountMapping else ContainerMapping;
      && calls == []
      && outcome.Translated? && fresh(outcome.resp)
      && req.headers == TranslatedRequest(req.environ, old(req.headers), m)
      && outcome.resp.status == app(req.headers).status
      && outcome.resp.headers == ReflectSysmeta(app(req.headers).headers, m)
      && outcome.resp.body == app(req.headers).content
    // Object requests other than DELETE are handed on untouched.
    ensures req.path.Split? && req.path.container.Some? && req.path.obj.Some? && req.verb != "DELETE" ==>
      outcome == Forward && calls == [] && req.headers == old(req.headers)
    // An object DELETE never changes the request.
    ensures IsObjectDelete(req.path, req.verb) ==> req.headers == old(req.headers)
    // Deletes from a trash container: blocked for everyone when so configured,
    // else forbidden to non-superusers, else handed on without a copy.
    ensures IsObjectDelete(req.path, req.verb) && IsTrash(cfg, req.path.container.value) ==>
      && calls == []
      && (cfg.blockTrashDeletes ==> outcome == Replied(405, TextPlain, BlockedBody))
      && (!cfg.blockTrashDeletes && !IsSuperuser(req.environ) ==> outcome == Replied(403, TextPlain, ForbiddenBody))
      && (!cfg.blockTrashDeletes && IsSuperuser(req.environ) ==> outcome == Forward)
    // Deletes from a container whose policy is off are handed on without a copy.
    ensures IsObjectDelete(req.path, req.verb) && !IsTrash(cfg, req.path.container.value) &&
            !IsEnabledFor(cfg, req.environ) ==>
      outcome == Forward && calls == []
    // Deletes that save a copy: the copy protocol up to the first exception,
    // then hand on, answer with the copy failure, or abort.
    ensures IsObjectDelete(req.path, req.verb) && ShouldSaveCopy(cfg, req.environ, req.path.container.value) ==>
      && calls == CopyProtocolCalls(cfg, req.environ, req.path.container.value, req.path.obj.value,
                                    FirstMissing(first), expiryStamp, retryStamp)[..IssuedCalls(first, createVersions, createTrash)]
      && (first.Raised? ==> outcome == Aborted)
      && (FirstMissing(first) ==>
            outcome == if createVersions.Raised? || createTrash.Raised? || retry.Raised? then Aborted else Forward)
      && (first.Answered? && first.reply.status != 404 && IsSuccess(first.reply.status) ==> outcome == Forward)
      && (first.Answered? && first.reply.status != 404 && !IsSuccess(first.reply.status) ==>
            outcome == Replied(first.reply.status, first.reply.headers, FriendlyError(first.reply.content)))
  {
    if req.path.Unroutable? {
      return Forward, [];
    }
    var con, obj := req.path.container, req.path.obj;
    if con.None? {
      var resp := TranslateSysmetaAndComplete(req, AccountMapping, app);
      return Translated(resp), [];
    }
    if obj.None? {
      var resp := TranslateSysmetaAndComplete(req, ContainerMapping, app);
      return Translated(resp), [];
    }
    if req.verb != "DELETE" {
      return Forward, [];
    }

    if IsTrash(cfg, con.value) && cfg.blockTrashDeletes {
      return Replied(405, TextPlain, BlockedBody), [];
    } else if IsTrash(cfg, con.value) && !IsSuperuser(req.environ) {
      return Replied(403, TextPlain, ForbiddenBody), [];
    } else if !ShouldSaveCopy(cfg, req.environ, con.value) {
      return Forward, [];
    }

    var trashContainer := TrashContainer(cfg, con.value);
    var copy := CopyObject(cfg, req.environ, trashContainer, obj.value, expiryStamp);
    calls := [copy];
    if first.Raised? {
      return Aborted, calls;
    }
    var response := first.reply;
    if response.status == 404 {
      var created, raised := CreateTrashContainer(req.environ, trashContainer, createVersions, createTrash);
      calls := calls + created;
      if raised {
        return Aborted, calls;
      }
      calls := calls + [CopyObject(cfg, req.environ, trashContainer, obj.value, retryStamp)];
      if retry.Raised? {
        return Aborted, calls;
      }
      response := retry.reply;
    } else if !IsSuccess(response.status) {
      return Replied(response.status, response.headers, FriendlyError(response.content)), calls;
    }
    return Forward, calls;
  }
}
