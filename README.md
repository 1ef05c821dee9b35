# swift_undelete: a verified model of the undelete middleware

`swift_undelete` is an OpenStack Swift proxy middleware. When an object is
deleted, it first copies the object into a trash container, named as the
configured prefix (`.trash-` by default) followed by the container's name. Then
it lets the delete go on. The first time a trash container is needed, it creates
the container together with a `-versions` companion. Superusers switch the
protection on or off per account or per container with the `X-Undelete-Enabled`
header. That header is stored as account or container system metadata.

This project models the decision logic of `swift_undelete/middleware.py` in Dafny
and proves what the code promises:

- `Policy` (policy.dfy) holds the immutable configuration fields and the pure
  predicates `is_trash`, `is_superuser`, `is_enabled_for` and `should_save_copy`.
  Policy is resolved in this order: container flag, then account flag, then
  `enable_by_default`. Trash containers are never protected.
- `Sysmeta` (sysmeta.dfy) covers `translate_sysmeta_and_complete`:
  - the tri-state flag encoding (`"True"`, `"False"`, `""`);
  - two specification folds over the header mapping;
  - an imperative method that updates the headers of a `Request` and a
    `Response` object in place with two loops, proved equal to those folds.
- `Outgoing` (outgoing.dfy) builds the header dictionaries of the internal COPY
  (`CopyContext.copy`) and container PUT (`ContainerContext.create`) requests. It
  also models `friendly_error`, the call order of `create_trash_container`, and
  how a `Destination` header is read back.
- `Undelete` (undelete.dfy) models `UndeleteMiddleware.__call__` as the method
  `Handle`, which works step by step:
  - it classifies the request;
  - it blocks (405) before it checks for a superuser (403);
  - on a delete that must be saved, it runs the copy, provision-on-404 and
    single-retry protocol;
  - it returns which internal requests were issued, in order.
- `SwiftCommon` (swift_common.dfy) holds the parts of the Swift runtime the
  middleware uses: header dictionaries, `config_true_value`, `is_success`, the
  WSGI environment lookups, the split request path, and the swob request and
  response objects.

External results are inputs to the model:

- the split path;
- the `sysmeta` dictionaries of container and account info;
- the `reseller_request` marker;
- how each internal request ends (`Exchange`): with a reply, or with an
  exception. This covers the first COPY, the two container PUTs and the retried
  COPY;
- the downstream application, as a function from request headers to a reply;
- the clock's `X-Delete-At` text, read once for each COPY built.

The model follows the code where it departs from the documented fail-closed
intent:

- After a first COPY answers 404, the trash containers are created and the COPY
  is retried once. The delete is then forwarded whatever the retry returns
  (lines 197-199 and 206). `Handle` states this: on a first status of 404 the
  outcome is `Forward` for every reply the retry gives.
- The replies to the two container creations are ignored (lines 246-248).
- Nothing in `__call__` catches an exception. When any internal request
  raises, the exception leaves the middleware and the delete is not handed on
  (`Aborted`). No later request is issued.
- In `is_enabled_for`, only a missing container flag falls back to the account
  flag. A container flag that is reported with an empty value is judged by
  itself and disables protection (`StoredContainerFlagDecides`). Swift's
  servers leave empty metadata values out of what they report, so a stored
  `default` normally reaches the account flag or the configured default
  instead.

## Model

| member | source | states |
|---|---|---|
| `Policy.IsTrash` | swift_undelete/middleware.py:250-254 | a container is trash exactly when its name begins with the configured prefix |
| `Policy.IsSuperuser` | swift_undelete/middleware.py:256-260 | an absent or false `reseller_request` marker never makes a superuser; a true one always does |
| `Policy.IsEnabledFor` | swift_undelete/middleware.py:262-275 | a container flag decides whenever present (even empty), else the account flag, else `enable_by_default`; a flag enables iff its lower-cased value is a true literal |
| `Policy.ShouldSaveCopy` | swift_undelete/middleware.py:277-283 | never true for a trash container, whatever the metadata; otherwise exactly the resolved policy |
| `Policy.TrashDestinationsAreNotProtected` | swift_undelete/middleware.py:245-254 | the trash container and its `-versions` companion are trash, so deleting from them never saves another copy (no trash recursion) |
| `Policy.EmptyPrefixMakesEverythingTrash` | swift_undelete/middleware.py:250-254 | with an empty prefix every container is trash and no delete is protected |
| `Sysmeta.ParseFlag` | swift_undelete/middleware.py:219-227 | a header value enables iff it is a true literal, inherits iff it is `default` in any case, and disables otherwise |
| `Sysmeta.ParseEncodeRoundTrip` | swift_undelete/middleware.py:222-227 | a stored `"True"` or `"False"` sent back as a header gives the same flag; the empty value stored for `default` reads back as disabled |
| `Sysmeta.StoredContainerFlagDecides` | swift_undelete/middleware.py:271-275 | a container flag stored by the translation enables protection only when it is `"True"`; a present empty value disables it |
| `Sysmeta.WriteSysmetaFrame` | swift_undelete/middleware.py:217-227 | the superuser branch changes no request header other than the mapping's sysmeta headers |
| `Sysmeta.WriteSysmetaEffect` | swift_undelete/middleware.py:217-227 | for each mapping entry, a present client header stores its encoded flag in the sysmeta header, and an absent one leaves that header as it was |
| `Sysmeta.ReflectSysmetaFrame` | swift_undelete/middleware.py:229-231 | the response loop changes no response header other than the mapping's client headers |
| `Sysmeta.ReflectSysmetaEffect` | swift_undelete/middleware.py:229-231 | for each mapping entry, a sysmeta header present in the response is copied onto its client header, and otherwise the client header is unchanged |
| `Sysmeta.SetThenRead` | swift_undelete/middleware.py:217-232 | when the application echoes what it stored, a superuser's header comes back as the stored encoding of the flag it set (`default` comes back as empty) |
| `Sysmeta.ProductionMappingsWellFormed` | swift_undelete/middleware.py:164-172 | the account and container mappings have distinct client and sysmeta headers, so the entry lemmas apply to them |
| `Sysmeta.TranslateSysmetaAndComplete` | swift_undelete/middleware.py:208-232 | request headers are rewritten only for a superuser, as `WriteSysmeta`; every caller gets a fresh response carrying the downstream status and body, with headers reflected as `ReflectSysmeta` |
| `Outgoing.FriendlyError` | swift_undelete/middleware.py:76-77 | the message is the fixed prefix followed by the original body, which can be recovered from it unchanged |
| `Outgoing.CopyHeaders` | swift_undelete/middleware.py:129-142 | the COPY always carries the token and `Destination = container + "/" + object`; it carries `X-Delete-At` iff `delete_after` is truthy (neither None nor 0); no other header |
| `Outgoing.ContainerHeaders` | swift_undelete/middleware.py:97-105 | the PUT carries the token, and it carries `X-Versions-Location` iff a non-empty versions container is given; no other header |
| `Outgoing.CopyObject` | swift_undelete/middleware.py:234-236 | the copy goes to the given trash container under the same object name, and it expires iff the configured lifetime is not 0 |
| `Outgoing.SplitDestination` | swift_undelete/middleware.py:119-120 | stands for how the receiving side reads `Destination`: the part before the first '/' is the container, which never contains '/', and container, '/' and object rebuild the header; a header with no '/' has no reading |
| `Outgoing.DestinationRoundTrip` | swift_undelete/middleware.py:119-135 | splitting the Destination header at its first '/' gives back the container and object, when the container has no '/' |
| `Outgoing.SlashedContainerMisroutes` | swift_undelete/middleware.py:119-120 | a destination container containing '/' cannot be recovered from the header |
| `Outgoing.CopyTargetsTrash` | swift_undelete/middleware.py:194-195 | the COPY of a delete from `con` is read back, by a first-'/' split without percent-decoding, as `trash_prefix + con` with the same object, when neither contains '/'; Swift's own reading differs in the cases listed under Left out |
| `Outgoing.DefaultConfiguration` | swift_undelete/middleware.py:146-154 | with the default options, trash deletes are not blocked, a container without flags is protected, its trash container is `.trash-` followed by its name, and the copies expire |
| `Outgoing.CreateTrashContainer` | swift_undelete/middleware.py:238-248 | it creates `trash + "-versions"` first, with no versions header, then the trash container with `X-Versions-Location` naming that companion, both under the caller's token; a reply is never looked at, and an exception from the first PUT means the second is not issued, while an exception from either is passed on |
| `Undelete.CopyProtocolShape` | swift_undelete/middleware.py:194-199 | the protocol's first request is the COPY into the trash container; on 404 the versions companion is created, then the trash container pointing at it, then the COPY runs exactly once more, with the same headers, `Destination` and token, and an `X-Delete-At` taken from its own clock reading; on any other status there is only the one COPY |
| `Undelete.Handle` | swift_undelete/middleware.py:157-206 | unroutable paths and non-DELETE object requests are forwarded untouched. Account and container requests are only translated (account or container mapping) and issue no request. A trash DELETE gets 405 when blocking (any caller), else 403 for non-superusers, else is forwarded without copy. A disabled policy forwards without copy. Otherwise the copy protocol runs, and the requests issued are its sequence cut after the first one that raises. If nothing raises: success or 404 (whatever reply the retry gives) forwards, and any other status returns that status and headers with `friendly_error(content)`. An exception from the first COPY, from a container PUT or from the retried COPY aborts the call instead of forwarding the delete |

## Left out

- HTTP transport (`requests.request`), the fixed `HOST`/`PORT`, URL assembly
  and auth-token extraction from the keystone environment are I/O plumbing. A
  COPY is recorded by its headers only. A container PUT is recorded by its
  container name and headers. The token is a field of the environment.
- Why an internal request raises is not modelled. A transport error, a missing
  `Host` header (read at line 129 and never used) and missing keystone token
  information all count as the same `Raised` result.
- Exceptions raised by the downstream application are not modelled. `app` is
  assumed to return a reply.
- Outgoing.CopyTargetsTrash: Swift percent-decodes the `Destination` header
  before splitting it, but the code joins the names without quoting them. An
  object name holding a `%XX` sequence is therefore saved under another name.
  An object path ending in '/' gives an empty object name
  (`split_path` with `rest_with_last`), so the header is `<trash>/`. Swift
  rejects a `Destination` with an empty container or object segment. The
  lemma reads such a header as the trash container and an empty object, and
  does not capture either case.
- The `account` argument of `create_trash_container` and
  `ContainerContext.create` is not used by the code: the PUT goes to the
  account of the request path. The model's container calls therefore name no
  account.
- The clock-based value of `X-Delete-At` (`datetime.now`, `time.mktime`) is
  given by two parameters. `expiryStamp` is the reading taken for the first
  COPY and `retryStamp` the one taken for the retried COPY. Only the presence
  of the header is derived.
- `req.split_path` is an input (`SplitPath`), and its `ValueError` case forwards.
  `get_container_info` and `get_account_info` are inputs (the `sysmeta` maps of
  `Environ`).
- `swob.wsgify` and the response classes: a 405 or 403 answer is modelled as
  status, `content-type: text/plain` and body. Headers swob adds itself, such
  as `Content-Length`, are not modelled.
- The downstream application is modelled as a function of the request headers
  it receives. Everything else about the request is assumed not to affect its
  reply.
- `utils.config_true_value` is not part of this model's source. It is assumed
  to be Swift's definition: the value `True`, or a string whose lower-cased form
  is one of `true`, `1`, `yes`, `on`, `t`, `y`. Lower-casing is ASCII, which is
  exact for every literal compared here.
- Swift's header dictionaries are case-insensitive. The model writes their keys
  in lower case.
- The dictionary passed to `translate_sysmeta_and_complete` is modelled as a
  sequence of pairs in iteration order. The entry lemmas assume the pairs form a
  proper mapping (`WellFormedMapping`), which the two mappings in use satisfy.
- `friendly_error` concatenates text. The body is treated as a string, as under
  Python 2.
- `filter_factory` configuration parsing and the `close_if_possible` shim are
  deployment glue.
- Concurrent first-use creation of the same trash container is not modelled.
  The code does no coordination, and relies on the cluster accepting a PUT of a
  container that already exists.
