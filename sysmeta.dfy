/** Translation between the client-visible `X-Undelete-Enabled` header and the
    account or container system metadata that stores the undelete flag. */
module Sysmeta {
  import opened SwiftCommon
  import opened Policy

  /** The flag a superuser sets through the client header. */
  datatype UndeleteFlag = Enabled | Disabled | Inherit

  /** Pairs (client header, sysmeta header), in the order `mapping.items()`
      visits them. */
  type Mapping = seq<(string, string)>

  const ClientHeader: string := "x-" + SysmetaUndeleteEnabled
  const AccountSysmetaHeader: string := "x-account-sysmeta-" + SysmetaUndeleteEnabled
  const ContainerSysmetaHeader: string := "x-container-sysmeta-" + SysmetaUndeleteEnabled

  /** The mapping used for account requests. */
  const AccountMapping: Mapping := [(ClientHeader, AccountSysmetaHeader)]
  /** The mapping used for container requests. */
  const ContainerMapping: Mapping := [(ClientHeader, ContainerSysmetaHeader)]

  /** How a client header value is read: a true literal enables, the literal
      `default` (any case) inherits, anything else disables. */
  function ParseFlag(val: string): (f: UndeleteFlag)
    ensures f == Enabled <==> Lower(val) in TrueValues
    ensures f == Inherit <==> Lower(val) == "default"
    ensures f == Disabled <==> Lower(val) !in TrueValues && Lower(val) != "default"
  {
    if ConfigTrueValue(PyStr(val)) then Enabled
    else if Lower(val) == "default" then Inherit
    else Disabled
  }

  /** How a flag is stored in sysmeta. */
  function EncodeFlag(f: UndeleteFlag): string
  {
    match f
    case Enabled => "True"
    case Disabled => "False"
    case Inherit => ""
  }

  /** A stored flag read back as a header value gives the same flag, except the
      empty string stored for `Inherit`, which reads as `Disabled`. */
  lemma ParseEncodeRoundTrip(f: UndeleteFlag)
    ensures ParseFlag(EncodeFlag(f)) == f <==> f != Inherit
    ensures f == Inherit ==> ParseFlag(EncodeFlag(f)) == Disabled
  {
    assert Lower("True") == "true";
    assert Lower("False") == "false";
    assert Lower("") == "";
  }

  /** What `is_enabled_for` does with a container flag the container info
      reports: only `"True"` enables, and a reported empty value (what the
      translation stores for `default`) disables rather than falling back to
      the account flag or the configured default. Whether storage ever reports
      an empty value is outside this model; Swift's servers leave empty
      metadata values out of container info, and then the fallback applies. */
  lemma StoredContainerFlagDecides(cfg: Config, env: Environ, f: UndeleteFlag)
    requires env.containerSysmeta == map[SysmetaUndeleteEnabled := EncodeFlag(f)]
    ensures IsEnabledFor(cfg, env) <==> f == Enabled
  {
    assert Lower("True") == "true";
    assert Lower("False") == "false";
    assert Lower("") == "";
  }

  /** Keys agree at `k`: both absent, or both present with the same value. */
  predicate SameAt(h: Headers, h': Headers, k: string)
  {
    (k in h <==> k in h') && (k in h ==> h[k] == h'[k])
  }

  /** Client headers are distinct, sysmeta headers are distinct, and no client
      header is also a sysmeta header. */
  predicate WellFormedMapping(m: Mapping)
  {
    && (forall i, j :: 0 <= i < j < |m| ==> m[i].0 != m[j].0 && m[i].1 != m[j].1)
    && (forall i, j :: 0 <= i < |m| && 0 <= j < |m| ==> m[i].0 != m[j].1)
  }

  /** One step of the superuser branch: a present client header writes its
      encoded flag into the sysmeta header; an absent one writes nothing. */
  function WriteEntry(h: Headers, e: (string, string)): Headers
  {
    if e.0 in h then h[e.1 := EncodeFlag(ParseFlag(h[e.0]))] else h
  }

  /** The request headers after the superuser branch has visited `m` in order. */
  function WriteSysmeta(h: Headers, m: Mapping): Headers
    decreases |m|
  {
    if m == [] then h else WriteEntry(WriteSysmeta(h, m[..|m| - 1]), m[|m| - 1])
  }

  /** One step of the response branch: a sysmeta header present in the
      response is copied onto its client header. */
  function ReflectEntry(h: Headers, e: (string, string)): Headers
  {
    if e.1 in h then h[e.0 := h[e.1]] else h
  }

  /** The response headers after the reflection loop has visited `m` in order. */
  function ReflectSysmeta(h: Headers, m: Mapping): Headers
    decreases |m|
  {
    if m == [] then h else ReflectEntry(ReflectSysmeta(h, m[..|m| - 1]), m[|m| - 1])
  }

  /** The request headers the downstream application sees: translated for a
      superuser, untouched for anyone else. */
  function TranslatedRequest(env: Environ, h: Headers, m: Mapping): Headers
  {
    if IsSuperuser(env) then WriteSysmeta(h, m) else h
  }

  /** Writing sysmeta changes no header other than the sysmeta headers. */
  lemma {:induction false} WriteSysmetaFrame(h: Headers, m: Mapping, k: string)
    requires forall j :: 0 <= j < |m| ==> m[j].1 != k
    ensures SameAt(h, WriteSysmeta(h, m), k)
  {
    if m != [] {
      var p := m[..|m| - 1];
      WriteSysmetaFrame(h, p, k);
    }
  }

  /** For each mapping entry: a present client header stores its encoded flag
      in the sysmeta header; an absent one leaves the sysmeta header as it was. */
  lemma {:induction false} WriteSysmetaEffect(h: Headers, m: Mapping, j: int)
    requires WellFormedMapping(m) && 0 <= j < |m|
    ensures m[j].0 in h ==>
      m[j].1 in WriteSysmeta(h, m) && WriteSysmeta(h, m)[m[j].1] == EncodeFlag(ParseFlag(h[m[j].0]))
    ensures m[j].0 !in h ==> SameAt(h, WriteSysmeta(h, m), m[j].1)
  {
    var n := |m|;
    var p := m[..n - 1];
    assert WellFormedMapping(p);
    if j == n - 1 {
      WriteSysmetaFrame(h, p, m[j].0);
      WriteSysmetaFrame(h, p, m[j].1);
    } else {
      WriteSysmetaEffect(h, p, j);
    }
  }

  /** Reflecting sysmeta changes no header other than the client headers. */
  lemma {:induction false} ReflectSysmetaFrame(h: Headers, m: Mapping, k: string)
    requires forall j :: 0 <= j < |m| ==> m[j].0 != k
    ensures SameAt(h, ReflectSysmeta(h, m), k)
  {
    if m != [] {
      var p := m[..|m| - 1];
      ReflectSysmetaFrame(h, p, k);
    }
  }

  /** For each mapping entry: a sysmeta header present in the response is
      copied onto the client header; otherwise the client header is as it was. */
  lemma {:induction false} ReflectSysmetaEffect(h: Headers, m: Mapping, j: int)
    requires WellFormedMapping(m) && 0 <= j < |m|
    ensures m[j].1 in h ==>
      m[j].0 in ReflectSysmeta(h, m) && ReflectSysmeta(h, m)[m[j].0] == h[m[j].1]
    ensures m[j].1 !in h ==> SameAt(h, ReflectSysmeta(h, m), m[j].0)
  {
    var n := |m|;
    var p := m[..n - 1];
    assert WellFormedMapping(p);
    if j == n - 1 {
      ReflectSysmetaFrame(h, p, m[j].0);
      ReflectSysmetaFrame(h, p, m[j].1);
    } else {
      ReflectSysmetaEffect(h, p, j);
    }
  }

  /** Setting then reading: when a superuser sends a client header and the
      downstream application echoes the sysmeta headers it received, the
      response carries the stored encoding of the flag on that client header. */
  lemma SetThenRead(h: Headers, m: Mapping, j: int)
    requires WellFormedMapping(m) && 0 <= j < |m|
    requires m[j].0 in h
    ensures m[j].0 in ReflectSysmeta(WriteSysmeta(h, m), m)
    ensures ReflectSysmeta(WriteSysmeta(h, m), m)[m[j].0] == EncodeFlag(ParseFlag(h[m[j].0]))
  {
    WriteSysmetaEffect(h, m, j);
    ReflectSysmetaEffect(WriteSysmeta(h, m), m, j);
  }

  /** The two mappings the middleware uses satisfy `WellFormedMapping`. */
  lemma ProductionMappingsWellFormed()
    ensures WellFormedMapping(AccountMapping)
    ensures WellFormedMapping(ContainerMapping)
  {
  }

  /** `translate_sysmeta_and_complete`: for a superuser, turn client headers
      into sysmeta headers on the request; pass the request to the downstream
      application `app`; then, for every caller, copy sysmeta headers of the
      response back onto their client headers. */
  method TranslateSysmetaAndComplete(req: Request, mapping: Mapping, app: Headers -> Reply)
    returns (resp: Response)
    modifies req
    ensures req.headers == TranslatedRequest(req.environ, old(req.headers), mapping)
    ensures fresh(resp)
    ensures resp.status == app(req.headers).status && resp.body == app(req.headers).content
    ensures resp.headers == ReflectSysmeta(app(req.headers).headers, mapping)
  {
    if IsSuperuser(req.environ) {
      for i := 0 to |mapping|
        invariant req.headers == WriteSysmeta(old(req.headers), mapping[..i])
      {
        var clientHeader, sysmetaHeader := mapping[i].0, mapping[i].1;
        if clientHeader in req.headers {
          var val := req.headers[clientHeader];
          if ConfigTrueValue(PyStr(val)) {
            req.headers := req.headers[sysmetaHeader := "True"];
          } else if Lower(val) == "default" {
            req.headers := req.headers[sysmetaHeader := ""];
          } else {
            req.headers := req.headers[sysmetaHeader := "False"];
          }
        }
        assert mapping[..i + 1][..i] == mapping[..i];
      }
      assert mapping[..|mapping|] == mapping;
    }
    resp := new Response(app(req.headers));
    ghost var received := resp.headers;
    for i := 0 to |mapping|
      invariant resp.headers == ReflectSysmeta(received, mapping[..i])
      modifies resp`headers
    {
      var clientHeader, sysmetaHeader := mapping[i].0, mapping[i].1;
      if sysmetaHeader in resp.headers {
        resp.headers := resp.headers[clientHeader := resp.headers[sysmetaHeader]];
      }
      assert mapping[..i + 1][..i] == mapping[..i];
    }
    assert mapping[..|mapping|] == mapping;
  }
}
