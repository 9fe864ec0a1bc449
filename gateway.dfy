/** The gateway's routing decisions (API_GATEWAY/app.js): the per-request
    failover of /auth and the prefix table of the proxied services. The
    health probe's outcome and the JWT oracle are inputs; nothing persists
    between requests. */
module Gateway {
  import opened Wrappers
  import opened Auth

  /** The three downstream services (USER_MS, DOCTOR_MS, APPOINTMENT_MS). */
  datatype Service = UserMs | DoctorMs | AppointmentMs

  /** An outgoing proxied request. */
  datatype Forward = Forward(target: Service, path: string, headers: Headers)

  /** pathRewrite { "^<from>": to }: replace a leading `from`, keep the rest. */
  function RewritePrefix(path: string, from: string, to: string): string {
    if from <= path then to + path[|from|..] else path
  }

  /** Rewriting back undoes a rewrite of a path that had the prefix. */
  lemma RewritePrefixInverse(path: string, from: string, to: string)
    requires from <= path
    ensures RewritePrefix(path, from, to)[|to|..] == path[|from|..]
    ensures RewritePrefix(RewritePrefix(path, from, to), to, from) == path
  {
    var r := RewritePrefix(path, from, to);
    assert to <= r;
    assert r[|to|..] == path[|from|..];
    assert from + path[|from|..] == path;
  }

  /** onProxyReq: set the outgoing authorization header when the incoming
      one is truthy. `outgoing` is the proxy's copy of the incoming headers;
      the Host rewrite that `changeOrigin` makes on that copy is not modelled. */
  function OnProxyReq(outgoing: Headers, incoming: Headers): Headers {
    if HasAuthorization(incoming) then outgoing["authorization" := incoming["authorization"]] else outgoing
  }

  const UserAuthPrefix := "/userauth"
  const BackupLoginPrefix := "/api/backup/login"

  /** The /auth handler: forward to USER_MS when its probe succeeded, else to
      APPOINTMENT_MS's backup login, rewriting the leading "/auth". */
  function AuthFailover(userMsUp: bool, path: string, headers: Headers): (f: Forward)
    ensures f.target == if userMsUp then UserMs else AppointmentMs
    ensures "/auth" <= path ==>
      f.path == (if userMsUp then UserAuthPrefix else BackupLoginPrefix) + path[|"/auth"|..]
    ensures !("/auth" <= path) ==> f.path == path
    ensures "authorization" in f.headers <==> "authorization" in headers
    ensures "authorization" in headers ==> f.headers["authorization"] == headers["authorization"]
    ensures f.headers == headers
  {
    if userMsUp then
      Forward(UserMs, RewritePrefix(path, "/auth", UserAuthPrefix), OnProxyReq(headers, headers))
    else
      Forward(AppointmentMs, RewritePrefix(path, "/auth", BackupLoginPrefix), OnProxyReq(headers, headers))
  }

  /** Express's app.use(mount) matching: the path is the mount (without a
      trailing slash) or continues it with a "/". */
  predicate Mounted(mount: string, path: string) {
    var m := if |mount| > 1 && mount[|mount| - 1] == '/' then mount[..|mount| - 1] else mount;
    path == m || m + "/" <= path
  }

  /** A row of the routing table: mount path, whether `authenticate` runs
      first, and the service it proxies to. */
  datatype Route = Route(mount: string, gated: bool, target: Service)

  const RoutingTable: seq<Route> := [
    Route("/api/users/", true, UserMs),
    Route("/doctors/", true, DoctorMs),
    Route("/consult", false, AppointmentMs)
  ]

  /** The first table row whose mount matches the path. */
  function RouteFor(table: seq<Route>, path: string): (r: Option<Route>)
    ensures r.Some? ==> r.value in table && Mounted(r.value.mount, path)
    ensures r.None? <==> forall k :: 0 <= k < |table| ==> !Mounted(table[k].mount, path)
  {
    if table == [] then None
    else if Mounted(table[0].mount, path) then Some(table[0])
    else RouteFor(table[1..], path)
  }

  /** What the gateway does with a request that got past the generic middleware. */
  datatype Decision<C> =
    | Proxied(forward: Forward, userData: Option<C>)
    | Refused(status: nat, message: string)
    | Unrouted

  function Dispatch<C>(path: string, headers: Headers, userMsUp: bool,
                       verify: string -> Option<C>, serialize: C -> string): (d: Decision<C>)
    ensures d.Unrouted? <==>
      !Mounted("/auth", path) && forall k :: 0 <= k < |RoutingTable| ==> !Mounted(RoutingTable[k].mount, path)
    ensures d.Refused? ==> !Mounted("/auth", path) && (d.status == 401 || d.status == 403)
    ensures d.Proxied? && d.forward.target == DoctorMs ==> Authenticate(headers, verify, serialize).PassOn?
    ensures d.Proxied? && d.forward.target == UserMs ==>
      Mounted("/auth", path) || Authenticate(headers, verify, serialize).PassOn?
  {
    if Mounted("/auth", path) then Proxied(AuthFailover(userMsUp, path, headers), None)
    else match RouteFor(RoutingTable, path)
      case None => Unrouted
      case Some(route) =>
        if route.gated then
          match Authenticate(headers, verify, serialize)
          case Deny(status, message) => Refused(status, message)
          case PassOn(headers', userData) => Proxied(Forward(route.target, path, headers'), userData)
        else Proxied(Forward(route.target, path, headers), None)
  }

  /** /auth never runs `authenticate`: it is forwarded whatever its headers,
      to USER_MS when the probe succeeded and to APPOINTMENT_MS otherwise. */
  lemma AuthIsFailoverOnly<C>(rest: string, headers: Headers, userMsUp: bool,
                              verify: string -> Option<C>, serialize: C -> string)
    requires rest == [] || rest[0] == '/'
    ensures var d := Dispatch("/auth" + rest, headers, userMsUp, verify, serialize);
      && d.Proxied?
      && d.userData.None?
      && d.forward.target == (if userMsUp then UserMs else AppointmentMs)
      && d.forward.path == (if userMsUp then UserAuthPrefix else BackupLoginPrefix) + rest
      && d.forward.headers == OnProxyReq(headers, headers)
  {
    var path := "/auth" + rest;
    if rest != [] {
      assert "/auth/" <= path;
    }
    assert "/auth" <= path;
    assert path[|"/auth"|..] == rest;
  }

  /** /consult is proxied to APPOINTMENT_MS unchanged, with no token check. */
  lemma ConsultIsUngated<C>(rest: string, headers: Headers, userMsUp: bool,
                            verify: string -> Option<C>, serialize: C -> string)
    requires rest == [] || rest[0] == '/'
    ensures Dispatch("/consult" + rest, headers, userMsUp, verify, serialize)
      == Proxied(Forward(AppointmentMs, "/consult" + rest, headers), None)
  {
    var path := "/consult" + rest;
    if rest != [] {
      assert "/consult/" <= path;
    }
    assert Mounted("/consult", path);
    assert !Mounted("/auth", path) by { assert path[1] != "/auth"[1]; }
    assert !Mounted("/api/users/", path) by { assert path[1] != "/api/users/"[1]; }
    assert !Mounted("/doctors/", path) by { assert path[1] != "/doctors/"[1]; }
    assert RouteFor(RoutingTable, path) == Some(RoutingTable[2]) by {
      assert RoutingTable[1..][1..][0] == RoutingTable[2];
    }
  }

  /** /doctors is proxied to DOCTOR_MS exactly when `authenticate` passes the
      request on, with the headers it produced; otherwise its answer stands. */
  lemma DoctorsIsGated<C>(rest: string, headers: Headers, userMsUp: bool,
                          verify: string -> Option<C>, serialize: C -> string)
    requires rest == [] || rest[0] == '/'
    ensures var d := Dispatch("/doctors" + rest, headers, userMsUp, verify, serialize);
      var a := Authenticate(headers, verify, serialize);
      && (a.PassOn? ==> d == Proxied(Forward(DoctorMs, "/doctors" + rest, a.headers), a.userData))
      && (a.Deny? ==> d == Refused(a.status, a.message))
  {
    var path := "/doctors" + rest;
    if rest != [] {
      assert "/doctors/" <= path;
    }
    assert Mounted("/doctors/", path);
    assert !Mounted("/auth", path) by { assert path[1] != "/auth"[1]; }
    assert !Mounted("/api/users/", path) by { assert path[1] != "/api/users/"[1]; }
    assert RouteFor(RoutingTable, path) == Some(RoutingTable[1]) by {
      assert RoutingTable[1..][0] == RoutingTable[1];
    }
  }

  /** /api/users is proxied to USER_MS exactly when `authenticate` passes it on. */
  lemma UsersIsGated<C>(rest: string, headers: Headers, userMsUp: bool,
                        verify: string -> Option<C>, serialize: C -> string)
    requires rest == [] || rest[0] == '/'
    ensures var d := Dispatch("/api/users" + rest, headers, userMsUp, verify, serialize);
      var a := Authenticate(headers, verify, serialize);
      && (a.PassOn? ==> d == Proxied(Forward(UserMs, "/api/users" + rest, a.headers), a.userData))
      && (a.Deny? ==> d == Refused(a.status, a.message))
  {
    var path := "/api/users" + rest;
    if rest != [] {
      assert "/api/users/" <= path;
    }
    assert Mounted("/api/users/", path);
    assert !Mounted("/auth", path) by { assert path[2] != "/auth"[2]; }
  }
}
