/** The authorization plugin over a run (docker-authz-plugin/src/lib.rs:369-422, 503-524
    and 859-886; dispatch in docker-authz-plugin/src/main.rs:124-182): which requests pass,
    and the registry of container ids that grows with the responses. */
module AuthzPlugin {
  import opened JsonValue
  import opened PluginCreate
  import opened PluginPath
  import opened PluginQuery
  import opened Text
  import Base64

  datatype Request = Request(verb: string, uri: string, user: Option<string>, authn: Option<string>, body: Option<string>)

  datatype Why =
    | Negotiation | CreateAllowed | PullAllowed | TargetRegistered | TargetName
    | IdentityRequired | IdentityNotAllowed | CreateRefused | PullRefused | GrpcDoor | TargetUnknown | EndpointDenied

  /** `Died`: the request's thread panicked and the connection ends without an answer. */
  datatype Decision = Allowed(why: Why) | Denied(why: Why) | Died

  /** The allowed identities, strict UTF-8 and the JSON grammar. */
  datatype Env = Env(cns: set<string>, utf8: seq<byte> -> Option<string>, parse: string -> Option<Json>)

  // ---- the decision ------------------------------------------------------------------------------

  const OPS: seq<string> := ["start", "attach", "wait", "stop", "kill"]

  predicate Identified(env: Env, req: Request) {
    req.authn == Some("TLS") && req.user.Some? && req.user.value != "" && req.user.value in env.cns
  }

  function SegmentsOf(r: Route): seq<string> { if r.Path? then r.segs else [] }

  predicate IsLifecycle(segs: seq<string>) { TargetOf(segs).Some? && segs[|segs| - 1] in OPS }

  predicate IsRemoval(segs: seq<string>) { TargetOf(segs).Some? && |segs| == 2 }

  /** The container that a request would start, stop, attach to, wait for or remove. */
  function Targeted(req: Request): Option<string> {
    var segs := SegmentsOf(RouteOf(req.uri));
    if (req.verb == "POST" && IsLifecycle(segs)) || (req.verb == "DELETE" && IsRemoval(segs)) then TargetOf(segs) else None
  }

  function JudgeTarget(owned: set<string>, t: string): Decision {
    if t in owned then Allowed(TargetRegistered)
    else if IsScannerName(t) then Allowed(TargetName)
    else Denied(TargetUnknown)
  }

  predicate IsCreate(req: Request) { req.verb == "POST" && SegmentsOf(RouteOf(req.uri)) == ["containers", "create"] }

  predicate IsPull(req: Request) { req.verb == "POST" && SegmentsOf(RouteOf(req.uri)) == ["images", "create"] }

  predicate IsNegotiation(verb: string, segs: seq<string>) {
    ((verb == "HEAD" || verb == "GET") && segs == ["_ping"]) || (verb == "GET" && segs == ["version"])
  }

  function PullDecision(uri: string): Decision {
    var pairs := Split(Query(uri), '&');
    if PullPasses(Values(pairs, "fromImage"), Values(pairs, "tag")) then Allowed(PullAllowed) else Denied(PullRefused)
  }

  /** The policy, on segments. */
  ghost function Judge(env: Env, owned: set<string>, req: Request): Decision {
    if req.authn != Some("TLS") || req.user.None? || req.user.value == "" then Denied(IdentityRequired)
    else if req.user.value !in env.cns then Denied(IdentityNotAllowed)
    else if RouteOf(req.uri).Panics? then Died
    else if IsNegotiation(req.verb, SegmentsOf(RouteOf(req.uri))) then Allowed(Negotiation)
    else if IsCreate(req) then if CreatePasses(env.parse, req.uri, req.body) then Allowed(CreateAllowed) else Denied(CreateRefused)
    else if IsPull(req) then PullDecision(req.uri)
    else if req.verb == "POST" && SegmentsOf(RouteOf(req.uri)) == ["grpc"] then Denied(GrpcDoor)
    else if Targeted(req).Some? then JudgeTarget(owned, Targeted(req).value)
    else Denied(EndpointDenied)
  }

  /** The closed list, verb by verb and segment by segment: what a listed identity may
      do on this channel, given the ids that are owned. */
  ghost predicate Listed(env: Env, owned: set<string>, req: Request) {
    && req.authn == Some("TLS") && req.user.Some? && req.user.value != "" && req.user.value in env.cns
    && RouteOf(req.uri).Path?
    && var segs := RouteOf(req.uri).segs;
       || ((req.verb == "HEAD" || req.verb == "GET") && segs == ["_ping"])
       || (req.verb == "GET" && segs == ["version"])
       || (req.verb == "POST" && segs == ["containers", "create"] && CreatePasses(env.parse, req.uri, req.body))
       || (req.verb == "POST" && segs == ["images", "create"]
           && PullPasses(Values(Split(Query(req.uri), '&'), "fromImage"), Values(Split(Query(req.uri), '&'), "tag")))
       || (req.verb == "POST" && |segs| >= 2 && segs[0] == "containers" && EndsInLifecycle(segs)
           && (segs[1] in owned || IsScannerName(segs[1])))
       || (req.verb == "DELETE" && |segs| == 2 && segs[0] == "containers"
           && (segs[1] in owned || IsScannerName(segs[1])))
  }

  predicate EndsInLifecycle(segs: seq<string>)
    requires segs != []
  {
    var last := segs[|segs| - 1];
    last == "start" || last == "attach" || last == "wait" || last == "stop" || last == "kill"
  }

  lemma PlainPaths(req: Request)
    requires IsNegotiation(req.verb, SegmentsOf(RouteOf(req.uri))) || IsCreate(req) || IsPull(req)
    ensures RouteOf(req.uri).Path? && Targeted(req).None?
  {
  }

  lemma TargetIsListed(req: Request)
    requires !RouteOf(req.uri).Panics?
    ensures Targeted(req).Some? <==>
              && RouteOf(req.uri).Path?
              && var segs := RouteOf(req.uri).segs;
                 && |segs| >= 2 && segs[0] == "containers"
                 && ((req.verb == "POST" && EndsInLifecycle(segs)) || (req.verb == "DELETE" && |segs| == 2))
    ensures Targeted(req).Some? ==> Targeted(req).value == RouteOf(req.uri).segs[1]
  {
  }

  /** Nothing is let through but what is on the list, and all of it is. */
  lemma AllowedExactlyWhen(env: Env, owned: set<string>, req: Request)
    ensures Judge(env, owned, req).Allowed? <==> Listed(env, owned, req)
    ensures Judge(env, owned, req).Died? <==> Identified(env, req) && RouteOf(req.uri).Panics?
  {
    if Identified(env, req) && !RouteOf(req.uri).Panics? {
      TargetIsListed(req);
      if IsNegotiation(req.verb, SegmentsOf(RouteOf(req.uri))) || IsCreate(req) || IsPull(req) {
        PlainPaths(req);
      }
    }
  }

  /** Who is refused without a look at the path. */
  lemma DeniedUnseen(env: Env, owned: set<string>, req: Request)
    ensures var named := req.authn == Some("TLS") && req.user.Some? && req.user.value != "";
            && (!named ==> Judge(env, owned, req) == Denied(IdentityRequired))
            && (named && req.user.value !in env.cns ==> Judge(env, owned, req) == Denied(IdentityNotAllowed))
  {
  }

  /** What is refused by name, and that an unusable path is no endpoint. */
  lemma DeniedByName(env: Env, owned: set<string>, req: Request)
    requires Identified(env, req)
    ensures RouteOf(req.uri) == Unusable ==> Judge(env, owned, req) == Denied(EndpointDenied)
    ensures RouteOf(req.uri) == Path(["grpc"]) && req.verb == "POST" ==> Judge(env, owned, req) == Denied(GrpcDoor)
  {
    GrpcIsApart();
  }

  lemma GrpcIsApart()
    ensures "grpc" != "_ping" && "grpc" != "version"
  {
    assert "grpc"[0] != "_ping"[0] && |"grpc"| != |"version"|;
  }

  /** A known path, as text and as segments. */
  lemma PathMeans(route: Route, known: seq<string>)
    requires !route.Panics? && (route.Path? ==> Clean(route.segs)) && Clean(known)
    ensures Printed(route) == Printed(Path(known)) <==> SegmentsOf(route) == known
  {
    if route.Path? && Printed(route) == Printed(Path(known)) {
      PrintedIsInjective(route.segs, known);
    }
  }

  lemma KnownPaths()
    ensures Clean(["_ping"]) && Printed(Path(["_ping"])) == "/_ping"
    ensures Clean(["version"]) && Printed(Path(["version"])) == "/version"
    ensures Clean(["grpc"]) && Printed(Path(["grpc"])) == "/grpc"
  {
    OnePrints("_ping");
    OnePrints("version");
    OnePrints("grpc");
  }

  lemma OnePrints(a: string)
    requires a != "" && '/' !in a
    ensures Clean([a]) && Printed(Path([a])) == "/" + a
  {
  }

  lemma PairPrints(a: string, b: string)
    requires a != "" && b != "" && '/' !in a && '/' !in b
    ensures Clean([a, b]) && Printed(Path([a, b])) == "/" + (a + ['/'] + b)
  {
    assert [a, b][1..] == [b] && Join([b], '/') == b;
    assert Join([a, b], '/') == a + ['/'] + b;
  }

  lemma CreatePath()
    ensures Clean(["containers", "create"]) && Printed(Path(["containers", "create"])) == "/containers/create"
  {
    PairPrints("containers", "create");
  }

  lemma PullPath()
    ensures Clean(["images", "create"]) && Printed(Path(["images", "create"])) == "/images/create"
  {
    PairPrints("images", "create");
  }

  /** `is_lifecycle_op`, on the text. */
  predicate EndsInOp(path: string) {
    || EndsWith(path, "/start") || EndsWith(path, "/attach") || EndsWith(path, "/wait")
    || EndsWith(path, "/stop") || EndsWith(path, "/kill")
  }

  lemma OpsAreLast(segs: seq<string>)
    requires Clean(segs)
    ensures EndsInOp(Printed(Path(segs))) <==> segs[|segs| - 1] in OPS
  {
    EndIsLast(segs, "start");
    EndIsLast(segs, "attach");
    EndIsLast(segs, "wait");
    EndIsLast(segs, "stop");
    EndIsLast(segs, "kill");
    OpsSpelled();
  }

  lemma OpsSpelled()
    ensures "/" + "start" == "/start" && "/" + "attach" == "/attach" && "/" + "wait" == "/wait"
    ensures "/" + "stop" == "/stop" && "/" + "kill" == "/kill"
  {
  }

  /** `is_container_delete`, on the text. */
  predicate IsBareContainer(path: string) {
    "/containers/" <= path && path[12..] != "" && '/' !in path[12..]
  }

  lemma BareIsTwo(segs: seq<string>)
    requires Clean(segs)
    ensures IsBareContainer(Printed(Path(segs))) <==> IsRemoval(segs)
  {
    TargetIsSecond(segs);
    if TargetOf(segs).Some? {
      var rest := Printed(Path(segs))[12..];
      JoinOfSplit(rest, '/');
      if '/' !in rest {
        SplitWhole(rest, '/');
      }
      assert segs[1] in segs;
      assert |segs| == 2 ==> rest == segs[1];
    }
  }

  /** The two target endpoints, as the program tells them by the text. */
  lemma TargetedByText(req: Request, path: string)
    requires !RouteOf(req.uri).Panics? && path == Printed(RouteOf(req.uri))
    ensures Targeted(req) == if (req.verb == "POST" && ContainerTarget(path).Some? && EndsInOp(path))
                                || (req.verb == "DELETE" && ContainerTarget(path).Some? && IsBareContainer(path))
                             then ContainerTarget(path) else None
  {
    RouteIsClean(req.uri);
    if RouteOf(req.uri).Path? {
      var segs := RouteOf(req.uri).segs;
      TargetIsSecond(segs);
      OpsAreLast(segs);
      BareIsTwo(segs);
    }
  }

  /** `target_policy`. */
  method TargetPolicy(owned: set<string>, t: string) returns (d: Decision)
    ensures d == JudgeTarget(owned, t)
  {
    if t in owned {
      return Allowed(TargetRegistered);
    }
    if PREFIX <= t {
      var scanner := CheckUuid(t[|PREFIX|..]);
      if scanner {
        return Allowed(TargetName);
      }
    }
    return Denied(TargetUnknown);
  }

  /** The match on method and path, where the identity has passed. */
  method DecideEndpoint(env: Env, owned: set<string>, req: Request, path: string) returns (d: Decision)
    requires Identified(env, req) && !RouteOf(req.uri).Panics? && path == Printed(RouteOf(req.uri))
    ensures d == Judge(env, owned, req)
  {
    RouteIsClean(req.uri);
    TargetedByText(req, path);
    KnownPaths();
    CreatePath();
    PullPath();
    PathMeans(RouteOf(req.uri), ["_ping"]);
    PathMeans(RouteOf(req.uri), ["version"]);
    PathMeans(RouteOf(req.uri), ["containers", "create"]);
    PathMeans(RouteOf(req.uri), ["images", "create"]);
    PathMeans(RouteOf(req.uri), ["grpc"]);
    if ((req.verb == "HEAD" || req.verb == "GET") && path == "/_ping") || (req.verb == "GET" && path == "/version") {
      return Allowed(Negotiation);
    }
    if req.verb == "POST" && path == "/containers/create" {
      var create := CreatePolicy(env.parse, req.uri, req.body);
      return if create then Allowed(CreateAllowed) else Denied(CreateRefused);
    }
    if req.verb == "POST" && path == "/images/create" {
      var pull := PullPolicy(req.uri);
      return if pull then Allowed(PullAllowed) else Denied(PullRefused);
    }
    if req.verb == "POST" && path == "/grpc" {
      return Denied(GrpcDoor);
    }
    var target := ContainerTarget(path);
    if req.verb == "POST" && target.Some? && EndsInOp(path) {
      d := TargetPolicy(owned, target.value);
      return;
    }
    if req.verb == "DELETE" && target.Some? && IsBareContainer(path) {
      d := TargetPolicy(owned, target.value);
      return;
    }
    return Denied(EndpointDenied);
  }

  /** `decide`. */
  method Decide(env: Env, owned: set<string>, req: Request) returns (d: Decision)
    ensures d == Judge(env, owned, req)
    ensures d.Allowed? <==> Listed(env, owned, req)
    ensures d.Died? <==> Identified(env, req) && RouteOf(req.uri).Panics?
  {
    AllowedExactlyWhen(env, owned, req);
    if req.authn != Some("TLS") || req.user.None? || req.user.value == "" {
      return Denied(IdentityRequired);
    }
    if req.user.value !in env.cns {
      return Denied(IdentityNotAllowed);
    }
    var path := NormalizePath(req.uri);
    if path.None? {
      return Died;
    }
    d := DecideEndpoint(env, owned, req, path.value);
  }

  // ---- the registry over a run -----------------------------------------------------------------

  /** What the plugin is told: a request, or a response. Which request a response
      belongs to is the daemon's knowledge; the plugin does not look at it. */
  datatype Event = Asked(req: Request) | Answered(res: Json, to: nat)

  function Member(v: Option<Json>, key: string): Option<string> {
    match v
    case Some(Obj(fields)) => (match Get(fields, key) case Some(Str(s)) => Some(s) case _ => None)
    case _ => None
  }

  /** The container id that a response's body gives, if it gives one. */
  function IdIn(env: Env, res: Json): Option<string> {
    match Member(Some(res), "ResponseBody")
    case None => None
    case Some(body) =>
      var t := Base64.Strip(Encode(body));
      if !Base64.WellPadded(t) then None
      else
        match env.utf8(Base64.Value(t))
        case None => None
        case Some(text) =>
          match Member(env.parse(text), "Id")
          case Some(id) => if id == "" then None else Some(id)
          case None => None
  }

  /** A response's body, in base64, whose text holds an `Id`, gives just that id; one
      without a body, or with an empty id, gives none. */
  lemma IdIsRead(env: Env, res: seq<Field>, body: string, text: string, fields: seq<Field>, id: string)
    requires Get(res, "ResponseBody") == Some(Str(body)) && Encode(body) == Base64.Encode(Encode(text))
    requires text != "" && env.utf8(Encode(text)) == Some(text) && env.parse(text) == Some(Obj(fields))
    ensures Get(fields, "Id") == Some(Str(id)) ==> IdIn(env, Obj(res)) == if id == "" then None else Some(id)
    ensures Get(fields, "Id").None? ==> IdIn(env, Obj(res)) == None
  {
    Base64.EncodedIsStripped(Encode(text));
    Base64.DecodeOfEncode(Encode(text));
  }

  lemma NoBodyNoId(env: Env, res: Json)
    requires !res.Obj? || Get(res.fields, "ResponseBody").None? || !Get(res.fields, "ResponseBody").value.Str?
    ensures IdIn(env, res) == None
  {
  }

  /** The ids that responses gave. */
  function Owned(env: Env, history: seq<Event>): set<string> {
    if history == [] then {}
    else
      var last := history[|history| - 1];
      Owned(env, history[..|history| - 1])
      + (if last.Answered? && IdIn(env, last.res).Some? then {IdIn(env, last.res).value} else {})
  }

  predicate Tells(env: Env, e: Event, id: string) { e.Answered? && IdIn(env, e.res) == Some(id) }

  lemma {:induction false} OwnedWasTold(env: Env, history: seq<Event>, id: string)
    ensures id in Owned(env, history) <==> exists i :: 0 <= i < |history| && Tells(env, history[i], id)
  {
    if history != [] {
      var front, last := history[..|history| - 1], history[|history| - 1];
      OwnedWasTold(env, front, id);
      assert forall i :: 0 <= i < |front| ==> front[i] == history[i];
      assert Tells(env, last, id) <==> Tells(env, history[|history| - 1], id);
    }
  }

  /** The id of a response, or nothing at the first step that fails. */
  method ReadId(env: Env, res: Json) returns (id: Option<string>)
    ensures id == IdIn(env, res)
  {
    var body := Member(Some(res), "ResponseBody");
    if body.None? {
      return None;
    }
    var raw := Base64.Decode(Encode(body.value));
    if raw.None? {
      return None;
    }
    var text := env.utf8(raw.value);
    if text.None? {
      return None;
    }
    id := Member(env.parse(text.value), "Id");
    if id == Some("") {
      return None;
    }
  }

  class Plugin {
    const env: Env
    var registry: set<string>
    ghost var history: seq<Event>

    ghost predicate Valid()
      reads this
    {
      registry == Owned(env, history)
    }

    constructor (env: Env)
      ensures Valid() && this.env == env && history == []
    {
      this.env, registry, history := env, {}, [];
    }

    /** `AuthZPlugin.AuthZReq`. */
    method Ask(req: Request) returns (d: Decision)
      requires Valid()
      modifies this`history
      ensures Valid() && history == old(history) + [Asked(req)]
      ensures d == Judge(env, Owned(env, old(history)), req)
      ensures d.Allowed? <==> Listed(env, Owned(env, old(history)), req)
    {
      d := Decide(env, registry, req);
      history := history + [Asked(req)];
      assert history[..|history| - 1] == old(history);
    }

    /** `AuthZPlugin.AuthZRes` and `observe`: any response with an id registers it. */
    method Observe(res: Json, ghost to: nat) returns (registered: bool)
      requires Valid()
      modifies this
      ensures Valid() && history == old(history) + [Answered(res, to)]
      ensures registered <==> IdIn(env, res).Some?
      ensures registry == old(registry) + (if registered then {IdIn(env, res).value} else {})
    {
      history := history + [Answered(res, to)];
      assert history[..|history| - 1] == old(history);
      var id := ReadId(env, res);
      registered := id.Some?;
      if registered {
        registry := registry + {id.value};
      }
    }
  }

  // ---- what every run keeps ----------------------------------------------------------------------

  /** After any history: a request to start, stop, attach to, wait for or remove a
      container passes exactly when its identity is listed and the target has a scanner
      name or an id that some response gave before. */
  lemma TargetsAreOwned(env: Env, history: seq<Event>, req: Request, t: string)
    requires Targeted(req) == Some(t)
    ensures Judge(env, Owned(env, history), req).Allowed? <==>
              && Identified(env, req)
              && (IsScannerName(t) || exists i :: 0 <= i < |history| && Tells(env, history[i], t))
  {
    OwnedWasTold(env, history, t);
    TargetedIsPlain(req);
  }

  lemma TargetedIsPlain(req: Request)
    requires Targeted(req).Some?
    ensures !IsCreate(req) && !IsPull(req) && !RouteOf(req.uri).Panics?
    ensures !IsNegotiation(req.verb, SegmentsOf(RouteOf(req.uri))) && SegmentsOf(RouteOf(req.uri)) != ["grpc"]
  {
  }

  /** A create request that passed. */
  ghost predicate PassedCreate(env: Env, history: seq<Event>, k: nat) {
    && k < |history| && history[k].Asked?
    && Judge(env, Owned(env, history[..k]), history[k].req) == Allowed(CreateAllowed)
  }

  /** The `i`-th event gives the id in the response to a create request that had passed. */
  ghost predicate MadeAt(env: Env, history: seq<Event>, id: string, i: nat) {
    i < |history| && Tells(env, history[i], id) && history[i].to < i && PassedCreate(env, history, history[i].to)
  }

  /** The container was made through this channel. */
  ghost predicate CreatedHere(env: Env, history: seq<Event>, id: string) { exists i :: MadeAt(env, history, id, i) }

  /** Every registered id is a scanner name or was made here. */
  ghost predicate OnlyOwn(env: Env, history: seq<Event>) {
    forall id :: id in Owned(env, history) ==> IsScannerName(id) || CreatedHere(env, history, id)
  }

  /** What `observe` would have to check of a response before it takes its id: that it
      gives none, or a scanner name, or one that was made here already, or that it
      answers a create request that had passed. */
  ghost predicate Guarded(env: Env, history: seq<Event>, res: Json, to: nat) {
    match IdIn(env, res)
    case None => true
    case Some(id) => IsScannerName(id) || CreatedHere(env, history, id) || PassedCreate(env, history, to)
  }

  lemma OwnedAfter(env: Env, history: seq<Event>, e: Event)
    ensures Owned(env, history + [e])
         == Owned(env, history) + (if e.Answered? && IdIn(env, e.res).Some? then {IdIn(env, e.res).value} else {})
  {
    assert (history + [e])[..|history + [e]| - 1] == history;
  }

  lemma PassedStays(env: Env, history: seq<Event>, e: Event, k: nat)
    requires k < |history|
    ensures PassedCreate(env, history + [e], k) <==> PassedCreate(env, history, k)
  {
    assert (history + [e])[..k] == history[..k];
  }

  lemma MadeStays(env: Env, history: seq<Event>, e: Event, id: string, i: nat)
    requires i < |history|
    ensures MadeAt(env, history + [e], id, i) <==> MadeAt(env, history, id, i)
  {
    if history[i].Answered? && history[i].to < i {
      PassedStays(env, history, e, history[i].to);
    }
  }

  lemma MadeLast(env: Env, history: seq<Event>, e: Event, id: string)
    ensures MadeAt(env, history + [e], id, |history|) <==> Tells(env, e, id) && PassedCreate(env, history, e.to)
  {
    if e.Answered? && e.to < |history| {
      PassedStays(env, history, e, e.to);
    }
  }

  lemma MadeBefore(env: Env, history: seq<Event>, e: Event, id: string, i: nat)
    requires MadeAt(env, history + [e], id, i)
    ensures i < |history| ==> CreatedHere(env, history, id)
    ensures i == |history| ==> Tells(env, e, id) && PassedCreate(env, history, e.to)
  {
    if i < |history| {
      MadeStays(env, history, e, id, i);
    } else {
      MadeLast(env, history, e, id);
    }
  }

  lemma MadeAfter(env: Env, history: seq<Event>, e: Event, id: string, i: nat)
    requires MadeAt(env, history, id, i)
    ensures CreatedHere(env, history + [e], id)
  {
    MadeStays(env, history, e, id, i);
  }

  lemma CreatedByLast(env: Env, history: seq<Event>, e: Event, id: string)
    requires Tells(env, e, id) && PassedCreate(env, history, e.to)
    ensures CreatedHere(env, history + [e], id)
  {
    MadeLast(env, history, e, id);
  }

  /** What was made stays made, and only the answer to a passed create makes more. */
  lemma CreatedAfter(env: Env, history: seq<Event>, e: Event, id: string)
    ensures CreatedHere(env, history + [e], id) <==>
              CreatedHere(env, history, id) || (Tells(env, e, id) && PassedCreate(env, history, e.to))
  {
    forall i | MadeAt(env, history + [e], id, i)
      ensures CreatedHere(env, history, id) || (Tells(env, e, id) && PassedCreate(env, history, e.to))
    {
      MadeBefore(env, history, e, id, i);
    }
    forall i | MadeAt(env, history, id, i)
      ensures CreatedHere(env, history + [e], id)
    {
      MadeAfter(env, history, e, id, i);
    }
    if Tells(env, e, id) && PassedCreate(env, history, e.to) {
      CreatedByLast(env, history, e, id);
    }
  }

  /** One response: from a registry of own containers only it leads to another such
      registry exactly when the check would let it pass. */
  lemma ObserveKeepsOwnExactlyWhen(env: Env, history: seq<Event>, res: Json, to: nat)
    requires OnlyOwn(env, history)
    ensures OnlyOwn(env, history + [Answered(res, to)]) <==> Guarded(env, history, res, to)
  {
    var e := Answered(res, to);
    OwnedAfter(env, history, e);
    forall id
      ensures CreatedHere(env, history + [e], id) <==>
                CreatedHere(env, history, id) || (Tells(env, e, id) && PassedCreate(env, history, to))
    {
      CreatedAfter(env, history, e, id);
    }
    if IdIn(env, res).Some? {
      assert IdIn(env, res).value in Owned(env, history + [e]);
    }
  }

  /** A request leaves the registry alone. */
  lemma AskKeepsOwn(env: Env, history: seq<Event>, req: Request)
    requires OnlyOwn(env, history)
    ensures OnlyOwn(env, history + [Asked(req)])
  {
    OwnedAfter(env, history, Asked(req));
    forall id | id in Owned(env, history)
      ensures IsScannerName(id) || CreatedHere(env, history + [Asked(req)], id)
    {
      CreatedAfter(env, history, Asked(req), id);
    }
  }

  ghost predicate GuardedAt(env: Env, history: seq<Event>, i: nat)
    requires i < |history|
  {
    history[i].Answered? ==> Guarded(env, history[..i], history[i].res, history[i].to)
  }

  ghost predicate AlwaysOwn(env: Env, history: seq<Event>) {
    forall k :: 0 <= k <= |history| ==> OnlyOwn(env, history[..k])
  }

  ghost predicate AlwaysGuarded(env: Env, history: seq<Event>) {
    forall i :: 0 <= i < |history| ==> GuardedAt(env, history, i)
  }

  lemma AlwaysOwnMore(env: Env, front: seq<Event>, last: Event)
    ensures AlwaysOwn(env, front + [last]) <==> AlwaysOwn(env, front) && OnlyOwn(env, front + [last])
  {
    var history := front + [last];
    assert history[..|history|] == history;
    forall k | 0 <= k <= |front|
      ensures history[..k] == front[..k]
    {
    }
  }

  lemma AlwaysGuardedMore(env: Env, front: seq<Event>, last: Event)
    ensures AlwaysGuarded(env, front + [last]) <==>
              AlwaysGuarded(env, front) && (last.Answered? ==> Guarded(env, front, last.res, last.to))
  {
    var history := front + [last];
    assert history[..|front|] == front;
    forall i | 0 <= i < |front|
      ensures GuardedAt(env, history, i) <==> GuardedAt(env, front, i)
    {
      assert history[..i] == front[..i];
    }
    assert GuardedAt(env, history, |front|) <==> (last.Answered? ==> Guarded(env, front, last.res, last.to));
  }

  /** A whole run: at every moment only own containers are registered exactly when
      every response, as it came, would have passed the check. */
  lemma {:induction false} OnlyOwnExactlyWhen(env: Env, history: seq<Event>)
    ensures AlwaysOwn(env, history) <==> AlwaysGuarded(env, history)
  {
    if history != [] {
      var front, last := history[..|history| - 1], history[|history| - 1];
      assert history == front + [last];
      OnlyOwnExactlyWhen(env, front);
      AlwaysOwnMore(env, front, last);
      AlwaysGuardedMore(env, front, last);
      if AlwaysOwn(env, front) {
        assert front[..|front|] == front;
        LastEvent(env, front, last);
      }
    }
  }

  lemma LastEvent(env: Env, front: seq<Event>, last: Event)
    requires OnlyOwn(env, front)
    ensures OnlyOwn(env, front + [last]) <==> (last.Answered? ==> Guarded(env, front, last.res, last.to))
  {
    match last
    case Asked(req) => AskKeepsOwn(env, front, req);
    case Answered(res, to) => ObserveKeepsOwnExactlyWhen(env, front, res, to);
  }

  /** Then only containers with a scanner name, or made through this channel, are ever
      started, stopped, attached to, waited for or removed. */
  lemma OnlyOwnContainers(env: Env, history: seq<Event>, req: Request, t: string)
    requires OnlyOwn(env, history) && Targeted(req) == Some(t)
    requires Judge(env, Owned(env, history), req).Allowed?
    ensures IsScannerName(t) || CreatedHere(env, history, t)
  {
    TargetsAreOwned(env, history, req, t);
    OwnedWasTold(env, history, t);
  }

  /** The program has no such check: it takes the id from the response to any request
      that passed, also one that created nothing. */
  lemma AnyResponseRegisters(env: Env, ping: Request, res: Json, req: Request, t: string)
    requires Judge(env, {}, ping).Allowed? && !IsCreate(ping)
    requires IdIn(env, res) == Some(t) && !IsScannerName(t)
    requires Targeted(req) == Some(t) && Identified(env, req)
    ensures var history := [Asked(ping), Answered(res, 0)];
            && Judge(env, Owned(env, history[..0]), ping).Allowed?
            && Judge(env, Owned(env, history), req).Allowed? && !CreatedHere(env, history, t)
  {
    var history := [Asked(ping), Answered(res, 0)];
    assert Tells(env, history[1], t);
    TargetsAreOwned(env, history, req, t);
    NoCreateAsked(env, Owned(env, history[..0]), ping);
  }

  lemma NoCreateAsked(env: Env, owned: set<string>, req: Request)
    requires !IsCreate(req)
    ensures Judge(env, owned, req) != Allowed(CreateAllowed)
  {
  }

  lemma SameRouteSameVerdict(env: Env, owned: set<string>, req: Request, uri: string)
    requires RouteOf(uri) == RouteOf(req.uri) && !IsCreate(req) && !IsPull(req)
    ensures Judge(env, owned, req.(uri := uri)) == Judge(env, owned, req)
  {
  }

  /** Other spellings of one path get the same verdict, except where it reads the query:
      with a query behind it, with a slash doubled, or with a version in front of a path
      whose own first segment is not delicate. */
  lemma SpellingDecidesNothing(env: Env, owned: set<string>, req: Request, ver: string, query: string)
    requires !IsCreate(req) && !IsPull(req) && IsVersion(ver)
    requires req.uri != "" && req.uri[0] == '/' && '?' !in req.uri && '#' !in req.uri
    ensures Judge(env, owned, req.(uri := req.uri + "?" + query)) == Judge(env, owned, req)
    ensures forall a, b :: req.uri == a + ['/'] + b ==>
              Judge(env, owned, req.(uri := a + ['/'] + ['/'] + b)) == Judge(env, owned, req)
    ensures Segments(req.uri) != [] && !Delicate(Segments(req.uri)) ==>
              Judge(env, owned, req.(uri := "/" + ver + req.uri)) == Judge(env, owned, req)
  {
    QueryIgnored(req.uri, query);
    SameRouteSameVerdict(env, owned, req, req.uri + "?" + query);
    forall a, b | req.uri == a + ['/'] + b
      ensures Judge(env, owned, req.(uri := a + ['/'] + ['/'] + b)) == Judge(env, owned, req)
    {
      DoubledSlash(a, b);
      SameRouteSameVerdict(env, owned, req, a + ['/'] + ['/'] + b);
    }
    if Segments(req.uri) != [] && !Delicate(Segments(req.uri)) {
      BeforeQueryConcat(req.uri, "");
      assert req.uri + "" == req.uri;
      VersionPrefix(ver, req.uri);
      SameRouteSameVerdict(env, owned, req, "/" + ver + req.uri);
    }
  }
}
