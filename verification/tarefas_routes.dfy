/**
 * The task router: eight (method, path pattern, handler) registrations made one
 * after another on an Express router mounted at `/api/tarefas`, and the
 * first-match dispatch that picks the handler for a request.
 */
module Routes {
  import opened TarefaTypes
  import opened Text

  datatype HttpMethod = GET | POST | PUT | PATCH | DELETE

  /** The controller actions a route can lead to. */
  datatype Handler =
    | Estatisticas | ListarTodas | ListarPorQuadrante | BuscarPorId
    | Criar | Atualizar | Concluir | Excluir

  /** A path segment of a pattern: fixed text, or a named parameter (`:id`). */
  datatype Segment = Lit(text: string) | Param(name: string)

  datatype Route = Route(verb: HttpMethod, pattern: seq<Segment>, handler: Handler)

  /** What dispatch hands to a controller action: which one, and the path parameters. */
  datatype Match = Match(handler: Handler, params: map<string, string>)

  /** The prefix the router is mounted at. */
  const MountPath := "/api/tarefas"

  /** The segments of a path below the mount point; a trailing '/' is optional. */
  function PathSegments(path: string): (r: seq<string>)
    requires |path| >= 1 && path[0] == '/'
  {
    var pieces := Split(path[1..], '/');
    if pieces[|pieces| - 1] == "" then pieces[..|pieces| - 1] else pieces
  }

  /** A literal matches itself; a parameter matches any non-empty segment. */
  predicate SegmentMatches(p: Segment, s: string) {
    match p
    case Lit(text) => s == text
    case Param(_) => s != ""
  }

  predicate PatternMatches(pattern: seq<Segment>, segs: seq<string>) {
    |pattern| == |segs| && forall i :: 0 <= i < |segs| ==> SegmentMatches(pattern[i], segs[i])
  }

  predicate RouteMatches(r: Route, m: HttpMethod, segs: seq<string>) {
    r.verb == m && PatternMatches(r.pattern, segs)
  }

  /** The parameters a matching pattern binds, by name; a name repeated later in the pattern takes the later value. */
  function Bind(pattern: seq<Segment>, segs: seq<string>): (params: map<string, string>)
    requires |pattern| == |segs|
    ensures forall name :: name in params <==> Param(name) in pattern
    ensures forall i :: 0 <= i < |pattern| && pattern[i].Param? && pattern[i] !in pattern[i + 1..] ==>
      params[pattern[i].name] == segs[i]
  {
    if pattern == [] then map[]
    else
      var rest := Bind(pattern[1..], segs[1..]);
      var params := if pattern[0].Param? && pattern[0].name !in rest then rest[pattern[0].name := segs[0]] else rest;
      BindCons(pattern, segs, rest, params);
      params
  }

  /** Binding the first segment in front of the bindings of the rest. */
  lemma {:induction false} BindCons(pattern: seq<Segment>, segs: seq<string>, rest: map<string, string>, params: map<string, string>)
    requires |pattern| == |segs| && pattern != []
    requires forall name :: name in rest <==> Param(name) in pattern[1..]
    requires forall i :: 0 <= i < |pattern| - 1 && pattern[1..][i].Param? && pattern[1..][i] !in pattern[1..][i + 1..] ==>
      rest[pattern[1..][i].name] == segs[1..][i]
    requires params == if pattern[0].Param? && pattern[0].name !in rest then rest[pattern[0].name := segs[0]] else rest
    ensures forall name :: name in params <==> Param(name) in pattern
    ensures forall i :: 0 <= i < |pattern| && pattern[i].Param? && pattern[i] !in pattern[i + 1..] ==>
      params[pattern[i].name] == segs[i]
  {
    var tail := pattern[1..];
    assert pattern == [pattern[0]] + tail;
    forall name ensures name in params <==> Param(name) in pattern {
      assert Param(name) in pattern <==> Param(name) == pattern[0] || Param(name) in tail;
    }
    forall i | 0 <= i < |pattern| && pattern[i].Param? && pattern[i] !in pattern[i + 1..]
      ensures params[pattern[i].name] == segs[i]
    {
      if i > 0 {
        assert pattern[i] == tail[i - 1] && pattern[i + 1..] == tail[i..];
        assert rest[pattern[i].name] == segs[1..][i - 1];
        assert Param(pattern[i].name) in tail;
      } else {
        assert Param(pattern[0].name) !in tail;
      }
    }
  }

  /** The index of the first route that matches the request, or -1 when none does. */
  function FirstMatch(routes: seq<Route>, m: HttpMethod, segs: seq<string>): (k: int)
    ensures -1 <= k < |routes|
    ensures k >= 0 ==> RouteMatches(routes[k], m, segs)
    ensures forall j :: 0 <= j < |routes| && (k == -1 || j < k) ==> !RouteMatches(routes[j], m, segs)
  {
    if routes == [] then -1
    else if RouteMatches(routes[0], m, segs) then 0
    else
      var k := FirstMatch(routes[1..], m, segs);
      assert forall j :: 1 <= j < |routes| ==> routes[j] == routes[1..][j - 1];
      if k == -1 then -1 else k + 1
  }

  /** Express's dispatch within the router: the first registered match wins; with none, the request falls through the router. */
  function Dispatch(routes: seq<Route>, m: HttpMethod, segs: seq<string>): (r: Option<Match>)
    ensures r.None? <==> forall j :: 0 <= j < |routes| ==> !RouteMatches(routes[j], m, segs)
    ensures r.Some? ==> (exists k :: 0 <= k < |routes| && RouteMatches(routes[k], m, segs)
                                   && (forall j :: 0 <= j < k ==> !RouteMatches(routes[j], m, segs))
                                   && r.value == Match(routes[k].handler, Bind(routes[k].pattern, segs)))
  {
    var k := FirstMatch(routes, m, segs);
    if k == -1 then None else Some(Match(routes[k].handler, Bind(routes[k].pattern, segs)))
  }

  /** The route at `k` takes the request when it matches and none before it does. */
  lemma DispatchAt(routes: seq<Route>, m: HttpMethod, segs: seq<string>, k: int)
    requires 0 <= k < |routes| && RouteMatches(routes[k], m, segs)
    requires forall j :: 0 <= j < k ==> !RouteMatches(routes[j], m, segs)
    ensures Dispatch(routes, m, segs) == Some(Match(routes[k].handler, Bind(routes[k].pattern, segs)))
  {
    var first := FirstMatch(routes, m, segs);
    assert first != -1 && first <= k;
    assert first >= k;
  }

  /** The path the mounted router sees: what follows `/api/tarefas`, or nothing when the path is elsewhere. */
  function Unmount(path: string): (r: Option<string>)
    ensures r.Some? ==> |r.value| >= 1 && r.value[0] == '/'
    ensures r.Some? ==> path == MountPath + r.value || (path == MountPath && r.value == "/")
  {
    if path == MountPath then Some("/")
    else if |path| > |MountPath| && path[..|MountPath|] == MountPath && path[|MountPath|] == '/' then
      assert path == MountPath + path[|MountPath|..];
      Some(path[|MountPath|..])
    else None
  }

  /** A whole request: strip the query string, unmount, split, dispatch. */
  function Resolve(routes: seq<Route>, m: HttpMethod, url: string): (r: Option<Match>)
    ensures Unmount(BeforeQuery(url)).None? ==> r.None?
    ensures r.Some? ==> |BeforeQuery(url)| >= |MountPath| && BeforeQuery(url)[..|MountPath|] == MountPath
    ensures r.Some? ==> exists k :: 0 <= k < |routes| && routes[k].verb == m && routes[k].handler == r.value.handler
  {
    match Unmount(BeforeQuery(url))
    case None => None
    case Some(path) => Dispatch(routes, m, PathSegments(path))
  }

  /** The registrations in the order they are made. */
  function TarefasRoutes(): (routes: seq<Route>)
    ensures |routes| == 8
    ensures forall i, j :: 0 <= i < j < |routes| ==> routes[i].handler != routes[j].handler
    ensures forall i, j ::
              (0 <= i < |routes| && 0 <= j < |routes| && routes[i].verb == GET && routes[i].pattern != []
               && routes[i].pattern[0].Lit? && routes[j].handler == BuscarPorId) ==> i < j
  {
    [ Route(GET, [Lit("stats")], Estatisticas),
      Route(GET, [], ListarTodas),
      Route(GET, [Lit("quadrante"), Param("quadrante")], ListarPorQuadrante),
      Route(GET, [Param("id")], BuscarPorId),
      Route(POST, [], Criar),
      Route(PUT, [Param("id")], Atualizar),
      Route(PATCH, [Param("id"), Lit("concluir")], Concluir),
      Route(DELETE, [Param("id")], Excluir) ]
  }

  /** An Express router: its routes in registration order. */
  class Router {
    var routes: seq<Route>

    constructor()
      ensures routes == []
    {
      routes := [];
    }

    /** `router.get(path, handler)` and its siblings: append one registration. */
    method Register(m: HttpMethod, pattern: seq<Segment>, handler: Handler)
      modifies this
      ensures routes == old(routes) + [Route(m, pattern, handler)]
    {
      routes := routes + [Route(m, pattern, handler)];
    }
  }

  /** The module body of the routes file: eight registrations on a fresh router. */
  method BuildTarefasRouter() returns (router: Router)
    ensures fresh(router) && router.routes == TarefasRoutes()
  {
    router := new Router();
    router.Register(GET, [Lit("stats")], Estatisticas);
    router.Register(GET, [], ListarTodas);
    router.Register(GET, [Lit("quadrante"), Param("quadrante")], ListarPorQuadrante);
    router.Register(GET, [Param("id")], BuscarPorId);
    router.Register(POST, [], Criar);
    router.Register(PUT, [Param("id")], Atualizar);
    router.Register(PATCH, [Param("id"), Lit("concluir")], Concluir);
    router.Register(DELETE, [Param("id")], Excluir);
  }

  // ---------------------------------------------------------------- what the order decides

  /** `/stats` also fits `/:id`, but is registered first, so it reaches the statistics. */
  lemma StatsShadowsId()
    ensures RouteMatches(TarefasRoutes()[3], GET, ["stats"])
    ensures Dispatch(TarefasRoutes(), GET, ["stats"]) == Some(Match(Estatisticas, map[]))
  {
    var routes := TarefasRoutes();
    assert RouteMatches(routes[0], GET, ["stats"]);
    DispatchAt(routes, GET, ["stats"], 0);
  }

  /** The collection path: GET lists, POST creates. */
  lemma CollectionPath()
    ensures Dispatch(TarefasRoutes(), GET, []) == Some(Match(ListarTodas, map[]))
    ensures Dispatch(TarefasRoutes(), POST, []) == Some(Match(Criar, map[]))
  {
    var routes := TarefasRoutes();
    forall j | 0 <= j < 1 ensures !RouteMatches(routes[j], GET, []) {
      assert j == 0;
    }
    DispatchAt(routes, GET, [], 1);
    forall j | 0 <= j < 4 ensures !RouteMatches(routes[j], POST, []) {
      assert routes[j].verb == GET;
    }
    DispatchAt(routes, POST, [], 4);
  }

  /** Any other single segment is an id, including `quadrante` on its own. */
  lemma {:induction false} SingleSegmentIsId(seg: string)
    requires seg != "" && seg != "stats"
    ensures Dispatch(TarefasRoutes(), GET, [seg]) == Some(Match(BuscarPorId, map["id" := seg]))
    ensures Dispatch(TarefasRoutes(), PUT, [seg]) == Some(Match(Atualizar, map["id" := seg]))
    ensures Dispatch(TarefasRoutes(), DELETE, [seg]) == Some(Match(Excluir, map["id" := seg]))
  {
    var routes := TarefasRoutes();
    assert Bind([Param("id")], [seg]) == map["id" := seg];
    forall j | 0 <= j < 3 ensures !RouteMatches(routes[j], GET, [seg]) {
      if j == 0 {
        assert !SegmentMatches(Lit("stats"), seg);
      }
    }
    DispatchAt(routes, GET, [seg], 3);
    forall j | 0 <= j < 5 ensures !RouteMatches(routes[j], PUT, [seg]) {
      assert routes[j].verb != PUT;
    }
    DispatchAt(routes, PUT, [seg], 5);
    forall j | 0 <= j < 7 ensures !RouteMatches(routes[j], DELETE, [seg]) {
      assert routes[j].verb != DELETE;
    }
    DispatchAt(routes, DELETE, [seg], 7);
  }

  /** `/quadrante/:quadrante` comes before `/:id` and takes the two-segment path. */
  lemma {:induction false} QuadrantePath(q: string)
    requires q != ""
    ensures Dispatch(TarefasRoutes(), GET, ["quadrante", q]) == Some(Match(ListarPorQuadrante, map["quadrante" := q]))
  {
    var routes := TarefasRoutes();
    var pattern := [Lit("quadrante"), Param("quadrante")];
    var params := Bind(pattern, ["quadrante", q]);
    assert pattern[1] !in pattern[2..];
    assert params.Keys == {"quadrante"} by {
      forall name ensures name in params <==> name == "quadrante" {
        assert Param(name) in pattern <==> Param(name) == pattern[1];
      }
    }
    assert params == map["quadrante" := q];
    assert |routes[0].pattern| == 1 && |routes[1].pattern| == 0;
    assert forall j :: 0 <= j < 2 ==> !RouteMatches(routes[j], GET, ["quadrante", q]);
    DispatchAt(routes, GET, ["quadrante", q], 2);
  }

  lemma {:induction false} ConcluirPath(id: string)
    requires id != ""
    ensures Dispatch(TarefasRoutes(), PATCH, [id, "concluir"]) == Some(Match(Concluir, map["id" := id]))
  {
    var routes := TarefasRoutes();
    assert Bind([Param("id"), Lit("concluir")], [id, "concluir"]) == map["id" := id];
    forall j | 0 <= j < 6 ensures !RouteMatches(routes[j], PATCH, [id, "concluir"]) {
      assert routes[j].verb != PATCH;
    }
    DispatchAt(routes, PATCH, [id, "concluir"], 6);
  }

  /** The collection path takes GET and POST only. */
  lemma CollectionRejectsOtherMethods(m: HttpMethod)
    requires m != GET && m != POST
    ensures Dispatch(TarefasRoutes(), m, []) == None
  {
    var routes := TarefasRoutes();
    assert routes[1].verb == GET && routes[4].verb == POST;
    forall j | 0 <= j < |routes| && j != 1 && j != 4 ensures routes[j].pattern != [] {
    }
    assert forall j :: 0 <= j < |routes| ==> !RouteMatches(routes[j], m, []);
  }

  /** No path below the collection takes POST. */
  lemma PostOnlyOnCollection(segs: seq<string>)
    requires segs != []
    ensures Dispatch(TarefasRoutes(), POST, segs) == None
  {
    var routes := TarefasRoutes();
    assert routes[4].pattern == [];
    forall j | 0 <= j < |routes| && j != 4 ensures routes[j].verb != POST {
    }
    assert forall j :: 0 <= j < |routes| ==> !RouteMatches(routes[j], POST, segs);
  }
}
