/**
 * The browser's API client: the request each call sends (method, URL, JSON
 * body) and how a response becomes a value or a thrown error. Requests are
 * values here; sending them is the caller's business.
 */
module Api {
  import opened TarefaTypes
  import opened Text
  import opened TarefasController
  import opened Routes

  const ApiUrl := "/api"

  /** A request as `fetch` sends it. */
  datatype Request = Request(verb: HttpMethod, url: string, body: Option<TarefaFormData>)

  /** `?status=...` when a non-empty status is passed, nothing otherwise. */
  function StatusQuery(status: Option<string>): (q: string)
    ensures q == "" <==> !Given(status)
    ensures Given(status) ==> q == "?status=" + status.value
  {
    if Given(status) then "?status=" + status.value else ""
  }

  /** GET /api/tarefas, with the status filter as a query when one is given. */
  function ListarTodasRequest(status: Option<string>): (r: Request)
    ensures r.verb == GET && r.body.None?
    ensures r.url == "/api/tarefas" + StatusQuery(status)
  {
    Request(GET, ApiUrl + "/tarefas" + StatusQuery(status), None)
  }

  /** GET /api/tarefas/quadrante/:quadrante, with the status filter as a query when one is given. */
  function ListarPorQuadranteRequest(quadrante: int, status: Option<string>): (r: Request)
    ensures r.verb == GET && r.body.None?
    ensures r.url == "/api/tarefas/quadrante/" + IntToString(quadrante) + StatusQuery(status)
  {
    var prefix := ApiUrl + "/tarefas/quadrante/";
    assert prefix == "/api/tarefas/quadrante/";
    Request(GET, prefix + IntToString(quadrante) + StatusQuery(status), None)
  }

  /** GET /api/tarefas/:id. */
  function BuscarPorIdRequest(id: int): (r: Request)
    ensures r.verb == GET && r.body.None?
    ensures r.url == "/api/tarefas/" + IntToString(id)
  {
    Request(GET, ApiUrl + "/tarefas/" + IntToString(id), None)
  }

  /** POST /api/tarefas with the form as the JSON body. */
  function CriarRequest(data: TarefaFormData): (r: Request)
    ensures r.verb == POST && r.body == Some(data)
    ensures r.url == "/api/tarefas"
  {
    Request(POST, ApiUrl + "/tarefas", Some(data))
  }

  /** PUT /api/tarefas/:id with the form as the JSON body. */
  function AtualizarRequest(id: int, data: TarefaFormData): (r: Request)
    ensures r.verb == PUT && r.body == Some(data)
    ensures r.url == "/api/tarefas/" + IntToString(id)
  {
    Request(PUT, ApiUrl + "/tarefas/" + IntToString(id), Some(data))
  }

  /** PATCH /api/tarefas/:id/concluir, without a body. */
  function ConcluirRequest(id: int): (r: Request)
    ensures r.verb == PATCH && r.body.None?
    ensures r.url == "/api/tarefas/" + IntToString(id) + "/concluir"
  {
    Request(PATCH, ApiUrl + "/tarefas/" + IntToString(id) + "/concluir", None)
  }

  /** DELETE /api/tarefas/:id. */
  function ExcluirRequest(id: int): (r: Request)
    ensures r.verb == DELETE && r.body.None?
    ensures r.url == "/api/tarefas/" + IntToString(id)
  {
    Request(DELETE, ApiUrl + "/tarefas/" + IntToString(id), None)
  }

  /** GET /api/tarefas/stats. */
  function EstatisticasRequest(): (r: Request)
    ensures r.verb == GET && r.body.None?
    ensures r.url == "/api/tarefas/stats"
  {
    Request(GET, ApiUrl + "/tarefas/stats", None)
  }

  // ---------------------------------------------------------------- what the server reads

  /** The body the create handler destructures from the form's JSON: no reminder, no origin. */
  function CreateBodyOf(data: TarefaFormData): (b: CreateBody)
    ensures b.titulo == Some(data.titulo) && b.urgente == data.urgente && b.importante == data.importante
    ensures b.descricao == Some(data.descricao) && b.justificativa == Some(data.justificativa)
    ensures b.responsavel == Some(data.responsavel)
    ensures b.dataLembrete.None? && b.origem.None?
  {
    CreateBody(Some(data.titulo), Some(data.descricao), data.urgente, data.importante,
               Some(data.justificativa), Some(data.responsavel), None, None)
  }

  /** The body the update handler destructures from the form's JSON: both flags, no status, no reminder. */
  function UpdateBodyOf(data: TarefaFormData): (b: UpdateBody)
    ensures b.titulo == Some(data.titulo) && b.descricao == Some(data.descricao)
    ensures b.urgente == Some(data.urgente) && b.importante == Some(data.importante)
    ensures b.justificativa == Some(data.justificativa) && b.responsavel == Some(data.responsavel)
    ensures b.status.None? && b.dataLembrete.None?
  {
    UpdateBody(Some(data.titulo), Some(data.descricao), Some(data.urgente), Some(data.importante),
               Some(data.justificativa), Some(data.responsavel), None, None)
  }

  // ---------------------------------------------------------------- responses

  /** The body of a failed response: unparsable, or JSON whose `error` field may be missing or empty. */
  datatype ErrorBody = Unparsable | Json(error: Option<string>)

  /** The settled value of a call: resolved with a value, or rejected with an Error's message. */
  datatype Outcome<T> = Resolved(value: T) | Rejected(message: string)

  /** `error.error || 'Erro na requisição'`, where an unparsable body reads as `{ error: 'Erro desconhecido' }`. */
  function FailureMessage(body: ErrorBody): (message: string)
    ensures message != ""
    ensures body.Json? && Given(body.error) ==> message == body.error.value
    ensures body.Json? && !Given(body.error) ==> message == "Erro na requisição"
    ensures body.Unparsable? ==> message == "Erro desconhecido"
  {
    match body
    case Unparsable => "Erro desconhecido"
    case Json(error) => if Given(error) then error.value else "Erro na requisição"
  }

  /** handleResponse: a 2xx response resolves with its parsed body; any other rejects. */
  function HandleResponse<T>(ok: bool, value: T, failure: ErrorBody): (r: Outcome<T>)
    ensures r.Resolved? <==> ok
    ensures r.Resolved? ==> r.value == value
    ensures r.Rejected? ==> r.message == FailureMessage(failure) && r.message != ""
  {
    if ok then Resolved(value) else Rejected(FailureMessage(failure))
  }

  /**
   * What the client makes of a controller's reply: a success is sent as JSON
   * with a 2xx code, a failure as `{ error: message }` with a 4xx or 5xx code.
   */
  function Receive<T>(reply: Reply<T>): (r: Outcome<T>)
    ensures r.Resolved? <==> reply.Ok?
    ensures reply.Ok? ==> r.value == reply.value
    ensures reply.Error? ==> r.message == (if reply.message != "" then reply.message else "Erro na requisição")
  {
    match reply
    case Ok(_, value) => HandleResponse(true, value, Json(None))
    case Error(_, message) => Rejected(FailureMessage(Json(Some(message))))
  }

  /** A controller error reaches the caller as an Error carrying the controller's own message. */
  lemma ControllerErrorsReachCaller<T>(reply: Reply<T>)
    requires reply.Error? && reply.message != ""
    ensures Receive(reply) == Rejected(reply.message)
  {
  }

  // ---------------------------------------------------------------- every call reaches its handler

  lemma {:induction false} IntTextIsSegment(n: int)
    ensures '/' !in IntToString(n) && '?' !in IntToString(n)
    ensures IntToString(n) != "" && IntToString(n) != "stats"
  {
    assert "stats"[0] == 's';
  }

  /** The path below the mount point of a URL that starts with the mount path and a '/'. */
  lemma {:induction false} UnmountBelow(rest: string, query: string)
    requires '?' !in rest
    requires query == "" || query[0] == '?'
    ensures Unmount(BeforeQuery(MountPath + "/" + rest + query)) == Some("/" + rest)
  {
    if query == "" {
      BeforeQueryOf(MountPath + "/" + rest, "");
      assert MountPath + "/" + rest + query == MountPath + "/" + rest;
    } else {
      BeforeQueryOf(MountPath + "/" + rest, query[1..]);
      assert MountPath + "/" + rest + query == MountPath + "/" + rest + "?" + query[1..];
    }
    var path := MountPath + "/" + rest;
    assert path[..|MountPath|] == MountPath;
    assert path[|MountPath|..] == "/" + rest;
  }

  /** A URL below the mount point resolves as the segments of its path. */
  lemma ResolveBelow(m: HttpMethod, rest: string, query: string, segs: seq<string>)
    requires '?' !in rest && (query == "" || query[0] == '?')
    requires PathSegments("/" + rest) == segs
    ensures Resolve(TarefasRoutes(), m, MountPath + "/" + rest + query) == Dispatch(TarefasRoutes(), m, segs)
  {
    UnmountBelow(rest, query);
  }

  /** The collection URL, with or without a query string, resolves as the empty path. */
  lemma ResolveCollection(m: HttpMethod, query: string)
    requires query == "" || query[0] == '?'
    ensures Resolve(TarefasRoutes(), m, MountPath + query) == Dispatch(TarefasRoutes(), m, [])
  {
    if query == "" {
      assert MountPath + query == MountPath;
      BeforeQueryOf(MountPath, "");
    } else {
      assert MountPath + query == MountPath + "?" + query[1..];
      BeforeQueryOf(MountPath, query[1..]);
    }
    assert Unmount(MountPath) == Some("/");
    assert PathSegments("/") == [];
  }

  lemma ListarTodasReachesHandler(status: Option<string>)
    ensures Resolve(TarefasRoutes(), GET, ListarTodasRequest(status).url) == Some(Match(ListarTodas, map[]))
  {
    assert ListarTodasRequest(status).url == MountPath + StatusQuery(status);
    ResolveCollection(GET, StatusQuery(status));
    CollectionPath();
  }

  lemma ListarPorQuadranteReachesHandler(quadrante: int, status: Option<string>)
    ensures Resolve(TarefasRoutes(), GET, ListarPorQuadranteRequest(quadrante, status).url)
              == Some(Match(ListarPorQuadrante, map["quadrante" := IntToString(quadrante)]))
  {
    var q := IntToString(quadrante);
    IntTextIsSegment(quadrante);
    var rest := "quadrante" + "/" + q;
    QuadranteUrl(q, StatusQuery(status));
    SegmentsOfTwo("quadrante", q);
    ResolveBelow(GET, rest, StatusQuery(status), ["quadrante", q]);
    QuadrantePath(q);
  }

  /** The quadrant listing's URL, read as the mount path and the path below it. */
  lemma {:induction false} QuadranteUrl(q: string, query: string)
    ensures ApiUrl + "/tarefas/quadrante/" + q + query == MountPath + "/" + ("quadrante" + "/" + q) + query
  {
    assert ApiUrl + "/tarefas/quadrante/" == MountPath + "/" + "quadrante" + "/";
  }

  lemma BuscarPorIdReachesHandler(id: int)
    ensures Resolve(TarefasRoutes(), GET, BuscarPorIdRequest(id).url) == Some(Match(BuscarPorId, map["id" := IntToString(id)]))
  {
    var s := IntToString(id);
    IntTextIsSegment(id);
    assert BuscarPorIdRequest(id).url == MountPath + "/" + s + "";
    SegmentsOfOne(s);
    ResolveBelow(GET, s, "", [s]);
    SingleSegmentIsId(s);
  }

  lemma AtualizarReachesHandler(id: int, data: TarefaFormData)
    ensures Resolve(TarefasRoutes(), PUT, AtualizarRequest(id, data).url) == Some(Match(Atualizar, map["id" := IntToString(id)]))
  {
    var s := IntToString(id);
    IntTextIsSegment(id);
    assert AtualizarRequest(id, data).url == MountPath + "/" + s + "";
    SegmentsOfOne(s);
    ResolveBelow(PUT, s, "", [s]);
    SingleSegmentIsId(s);
  }

  lemma ExcluirReachesHandler(id: int)
    ensures Resolve(TarefasRoutes(), DELETE, ExcluirRequest(id).url) == Some(Match(Excluir, map["id" := IntToString(id)]))
  {
    var s := IntToString(id);
    IntTextIsSegment(id);
    assert ExcluirRequest(id).url == MountPath + "/" + s + "";
    SegmentsOfOne(s);
    ResolveBelow(DELETE, s, "", [s]);
    SingleSegmentIsId(s);
  }

  lemma ConcluirReachesHandler(id: int)
    ensures Resolve(TarefasRoutes(), PATCH, ConcluirRequest(id).url) == Some(Match(Concluir, map["id" := IntToString(id)]))
  {
    var s := IntToString(id);
    IntTextIsSegment(id);
    var rest := s + "/" + "concluir";
    assert '?' !in rest;
    assert ConcluirRequest(id).url == MountPath + "/" + rest + "";
    SegmentsOfTwo(s, "concluir");
    ResolveBelow(PATCH, rest, "", [s, "concluir"]);
    ConcluirPath(s);
  }

  lemma CriarReachesHandler(data: TarefaFormData)
    ensures Resolve(TarefasRoutes(), POST, CriarRequest(data).url) == Some(Match(Criar, map[]))
  {
    assert CriarRequest(data).url == MountPath + "";
    ResolveCollection(POST, "");
    CollectionPath();
  }

  lemma EstatisticasReachesHandler()
    ensures Resolve(TarefasRoutes(), GET, EstatisticasRequest().url) == Some(Match(Estatisticas, map[]))
  {
    assert EstatisticasRequest().url == MountPath + "/" + "stats" + "";
    SegmentsOfOne("stats");
    ResolveBelow(GET, "stats", "", ["stats"]);
    StatsShadowsId();
  }

  lemma {:induction false} SegmentsOfOne(a: string)
    requires a != "" && '/' !in a
    ensures PathSegments("/" + a) == [a]
  {
    assert ("/" + a)[1..] == a;
    SplitWithoutSeparator(a, '/');
  }

  lemma {:induction false} SegmentsOfTwo(a: string, b: string)
    requires a != "" && b != "" && '/' !in a && '/' !in b
    ensures PathSegments("/" + (a + "/" + b)) == [a, b]
  {
    assert ("/" + (a + "/" + b))[1..] == a + ['/'] + b;
    SplitAtFirst(a, '/', b);
    SplitWithoutSeparator(b, '/');
  }
}
