/**
 * The dashboard's top-level state: the four quadrant lists, the statistics,
 * the per-quadrant filters, the two dialogs, the task selected for deletion
 * and the toast. Each handler is a method; where a handler awaits a request,
 * the request's settled outcome is a parameter, or the handler is split at
 * the await when state set before it is visible while it waits.
 */
module AppState {
  import opened TarefaTypes
  import opened Routes
  import opened Api

  datatype ToastKind = Success | Failure

  datatype Toast = Toast(message: string, kind: ToastKind)

  const Quadrants: set<int> := {1, 2, 3, 4}

  /** `Array.prototype.find` by id. */
  function FindById(ts: seq<Tarefa>, id: int): Option<Tarefa> {
    if ts == [] then None
    else if ts[0].id == id then Some(ts[0])
    else FindById(ts[1..], id)
  }

  /** The first task with the id in quadrants `from`..4, looked up in that order. */
  function FindFrom(tarefas: map<int, seq<Tarefa>>, id: int, from: int): Option<Tarefa>
    requires Quadrants <= tarefas.Keys && 1 <= from <= 5
    decreases 5 - from
  {
    if from == 5 then None
    else
      var found := FindById(tarefas[from], id);
      if found.Some? then found else FindFrom(tarefas, id, from + 1)
  }

  /** The task the confirmation dialog names: none without a (non-zero) id, else the first match. */
  function TarefaExcluindo(tarefas: map<int, seq<Tarefa>>, target: Option<int>): Option<Tarefa>
    requires Quadrants <= tarefas.Keys
  {
    if target.None? || target.value == 0 then None else FindFrom(tarefas, target.value, 1)
  }

  /**
   * `find` yields the first task of the list with the id: it yields a task with
   * the id, the task at the first index holding the id, and nothing only when
   * no task has the id.
   */
  lemma {:induction false} FindByIdMeaning(ts: seq<Tarefa>, id: int)
    ensures FindById(ts, id).Some? ==> FindById(ts, id).value in ts && FindById(ts, id).value.id == id
    ensures FindById(ts, id).None? <==> forall x :: x in ts ==> x.id != id
    ensures forall i :: 0 <= i < |ts| && ts[i].id == id && (forall j :: 0 <= j < i ==> ts[j].id != id) ==>
              FindById(ts, id) == Some(ts[i])
  {
    if ts != [] && ts[0].id != id {
      FindByIdMeaning(ts[1..], id);
      assert forall x :: x in ts <==> x == ts[0] || x in ts[1..];
      forall i | 0 < i < |ts| && ts[i].id == id && (forall j :: 0 <= j < i ==> ts[j].id != id)
        ensures FindById(ts, id) == Some(ts[i])
      {
        assert ts[1..][i - 1] == ts[i];
        assert forall j :: 0 <= j < i - 1 ==> ts[1..][j].id != id by {
          forall j | 0 <= j < i - 1 ensures ts[1..][j].id != id {
            assert ts[1..][j] == ts[j + 1];
          }
        }
      }
    }
  }

  /** Some task of quadrant `q` has the id. */
  predicate HoldsId(tarefas: map<int, seq<Tarefa>>, q: int, id: int)
    requires q in tarefas
  {
    exists x :: x in tarefas[q] && x.id == id
  }

  /** The scan from quadrant `from` on finds a task with the id exactly when one of those quadrants holds one. */
  lemma {:induction false} FindFromMeaning(tarefas: map<int, seq<Tarefa>>, id: int, from: int)
    requires Quadrants <= tarefas.Keys && 1 <= from <= 5
    ensures var r := FindFrom(tarefas, id, from);
            r.Some? ==> r.value.id == id && exists q :: from <= q <= 4 && r.value in tarefas[q]
    ensures FindFrom(tarefas, id, from).None? <==> forall q, x :: from <= q <= 4 && x in tarefas[q] ==> x.id != id
    decreases 5 - from
  {
    if from < 5 {
      var found := FindById(tarefas[from], id);
      FindByIdMeaning(tarefas[from], id);
      if found.Some? {
        assert found.value in tarefas[from];
      } else {
        FindFromMeaning(tarefas, id, from + 1);
        if FindFrom(tarefas, id, from + 1).None? {
          forall q, x | from <= q <= 4 && x in tarefas[q] ensures x.id != id {
            if q == from {
              assert x in tarefas[from];
            }
          }
        }
      }
    }
  }

  /** The scan from quadrant `from` on yields what `find` yields in the earliest quadrant `q` holding the id. */
  lemma {:induction false} FindFromEarliest(tarefas: map<int, seq<Tarefa>>, id: int, from: int, q: int)
    requires Quadrants <= tarefas.Keys && 1 <= from <= q <= 4
    requires HoldsId(tarefas, q, id) && forall p :: from <= p < q ==> !HoldsId(tarefas, p, id)
    ensures FindFrom(tarefas, id, from) == FindById(tarefas[q], id)
    decreases q - from
  {
    FindByIdMeaning(tarefas[from], id);
    if from < q {
      assert !HoldsId(tarefas, from, id);
      FindFromEarliest(tarefas, id, from + 1, q);
    }
  }

  /** The dialog names a task with the id from one of the quadrants, and names none only when no quadrant holds one. */
  lemma TarefaExcluindoMeaning(tarefas: map<int, seq<Tarefa>>, target: Option<int>)
    requires Quadrants <= tarefas.Keys
    ensures target.None? || target.value == 0 ==> TarefaExcluindo(tarefas, target).None?
    ensures var r := TarefaExcluindo(tarefas, target);
            r.Some? ==> target.Some? && r.value.id == target.value && exists q :: 1 <= q <= 4 && r.value in tarefas[q]
    ensures target.Some? && target.value != 0 && TarefaExcluindo(tarefas, target).None? ==>
              forall q, x :: 1 <= q <= 4 && x in tarefas[q] ==> x.id != target.value
  {
    if target.Some? && target.value != 0 {
      FindFromMeaning(tarefas, target.value, 1);
    }
  }

  /**
   * For a non-zero id, the dialog names the first task with the id in the earliest
   * quadrant `q` that holds one: quadrants are searched in order, each front to back.
   */
  lemma TarefaExcluindoEarliest(tarefas: map<int, seq<Tarefa>>, id: int, q: int, i: int)
    requires Quadrants <= tarefas.Keys && id != 0 && 1 <= q <= 4
    requires forall p :: 1 <= p < q ==> !HoldsId(tarefas, p, id)
    requires 0 <= i < |tarefas[q]| && tarefas[q][i].id == id && forall j :: 0 <= j < i ==> tarefas[q][j].id != id
    ensures TarefaExcluindo(tarefas, Some(id)) == Some(tarefas[q][i])
  {
    assert HoldsId(tarefas, q, id) by {
      assert tarefas[q][i] in tarefas[q];
    }
    FindFromEarliest(tarefas, id, 1, q);
    FindByIdMeaning(tarefas[q], id);
  }

  class Dashboard {
    var tarefas: map<int, seq<Tarefa>>
    var stats: Option<Stats>
    var loading: bool
    var statsLoading: bool
    var filtros: map<int, string>
    var modalTarefaOpen: bool
    var tarefaEditando: Option<Tarefa>
    var modalConfirmOpen: bool
    var tarefaExcluindo: Option<int>
    var excluindoLoading: bool
    var toast: Option<Toast>

    /** The lists have exactly the four quadrant keys; the filters have at least those. */
    ghost predicate Valid()
      reads this
    {
      tarefas.Keys == Quadrants && Quadrants <= filtros.Keys
    }

    constructor()
      ensures Valid()
      ensures tarefas == map[1 := [], 2 := [], 3 := [], 4 := []]
      ensures filtros == map[1 := "", 2 := "", 3 := "", 4 := ""]
      ensures stats.None? && loading && statsLoading
      ensures !modalTarefaOpen && tarefaEditando.None?
      ensures !modalConfirmOpen && tarefaExcluindo.None? && !excluindoLoading
      ensures toast.None?
    {
      tarefas := map[1 := [], 2 := [], 3 := [], 4 := []];
      stats := None;
      loading := true;
      statsLoading := true;
      filtros := map[1 := "", 2 := "", 3 := "", 4 := ""];
      modalTarefaOpen := false;
      tarefaEditando := None;
      modalConfirmOpen := false;
      tarefaExcluindo := None;
      excluindoLoading := false;
      toast := None;
    }

    /**
     * The four quadrant listings, awaited together: `requests[k - 1]` asks for
     * quadrant `k` and `qk` is its settled answer. All four answers replace the
     * lists, each under its own quadrant; any failure leaves the lists alone and
     * shows an error toast. Loading ends either way.
     */
    method CarregarTarefas(q1: Outcome<seq<Tarefa>>, q2: Outcome<seq<Tarefa>>,
                           q3: Outcome<seq<Tarefa>>, q4: Outcome<seq<Tarefa>>) returns (requests: seq<Request>)
      requires Valid()
      modifies this
      ensures requests == [ListarPorQuadranteRequest(1, None), ListarPorQuadranteRequest(2, None),
                           ListarPorQuadranteRequest(3, None), ListarPorQuadranteRequest(4, None)]
      ensures Valid() && !loading
      ensures q1.Resolved? && q2.Resolved? && q3.Resolved? && q4.Resolved? ==>
                tarefas == map[1 := q1.value, 2 := q2.value, 3 := q3.value, 4 := q4.value] && toast == old(toast)
      ensures !(q1.Resolved? && q2.Resolved? && q3.Resolved? && q4.Resolved?) ==>
                tarefas == old(tarefas) && toast == Some(Toast("Erro ao carregar tarefas", Failure))
      ensures filtros == old(filtros) && stats == old(stats) && statsLoading == old(statsLoading)
      ensures modalTarefaOpen == old(modalTarefaOpen) && tarefaEditando == old(tarefaEditando)
      ensures modalConfirmOpen == old(modalConfirmOpen) && tarefaExcluindo == old(tarefaExcluindo)
      ensures excluindoLoading == old(excluindoLoading)
    {
      requests := [ListarPorQuadranteRequest(1, None), ListarPorQuadranteRequest(2, None),
                   ListarPorQuadranteRequest(3, None), ListarPorQuadranteRequest(4, None)];
      if q1.Resolved? && q2.Resolved? && q3.Resolved? && q4.Resolved? {
        tarefas := map[1 := q1.value, 2 := q2.value, 3 := q3.value, 4 := q4.value];
      } else {
        toast := Some(Toast("Erro ao carregar tarefas", Failure));
      }
      loading := false;
    }

    /** The statistics request and its settled answer: a success replaces them, a failure is only logged. */
    method CarregarStats(outcome: Outcome<Stats>) returns (request: Request)
      modifies this
      ensures request == EstatisticasRequest()
      ensures stats == (if outcome.Resolved? then Some(outcome.value) else old(stats))
      ensures !statsLoading
      ensures tarefas == old(tarefas) && loading == old(loading) && filtros == old(filtros) && toast == old(toast)
      ensures modalTarefaOpen == old(modalTarefaOpen) && tarefaEditando == old(tarefaEditando)
      ensures modalConfirmOpen == old(modalConfirmOpen) && tarefaExcluindo == old(tarefaExcluindo)
      ensures excluindoLoading == old(excluindoLoading)
    {
      request := EstatisticasRequest();
      if outcome.Resolved? {
        stats := Some(outcome.value);
      }
      statsLoading := false;
    }

    /** Completing a task: a toast either way; on success both reloads are started. */
    method HandleConcluir(id: int, outcome: Outcome<Tarefa>) returns (request: Request, reload: bool)
      modifies this
      ensures request == ConcluirRequest(id)
      ensures reload <==> outcome.Resolved?
      ensures toast == Some(if outcome.Resolved? then Toast("Tarefa concluída com sucesso!", Success)
                            else Toast("Erro ao concluir tarefa", Failure))
      ensures tarefas == old(tarefas) && stats == old(stats) && filtros == old(filtros)
      ensures loading == old(loading) && statsLoading == old(statsLoading)
      ensures modalTarefaOpen == old(modalTarefaOpen) && tarefaEditando == old(tarefaEditando)
      ensures modalConfirmOpen == old(modalConfirmOpen) && tarefaExcluindo == old(tarefaExcluindo)
      ensures excluindoLoading == old(excluindoLoading)
    {
      request := ConcluirRequest(id);
      if outcome.Resolved? {
        toast := Some(Toast("Tarefa concluída com sucesso!", Success));
        reload := true;
      } else {
        toast := Some(Toast("Erro ao concluir tarefa", Failure));
        reload := false;
      }
    }

    /** Asking to delete: remember the id and open the confirmation dialog. */
    method HandleExcluir(id: int)
      modifies this
      ensures tarefaExcluindo == Some(id) && modalConfirmOpen
      ensures tarefas == old(tarefas) && stats == old(stats) && filtros == old(filtros) && toast == old(toast)
      ensures loading == old(loading) && statsLoading == old(statsLoading)
      ensures modalTarefaOpen == old(modalTarefaOpen) && tarefaEditando == old(tarefaEditando)
      ensures excluindoLoading == old(excluindoLoading)
    {
      tarefaExcluindo := Some(id);
      modalConfirmOpen := true;
    }

    /**
     * Confirming the deletion, up to the awaited request: nothing happens without a
     * (non-zero) id; otherwise the dialog starts loading and the delete is sent.
     */
    method BeginConfirmarExclusao() returns (request: Option<Request>)
      modifies this
      ensures tarefaExcluindo.None? || tarefaExcluindo.value == 0 ==>
                request.None? && excluindoLoading == old(excluindoLoading)
      ensures tarefaExcluindo.Some? && tarefaExcluindo.value != 0 ==>
                request == Some(ExcluirRequest(tarefaExcluindo.value)) && excluindoLoading
      ensures tarefaExcluindo == old(tarefaExcluindo) && modalConfirmOpen == old(modalConfirmOpen)
      ensures tarefas == old(tarefas) && stats == old(stats) && filtros == old(filtros) && toast == old(toast)
      ensures loading == old(loading) && statsLoading == old(statsLoading)
      ensures modalTarefaOpen == old(modalTarefaOpen) && tarefaEditando == old(tarefaEditando)
    {
      if tarefaExcluindo.None? || tarefaExcluindo.value == 0 {
        return None;
      }
      excluindoLoading := true;
      request := Some(ExcluirRequest(tarefaExcluindo.value));
    }

    /**
     * Confirming the deletion, after the request settles: success closes the dialog,
     * forgets the id and starts both reloads; failure keeps the dialog open. A toast
     * either way; loading ends either way.
     */
    method FinishConfirmarExclusao(outcome: Outcome<()>) returns (reload: bool)
      modifies this
      ensures reload <==> outcome.Resolved?
      ensures outcome.Resolved? ==> toast == Some(Toast("Tarefa excluída com sucesso!", Success))
                                    && !modalConfirmOpen && tarefaExcluindo.None?
      ensures outcome.Rejected? ==> toast == Some(Toast("Erro ao excluir tarefa", Failure))
                                    && modalConfirmOpen == old(modalConfirmOpen) && tarefaExcluindo == old(tarefaExcluindo)
      ensures !excluindoLoading
      ensures tarefas == old(tarefas) && stats == old(stats) && filtros == old(filtros)
      ensures loading == old(loading) && statsLoading == old(statsLoading)
      ensures modalTarefaOpen == old(modalTarefaOpen) && tarefaEditando == old(tarefaEditando)
    {
      if outcome.Resolved? {
        toast := Some(Toast("Tarefa excluída com sucesso!", Success));
        modalConfirmOpen := false;
        tarefaExcluindo := None;
        reload := true;
      } else {
        toast := Some(Toast("Erro ao excluir tarefa", Failure));
        reload := false;
      }
      excluindoLoading := false;
    }

    /** Opening the form on an existing task. */
    method HandleEditar(t: Tarefa)
      modifies this
      ensures tarefaEditando == Some(t) && modalTarefaOpen
      ensures tarefas == old(tarefas) && stats == old(stats) && filtros == old(filtros) && toast == old(toast)
      ensures loading == old(loading) && statsLoading == old(statsLoading)
      ensures modalConfirmOpen == old(modalConfirmOpen) && tarefaExcluindo == old(tarefaExcluindo)
      ensures excluindoLoading == old(excluindoLoading)
    {
      tarefaEditando := Some(t);
      modalTarefaOpen := true;
    }

    /** Opening the form on a new task. */
    method HandleNovaTarefa()
      modifies this
      ensures tarefaEditando.None? && modalTarefaOpen
      ensures tarefas == old(tarefas) && stats == old(stats) && filtros == old(filtros) && toast == old(toast)
      ensures loading == old(loading) && statsLoading == old(statsLoading)
      ensures modalConfirmOpen == old(modalConfirmOpen) && tarefaExcluindo == old(tarefaExcluindo)
      ensures excluindoLoading == old(excluindoLoading)
    {
      tarefaEditando := None;
      modalTarefaOpen := true;
    }

    /** Closing the form dialog also forgets the task being edited. */
    method CloseModalTarefa()
      modifies this
      ensures !modalTarefaOpen && tarefaEditando.None?
      ensures tarefas == old(tarefas) && stats == old(stats) && filtros == old(filtros) && toast == old(toast)
      ensures loading == old(loading) && statsLoading == old(statsLoading)
      ensures modalConfirmOpen == old(modalConfirmOpen) && tarefaExcluindo == old(tarefaExcluindo)
      ensures excluindoLoading == old(excluindoLoading)
    {
      modalTarefaOpen := false;
      tarefaEditando := None;
    }

    /**
     * The form's save callback: an update of the task being edited, or a create.
     * On success a toast, and `reload` asks for both reloads; a failure is
     * rethrown to the form with nothing changed here and no reload.
     */
    method HandleSalvarTarefa(data: TarefaFormData, outcome: Outcome<Tarefa>)
      returns (request: Request, thrown: Option<string>, reload: bool)
      modifies this
      ensures reload <==> outcome.Resolved?
      ensures tarefaEditando.Some? ==> request == AtualizarRequest(tarefaEditando.value.id, data)
      ensures tarefaEditando.None? ==> request == CriarRequest(data)
      ensures outcome.Rejected? ==> thrown == Some(outcome.message) && toast == old(toast)
      ensures outcome.Resolved? ==> thrown.None? && toast == Some(Toast(
                if tarefaEditando.Some? then "Tarefa atualizada com sucesso!" else "Tarefa criada com sucesso!", Success))
      ensures tarefaEditando == old(tarefaEditando) && modalTarefaOpen == old(modalTarefaOpen)
      ensures tarefas == old(tarefas) && stats == old(stats) && filtros == old(filtros)
      ensures loading == old(loading) && statsLoading == old(statsLoading)
      ensures modalConfirmOpen == old(modalConfirmOpen) && tarefaExcluindo == old(tarefaExcluindo)
      ensures excluindoLoading == old(excluindoLoading)
    {
      if tarefaEditando.Some? {
        request := AtualizarRequest(tarefaEditando.value.id, data);
      } else {
        request := CriarRequest(data);
      }
      if outcome.Rejected? {
        return request, Some(outcome.message), false;
      }
      thrown := None;
      reload := true;
      if tarefaEditando.Some? {
        toast := Some(Toast("Tarefa atualizada com sucesso!", Success));
      } else {
        toast := Some(Toast("Tarefa criada com sucesso!", Success));
      }
    }

    /** Selecting a column's status filter changes that column's filter only. */
    method HandleFiltroChange(quadrante: int, status: string)
      requires Valid()
      modifies this
      ensures Valid()
      ensures filtros == old(filtros)[quadrante := status]
      ensures forall q :: q in old(filtros) && q != quadrante ==> filtros[q] == old(filtros)[q]
      ensures tarefas == old(tarefas) && stats == old(stats) && toast == old(toast)
      ensures loading == old(loading) && statsLoading == old(statsLoading)
      ensures modalTarefaOpen == old(modalTarefaOpen) && tarefaEditando == old(tarefaEditando)
      ensures modalConfirmOpen == old(modalConfirmOpen) && tarefaExcluindo == old(tarefaExcluindo)
      ensures excluindoLoading == old(excluindoLoading)
    {
      filtros := filtros[quadrante := status];
    }

    /**
     * The task named in the confirmation dialog: the quadrants are scanned in key
     * order (the order `Object.values` gives integer keys), each front to back.
     */
    method GetTarefaExcluindo() returns (r: Option<Tarefa>)
      requires Valid()
      ensures r == TarefaExcluindo(tarefas, tarefaExcluindo)
    {
      if tarefaExcluindo.None? || tarefaExcluindo.value == 0 {
        return None;
      }
      var id := tarefaExcluindo.value;
      var q := 1;
      while q <= 4
        invariant 1 <= q <= 5
        invariant FindFrom(tarefas, id, 1) == FindFrom(tarefas, id, q)
        decreases 5 - q
      {
        var list := tarefas[q];
        var i := 0;
        while i < |list|
          invariant 0 <= i <= |list|
          invariant FindById(list, id) == FindById(list[i..], id)
          decreases |list| - i
        {
          if list[i].id == id {
            assert list[i..][0] == list[i];
            assert FindById(list, id) == Some(list[i]);
            assert FindFrom(tarefas, id, q) == Some(list[i]);
            return Some(list[i]);
          }
          assert list[i..][1..] == list[i + 1..];
          i := i + 1;
        }
        assert list[i..] == [];
        assert FindFrom(tarefas, id, q) == FindFrom(tarefas, id, q + 1);
        q := q + 1;
      }
      return None;
    }
  }
}
