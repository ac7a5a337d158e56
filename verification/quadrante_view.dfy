/**
 * What one quadrant column derives from its task list: the list shown under
 * the selected status filter, the badge counting open tasks, and the filter
 * options offered.
 */
module QuadranteView {
  import opened TarefaTypes
  import opened Lists

  /** The filter buttons: all, pending, in progress, concluded; there is none for cancelled. */
  const FiltroOpcoes: seq<string> := ["", "pendente", "em_progresso", "concluida"]

  function HasStatus(filtro: string): Tarefa -> bool {
    (t: Tarefa) => StatusName(t.status) == filtro
  }

  function IsOpenTask(): Tarefa -> bool {
    (t: Tarefa) => IsOpen(t.status)
  }

  /** The tasks shown: all of them under the empty filter, else those whose status is the filter. */
  function TarefasFiltradas(tarefas: seq<Tarefa>, filtroStatus: string): (r: seq<Tarefa>)
    ensures filtroStatus == "" ==> r == tarefas
    ensures filtroStatus != "" ==> forall x :: x in r <==> x in tarefas && StatusName(x.status) == filtroStatus
    ensures IsSubsequence(r, tarefas)
  {
    if filtroStatus == "" then
      FilterAll(tarefas, (t: Tarefa) => true);
      FilterIsSubsequence(tarefas, (t: Tarefa) => true);
      tarefas
    else
      FilterIsSubsequence(tarefas, HasStatus(filtroStatus));
      Filter(tarefas, HasStatus(filtroStatus))
  }

  /** The badge: how many of the column's tasks are neither concluded nor cancelled, whatever the filter. */
  function PendentesCount(tarefas: seq<Tarefa>): (n: nat)
    ensures n == |Filter(tarefas, IsOpenTask())|
    ensures n <= |tarefas|
    ensures n == 0 <==> forall x :: x in tarefas ==> !IsOpen(x.status)
    ensures n == |tarefas| <==> forall x :: x in tarefas ==> IsOpen(x.status)
  {
    var open := Filter(tarefas, IsOpenTask());
    FilterFull(tarefas, IsOpenTask());
    assert |open| > 0 ==> open[0] in open;
    |open|
  }

  /** A filter keeps every element exactly when its result is as long as its input. */
  lemma {:induction false} FilterFull<T>(s: seq<T>, p: T -> bool)
    ensures |Filter(s, p)| == |s| <==> forall x :: x in s ==> p(x)
  {
    if s != [] {
      FilterFull(s[1..], p);
      assert forall x :: x in s <==> x == s[0] || x in s[1..];
    }
  }

  /** Every non-empty option is the name of a status; a cancelled task shows only under "all". */
  lemma FiltroOpcoesAreStatuses()
    ensures FiltroOpcoes[0] == ""
    ensures forall i :: 1 <= i < |FiltroOpcoes| ==> ParseStatus(FiltroOpcoes[i]).Some?
    ensures StatusName(Cancelada) !in FiltroOpcoes
  {
  }

  /** The column's open tasks and its closed tasks add up to all of them. */
  lemma {:induction false} PendingPlusClosed(tarefas: seq<Tarefa>)
    ensures PendentesCount(tarefas) + |Filter(tarefas, HasStatus("concluida"))| + |Filter(tarefas, HasStatus("cancelada"))| == |tarefas|
  {
    if tarefas != [] {
      PendingPlusClosed(tarefas[1..]);
    }
  }
}
