/**
 * The write side of the task controller: the Eisenhower classification, the
 * row each INSERT / UPDATE produces, and the `tarefas_eisenhower` table as a
 * store whose handlers change its rows in place.
 */
module TarefasController {
  import opened TarefaTypes

  // ---------------------------------------------------------------- classification

  /** The Eisenhower matrix: the two flags pick exactly one quadrant. */
  function Classify(urgente: bool, importante: bool): (q: Quadrant)
    ensures q == 1 <==> urgente && importante
    ensures q == 2 <==> !urgente && importante
    ensures q == 3 <==> urgente && !importante
    ensures q == 4 <==> !urgente && !importante
  {
    if urgente && importante then 1
    else if !urgente && importante then 2
    else if urgente && !importante then 3
    else 4
  }

  /** Quadrants 1 and 3 hold the urgent tasks. */
  predicate IsUrgentQuadrant(q: Quadrant) {
    q == 1 || q == 3
  }

  /** Quadrants 1 and 2 hold the important tasks. */
  predicate IsImportantQuadrant(q: Quadrant) {
    q <= 2
  }

  /** The quadrant determines the flags back, and every quadrant is reached. */
  lemma ClassifyRoundTrip(urgente: bool, importante: bool, q: Quadrant)
    ensures IsUrgentQuadrant(Classify(urgente, importante)) == urgente
    ensures IsImportantQuadrant(Classify(urgente, importante)) == importante
    ensures Classify(IsUrgentQuadrant(q), IsImportantQuadrant(q)) == q
  {
  }

  // ---------------------------------------------------------------- the table

  /** The table, keyed by its primary key: each row sits under its own id. */
  type Table = t: map<int, Tarefa> | forall id :: id in t ==> t[id].id == id witness map[]

  /** A row whose quadrant is the classification of its flags. */
  predicate RowConsistent(r: Tarefa) {
    r.quadrante == Classify(r.urgente, r.importante)
  }

  predicate Consistent(t: Table) {
    forall id :: id in t ==> RowConsistent(t[id])
  }

  /** What a handler answers: a status code with a body, or a status code with `{ error }`. */
  datatype Reply<T> = Ok(code: int, value: T) | Error(code: int, message: string)

  const TituloObrigatorio := "Título é obrigatório"
  const TarefaNaoEncontrada := "Tarefa não encontrada"
  const TarefaExcluida := "Tarefa excluída com sucesso"

  /** The body of a successful delete: a message and the row that was removed. */
  datatype Deleted = Deleted(message: string, tarefa: Tarefa)

  // ---------------------------------------------------------------- criar

  /** The JSON body of a create request; `None` is a key the body leaves out. */
  datatype CreateBody = CreateBody(
    titulo: Option<string>,
    descricao: Option<string>,
    urgente: bool,
    importante: bool,
    justificativa: Option<string>,
    responsavel: Option<string>,
    dataLembrete: Option<string>,
    origem: Option<string>)

  /** `!titulo` is false: the title is present and not the empty string. */
  predicate HasTitle(b: CreateBody) {
    b.titulo.Some? && b.titulo.value != ""
  }

  /** The row the INSERT stores under `id`; the table's defaults fill status and timestamps. */
  function NewRow(id: int, b: CreateBody, now: Instant): (r: Tarefa)
    requires HasTitle(b)
    ensures r.id == id && r.titulo == b.titulo.value && r.titulo != ""
    ensures RowConsistent(r) && r.urgente == b.urgente && r.importante == b.importante
    ensures r.origem == (if b.origem.None? then "manual" else b.origem.value)
    ensures r.status == Pendente && r.completedAt.None?
    ensures r.createdAt == now && r.updatedAt == now
    ensures r.descricao == b.descricao && r.justificativa == b.justificativa
    ensures r.responsavel == b.responsavel && r.dataLembrete == b.dataLembrete
  {
    Tarefa(
      id := id,
      titulo := b.titulo.value,
      descricao := b.descricao,
      urgente := b.urgente,
      importante := b.importante,
      quadrante := Classify(b.urgente, b.importante),
      justificativa := b.justificativa,
      responsavel := b.responsavel,
      status := Pendente,
      dataLembrete := b.dataLembrete,
      origem := b.origem.GetOr("manual"),
      createdAt := now,
      updatedAt := now,
      completedAt := None)
  }

  // ---------------------------------------------------------------- atualizar

  /** The JSON body of an update request; every key may be left out. */
  datatype UpdateBody = UpdateBody(
    titulo: Option<string>,
    descricao: Option<string>,
    urgente: Option<bool>,
    importante: Option<bool>,
    justificativa: Option<string>,
    responsavel: Option<string>,
    status: Option<Status>,
    dataLembrete: Option<string>)

  /** A text value counts as given when it is present and not empty. */
  predicate Given(x: Option<string>) {
    x.Some? && x.value != ""
  }

  /** JavaScript's `x || null` on a text value. */
  function OrNull(x: Option<string>): (r: Option<string>)
    ensures r.Some? <==> Given(x)
    ensures r.Some? ==> r == x
  {
    if x.Some? && x.value != "" then x else None
  }

  /** SQL's COALESCE(given, current). */
  function Coalesce<T>(given: Option<T>, current: T): T {
    given.GetOr(current)
  }

  /** SQL's COALESCE(given, current) on a nullable column. */
  function CoalesceNullable<T>(given: Option<T>, current: Option<T>): Option<T> {
    if given.Some? then given else current
  }

  /** The quadrant parameter of the UPDATE: computed only when both flags are in the body. */
  function QuadranteParam(b: UpdateBody): (q: Option<Quadrant>)
    ensures q.Some? <==> b.urgente.Some? && b.importante.Some?
    ensures q.Some? ==> IsUrgentQuadrant(q.value) == b.urgente.value
                        && IsImportantQuadrant(q.value) == b.importante.value
  {
    if b.urgente.Some? && b.importante.Some? then Some(Classify(b.urgente.value, b.importante.value))
    else None
  }

  /** The row the UPDATE ... SET writes over `row`. */
  function Merge(row: Tarefa, b: UpdateBody, now: Instant): (r: Tarefa)
    // kept when omitted or empty
    ensures r.titulo == (if Given(b.titulo) then b.titulo.value else row.titulo)
    ensures r.descricao == (if Given(b.descricao) then b.descricao else row.descricao)
    ensures r.justificativa == (if Given(b.justificativa) then b.justificativa else row.justificativa)
    ensures r.status == (if b.status.Some? then b.status.value else row.status)
    ensures r.urgente == (if b.urgente.Some? then b.urgente.value else row.urgente)
    ensures r.importante == (if b.importante.Some? then b.importante.value else row.importante)
    // recomputed only from a body that carries both flags
    ensures b.urgente.Some? && b.importante.Some? ==> RowConsistent(r)
    ensures !(b.urgente.Some? && b.importante.Some?) ==> r.quadrante == row.quadrante
    // always overwritten: null when omitted or empty
    ensures r.responsavel == (if Given(b.responsavel) then b.responsavel else None)
    ensures r.dataLembrete == (if Given(b.dataLembrete) then b.dataLembrete else None)
    ensures r.updatedAt == now
    // untouched
    ensures r.id == row.id && r.origem == row.origem
    ensures r.createdAt == row.createdAt && r.completedAt == row.completedAt
  {
    row.(
      titulo := Coalesce(OrNull(b.titulo), row.titulo),
      descricao := CoalesceNullable(OrNull(b.descricao), row.descricao),
      urgente := Coalesce(b.urgente, row.urgente),
      importante := Coalesce(b.importante, row.importante),
      quadrante := Coalesce(QuadranteParam(b), row.quadrante),
      justificativa := CoalesceNullable(OrNull(b.justificativa), row.justificativa),
      responsavel := OrNull(b.responsavel),
      status := Coalesce(b.status, row.status),
      dataLembrete := OrNull(b.dataLembrete),
      updatedAt := now)
  }

  /**
   * On a consistent row, an update leaves the row consistent exactly when the
   * body carries both flags or the flags it carries do not change the pair.
   */
  lemma MergeConsistentIff(row: Tarefa, b: UpdateBody, now: Instant)
    requires RowConsistent(row)
    ensures RowConsistent(Merge(row, b, now)) <==>
              (b.urgente.Some? && b.importante.Some?)
              || (b.urgente.GetOr(row.urgente) == row.urgente && b.importante.GetOr(row.importante) == row.importante)
  {
    var r := Merge(row, b, now);
    if !(b.urgente.Some? && b.importante.Some?) && RowConsistent(r) {
      ClassifyRoundTrip(r.urgente, r.importante, r.quadrante);
      ClassifyRoundTrip(row.urgente, row.importante, row.quadrante);
    }
  }

  /** The table-level form: consistency survives an update of any row that carries both flags. */
  lemma AtualizarKeepsConsistency(t: Table, id: int, b: UpdateBody, now: Instant)
    requires Consistent(t) && id in t
    requires b.urgente.Some? && b.importante.Some?
    ensures Consistent(t[id := Merge(t[id], b, now)])
  {
  }

  /**
   * An urgent, unimportant task (quadrant 3) updated with only `importante: true`
   * ends up urgent and important but still in quadrant 3, not quadrant 1.
   */
  lemma OneFlagLeavesQuadranteStale(row: Tarefa, now: Instant)
    requires row.urgente && !row.importante && row.quadrante == 3
    ensures var r := Merge(row, UpdateBody(None, None, None, Some(true), None, None, None, None), now);
            r.urgente && r.importante && r.quadrante == 3 && Classify(r.urgente, r.importante) == 1
            && !RowConsistent(r)
  {
  }

  /** Sending the same update twice (at the same instant) is the same as sending it once. */
  lemma MergeIdempotent(row: Tarefa, b: UpdateBody, now: Instant)
    ensures Merge(Merge(row, b, now), b, now) == Merge(row, b, now)
  {
  }

  // ---------------------------------------------------------------- concluir

  /** The row the UPDATE of the completion handler writes over `row`, whatever its status. */
  function Concluded(row: Tarefa, now: Instant): (r: Tarefa)
    ensures r.status == Concluida && r.completedAt == Some(now) && r.updatedAt == now
    ensures r.(status := row.status, completedAt := row.completedAt, updatedAt := row.updatedAt) == row
  {
    row.(status := Concluida, completedAt := Some(now), updatedAt := now)
  }

  /** Completing twice re-stamps: the second completion's instant wins. */
  lemma ConcludedRestamps(row: Tarefa, first: Instant, second: Instant)
    ensures Concluded(Concluded(row, first), second) == Concluded(row, second)
  {
  }

  /** Inserting, completing and deleting never break the quadrant/flags agreement. */
  lemma OtherWritesKeepConsistency(t: Table, id: int, b: CreateBody, now: Instant)
    requires Consistent(t)
    ensures HasTitle(b) ==> Consistent(t[id := NewRow(id, b, now)])
    ensures id in t ==> Consistent(t[id := Concluded(t[id], now)])
    ensures Consistent(t - {id})
  {
  }

  // ---------------------------------------------------------------- the store

  /** The `tarefas_eisenhower` table and its id sequence. */
  class TarefasStore {
    var rows: Table
    var nextId: int

    /** Every stored id was handed out by the sequence, so the next one is free. */
    ghost predicate Valid()
      reads this
    {
      1 <= nextId && forall id :: id in rows ==> 1 <= id < nextId
    }

    constructor ()
      ensures Valid() && rows == map[] && nextId == 1
    {
      rows := map[];
      nextId := 1;
    }

    /** POST /: insert one row, or answer 400 when the title is missing or empty. */
    method Criar(b: CreateBody, now: Instant) returns (reply: Reply<Tarefa>)
      requires Valid()
      modifies this
      ensures Valid()
      ensures !HasTitle(b) ==> reply == Error(400, TituloObrigatorio)
                               && rows == old(rows) && nextId == old(nextId)
      ensures HasTitle(b) ==> var id := old(nextId);
                              && id !in old(rows)
                              && rows == old(rows)[id := NewRow(id, b, now)]
                              && |rows| == |old(rows)| + 1
                              && reply == Ok(201, NewRow(id, b, now))
                              && nextId == id + 1
    {
      if !(b.titulo.Some? && b.titulo.value != "") {
        return Error(400, TituloObrigatorio);
      }
      var row := NewRow(nextId, b, now);
      rows := rows[nextId := row];
      reply := Ok(201, row);
      nextId := nextId + 1;
    }

    /** PUT /:id: merge the body into the row, or answer 404. */
    method Atualizar(id: int, b: UpdateBody, now: Instant) returns (reply: Reply<Tarefa>)
      requires Valid()
      modifies this
      ensures Valid() && nextId == old(nextId)
      ensures id !in old(rows) ==> reply == Error(404, TarefaNaoEncontrada) && rows == old(rows)
      ensures id in old(rows) ==> rows == old(rows)[id := Merge(old(rows)[id], b, now)]
                                  && reply == Ok(200, rows[id])
    {
      if id !in rows {
        return Error(404, TarefaNaoEncontrada);
      }
      var row := Merge(rows[id], b, now);
      rows := rows[id := row];
      reply := Ok(200, row);
    }

    /** PATCH /:id/concluir: mark the row completed now, or answer 404. */
    method Concluir(id: int, now: Instant) returns (reply: Reply<Tarefa>)
      requires Valid()
      modifies this
      ensures Valid() && nextId == old(nextId)
      ensures id !in old(rows) ==> reply == Error(404, TarefaNaoEncontrada) && rows == old(rows)
      ensures id in old(rows) ==> rows == old(rows)[id := Concluded(old(rows)[id], now)]
                                  && reply == Ok(200, rows[id])
    {
      if id !in rows {
        return Error(404, TarefaNaoEncontrada);
      }
      var row := Concluded(rows[id], now);
      rows := rows[id := row];
      reply := Ok(200, row);
    }

    /** DELETE /:id: remove the row and answer with it, or answer 404. */
    method Excluir(id: int) returns (reply: Reply<Deleted>)
      requires Valid()
      modifies this
      ensures Valid() && nextId == old(nextId)
      ensures id !in old(rows) ==> reply == Error(404, TarefaNaoEncontrada) && rows == old(rows)
      ensures id in old(rows) ==> rows == old(rows) - {id}
                                  && |rows| == |old(rows)| - 1
                                  && reply == Ok(200, Deleted(TarefaExcluida, old(rows)[id]))
    {
      if id !in rows {
        return Error(404, TarefaNaoEncontrada);
      }
      var row := rows[id];
      rows := rows - {id};
      reply := Ok(200, Deleted(TarefaExcluida, row));
    }
  }
}
