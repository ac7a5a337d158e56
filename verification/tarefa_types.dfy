/**
 * The shapes shared by the backend rows and the frontend: a task (`Tarefa`),
 * the statistics object (`Stats`) and the form payload (`TarefaFormData`).
 */
module TarefaTypes {

  /** A nullable or absent value: `None` stands for SQL NULL or for a key the JSON body omits. */
  datatype Option<+T> = None | Some(value: T) {
    function GetOr(default: T): T {
      match this
      case Some(v) => v
      case None => default
    }
  }

  /** A point in time, as an abstract instant (the database clock's NOW()). */
  type Instant = int

  /** The four Eisenhower quadrants: 1 do now, 2 schedule, 3 delegate, 4 eliminate. */
  type Quadrant = q: int | 1 <= q <= 4 witness 1

  /** The life-cycle status of a task. */
  datatype Status = Pendente | EmProgresso | Concluida | Cancelada

  /** The text the table and the JSON carry for each status. */
  function StatusName(s: Status): string {
    match s
    case Pendente => "pendente"
    case EmProgresso => "em_progresso"
    case Concluida => "concluida"
    case Cancelada => "cancelada"
  }

  /** Reads a status back from its text; any other text is not a status. */
  function ParseStatus(text: string): (r: Option<Status>)
    ensures r.Some? ==> StatusName(r.value) == text
    ensures forall s :: StatusName(s) == text ==> r == Some(s)
  {
    if text == "pendente" then Some(Pendente)
    else if text == "em_progresso" then Some(EmProgresso)
    else if text == "concluida" then Some(Concluida)
    else if text == "cancelada" then Some(Cancelada)
    else None
  }

  /** Neither finished nor abandoned: what the pending counters count. */
  predicate IsOpen(s: Status) {
    s != Concluida && s != Cancelada
  }

  /**
   * One row of the `tarefas_eisenhower` table, as the API returns it.
   * `descricao`, `justificativa`, `responsavel`, `dataLembrete` and
   * `completedAt` are nullable; the other fields are not.
   */
  datatype Tarefa = Tarefa(
    id: int,
    titulo: string,
    descricao: Option<string>,
    urgente: bool,
    importante: bool,
    quadrante: Quadrant,
    justificativa: Option<string>,
    responsavel: Option<string>,
    status: Status,
    dataLembrete: Option<string>,
    origem: string,
    createdAt: Instant,
    updatedAt: Instant,
    completedAt: Option<Instant>)

  /** One row of the per-(quadrant, status) grouping; `total` is the count as decimal text. */
  datatype GroupCount = GroupCount(quadrante: int, status: string, total: string)

  /** The statistics object: three numeric counters and the grouping. */
  datatype Stats = Stats(urgentes: nat, agendadas: nat, concluidasHoje: nat, porQuadrante: seq<GroupCount>)

  /**
   * What the task form edits and sends. It has no quadrant, status,
   * reminder or origin: the server derives or defaults those.
   */
  datatype TarefaFormData = TarefaFormData(
    titulo: string,
    descricao: string,
    urgente: bool,
    importante: bool,
    justificativa: string,
    responsavel: string)
}
