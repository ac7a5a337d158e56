/**
 * The task form dialog: its three pieces of state (the form, the loading flag
 * and the error text), the reset it performs whenever it is opened, the
 * submission in its two halves around the awaited save, and the quadrant
 * preview it shows while the flags are edited.
 */
module ModalTarefa {
  import opened TarefaTypes
  import opened Text
  import opened TarefasController

  /** The form of a new task: everything empty, not urgent, important. */
  const EmptyForm := TarefaFormData("", "", false, true, "", "")

  const TituloObrigatorioForm := "Título é obrigatório"
  const ErroAoSalvar := "Erro ao salvar tarefa"

  /** The form filled from a task being edited; a null text becomes "". */
  function FormOf(t: Tarefa): TarefaFormData {
    TarefaFormData(t.titulo, t.descricao.GetOr(""), t.urgente, t.importante,
                   t.justificativa.GetOr(""), t.responsavel.GetOr(""))
  }

  /** What the awaited save threw: an `Error` with its message, or something else. */
  datatype Thrown = ErrorWithMessage(message: string) | NotAnError

  datatype SaveOutcome = Saved | Failed(thrown: Thrown)

  /** The quadrant badge of the form: number, label (`caption`) and colour classes. */
  datatype QuadranteInfo = QuadranteInfo(num: Quadrant, caption: string, color: string)

  /** The label of each quadrant as the badge spells it. */
  function QuadranteLabel(q: Quadrant): (caption: string)
    ensures |caption| > 5 && caption[..5] == ['Q', DigitChar(q), ' ', '-', ' ']
  {
    match q
    case 1 => "Q1 - Fazer Agora"
    case 2 => "Q2 - Agendar"
    case 3 => "Q3 - Delegar"
    case 4 => "Q4 - Eliminar"
  }

  class ModalState {
    var formData: TarefaFormData
    var loading: bool
    var error: string

    constructor()
      ensures formData == EmptyForm && !loading && error == ""
    {
      formData := EmptyForm;
      loading := false;
      error := "";
    }

    /** The effect run when the dialog opens or its task changes: refill the form, clear the error. */
    method Sync(tarefa: Option<Tarefa>)
      modifies this
      ensures formData == (if tarefa.Some? then FormOf(tarefa.value) else EmptyForm)
      ensures error == "" && loading == old(loading)
    {
      if tarefa.Some? {
        formData := FormOf(tarefa.value);
      } else {
        formData := EmptyForm;
      }
      error := "";
    }

    /**
     * The submit handler up to the awaited save: a title of white space only is
     * refused with a message and nothing else changes; otherwise the dialog
     * starts loading, clears the error and hands the form to the save callback.
     */
    method BeginSubmit() returns (save: Option<TarefaFormData>)
      modifies this
      ensures formData == old(formData)
      ensures Trim(formData.titulo) == "" ==> save.None? && error == TituloObrigatorioForm && loading == old(loading)
      ensures Trim(formData.titulo) != "" ==> save == Some(formData) && loading && error == ""
    {
      if Trim(formData.titulo) == "" {
        error := TituloObrigatorioForm;
        return None;
      }
      loading := true;
      error := "";
      save := Some(formData);
    }

    /**
     * The submit handler after the save settles: on success the dialog asks to be
     * closed; on failure it shows the thrown message (or a generic one). Either way
     * it stops loading.
     */
    method FinishSubmit(outcome: SaveOutcome) returns (close: bool)
      modifies this
      ensures close <==> outcome.Saved?
      ensures !loading && formData == old(formData)
      ensures outcome.Saved? ==> error == old(error)
      ensures outcome.Failed? && outcome.thrown.ErrorWithMessage? ==> error == outcome.thrown.message
      ensures outcome.Failed? && outcome.thrown.NotAnError? ==> error == ErroAoSalvar
    {
      match outcome {
        case Saved =>
          close := true;
        case Failed(thrown) =>
          close := false;
          error := if thrown.ErrorWithMessage? then thrown.message else ErroAoSalvar;
      }
      loading := false;
    }

    /** The preview badge: the quadrant the two flags select, with its label. */
    function GetQuadrante(): (r: QuadranteInfo)
      reads this
      ensures r.num == Classify(formData.urgente, formData.importante)
      ensures r.caption == QuadranteLabel(r.num)
      ensures r.num == 1 <==> formData.urgente && formData.importante
    {
      var u, i := formData.urgente, formData.importante;
      if u && i then QuadranteInfo(1, QuadranteLabel(1), "bg-red-100 text-red-800")
      else if !u && i then QuadranteInfo(2, QuadranteLabel(2), "bg-blue-100 text-blue-800")
      else if u && !i then QuadranteInfo(3, QuadranteLabel(3), "bg-yellow-100 text-yellow-800")
      else QuadranteInfo(4, QuadranteLabel(4), "bg-gray-100 text-gray-800")
    }
  }
}
