/**
 * How the two halves agree: what the dashboard shows, computed by the
 * frontend from the backend's replies, against what the backend computes
 * from its table; and how the table's counters move through a task's life.
 */
module EndToEnd {
  import opened TarefaTypes
  import opened Text
  import opened Lists
  import opened TarefasController
  import opened TarefasQueries
  import opened Api
  import opened ModalTarefa
  import opened QuadranteView
  import opened AppState

  // ---------------------------------------------------------------- counting after a write

  /** Putting a row under a key removes the old row's match and adds the new one's. */
  lemma CountAfterPut(t: Table, id: int, row: Tarefa, p: Tarefa -> bool)
    requires row.id == id
    ensures |Matching(t[id := row].Values, p)| + (if id in t && p(t[id]) then 1 else 0)
            == |Matching(t.Values, p)| + (if p(row) then 1 else 0)
  {
    var rest := t - {id};
    var others := Matching(rest.Values, p);
    assert forall x :: x in rest.Values ==> x.id != id by {
      forall x | x in rest.Values ensures x.id != id {
        var k :| k in rest && rest[k] == x;
      }
    }
    MatchingWith(rest.Values, row, p);
    assert t[id := row].Values == rest.Values + {row} by {
      forall x | x in t[id := row].Values ensures x in rest.Values + {row} {
        var k :| k in t[id := row] && t[id := row][k] == x;
        if k != id {
          assert rest[k] == x;
        }
      }
      forall x | x in rest.Values ensures x in t[id := row].Values {
        var k :| k in rest && rest[k] == x;
        assert t[id := row][k] == x;
      }
      assert t[id := row][id] == row;
    }
    if id in t {
      MatchingWith(rest.Values, t[id], p);
      assert t.Values == rest.Values + {t[id]} by {
        forall x | x in t.Values ensures x in rest.Values + {t[id]} {
          var k :| k in t && t[k] == x;
          if k != id {
            assert rest[k] == x;
          }
        }
        forall x | x in rest.Values ensures x in t.Values {
          var k :| k in rest && rest[k] == x;
          assert t[k] == x;
        }
      }
    } else {
      assert t.Values == rest.Values by {
        forall x | x in t.Values ensures x in rest.Values {
          var k :| k in t && t[k] == x;
          assert rest[k] == x;
        }
        forall x | x in rest.Values ensures x in t.Values {
          var k :| k in rest && rest[k] == x;
          assert t[k] == x;
        }
      }
    }
  }

  /** Adding an element not yet present adds one match exactly when it matches. */
  lemma MatchingWith(v: set<Tarefa>, x: Tarefa, p: Tarefa -> bool)
    requires x !in v
    ensures |Matching(v + {x}, p)| == |Matching(v, p)| + (if p(x) then 1 else 0)
  {
    if p(x) {
      assert Matching(v + {x}, p) == Matching(v, p) + {x};
    } else {
      assert Matching(v + {x}, p) == Matching(v, p);
    }
  }

  // ---------------------------------------------------------------- a task's life in the counters

  /** A new urgent and important task, then its completion, counted over the table's rows. */
  lemma CreateThenConcludeCounts(t: Table, id: int, b: CreateBody, created: Instant, done: Instant, localDay: Instant -> int)
    requires id !in t && HasTitle(b) && b.urgente && b.importante
    ensures var t1 := t[id := NewRow(id, b, created)];
            |Matching(t1.Values, OpenIn(1))| == |Matching(t.Values, OpenIn(1))| + 1
    ensures var t2 := t[id := Concluded(NewRow(id, b, created), done)];
            && |Matching(t2.Values, OpenIn(1))| == |Matching(t.Values, OpenIn(1))|
            && |Matching(t2.Values, DoneOn(localDay, localDay(done)))| == |Matching(t.Values, DoneOn(localDay, localDay(done)))| + 1
  {
    var row := NewRow(id, b, created);
    var finished := Concluded(row, done);
    CountAfterPut(t, id, row, OpenIn(1));
    CountAfterPut(t, id, finished, OpenIn(1));
    CountAfterPut(t, id, finished, DoneOn(localDay, localDay(done)));
  }

  /** Creating an urgent and important task raises the urgent counter by one. */
  lemma CreateRaisesUrgentes(t: Table, id: int, b: CreateBody, created: Instant, localDay: Instant -> int)
    requires id !in t && HasTitle(b) && b.urgente && b.importante
    ensures Estatisticas(t[id := NewRow(id, b, created)], created, localDay).urgentes
            == Estatisticas(t, created, localDay).urgentes + 1
  {
    CreateThenConcludeCounts(t, id, b, created, created, localDay);
  }

  /**
   * Completing the task brings the urgent counter back to what it was before the
   * task existed, and adds it to the tasks concluded on the day of completion.
   */
  lemma ConcludeRestoresUrgentes(t: Table, id: int, b: CreateBody, created: Instant, done: Instant, localDay: Instant -> int)
    requires id !in t && HasTitle(b) && b.urgente && b.importante
    ensures var t2 := t[id := NewRow(id, b, created)][id := Concluded(NewRow(id, b, created), done)];
            && Estatisticas(t2, done, localDay).urgentes == Estatisticas(t, done, localDay).urgentes
            && Estatisticas(t2, done, localDay).concluidasHoje == Estatisticas(t, done, localDay).concluidasHoje + 1
  {
    var row := NewRow(id, b, created);
    assert t[id := row][id := Concluded(row, done)] == t[id := Concluded(row, done)];
    CreateThenConcludeCounts(t, id, b, created, done, localDay);
  }

  /** The created row is listed in quadrant 1. */
  lemma CreatedRowIsListed(t: Table, id: int, b: CreateBody, created: Instant)
    requires id !in t && HasTitle(b) && b.urgente && b.importante
    ensures NewRow(id, b, created) in ListarPorQuadrante(t[id := NewRow(id, b, created)], 1, None)
  {
    var t1 := t[id := NewRow(id, b, created)];
    assert id in t1 && t1[id].quadrante == 1;
  }

  /** Once completed, the task is no longer among quadrant 1's pending tasks, though still in quadrant 1. */
  lemma ConcludedRowLeavesPendingListing(t: Table, id: int, b: CreateBody, created: Instant, done: Instant)
    requires id !in t && HasTitle(b) && b.urgente && b.importante
    ensures var t2 := t[id := NewRow(id, b, created)][id := Concluded(NewRow(id, b, created), done)];
            && (forall x :: x in ListarPorQuadrante(t2, 1, Some("pendente")) ==> x.id != id)
            && t2[id] in ListarPorQuadrante(t2, 1, None)
  {
    var row := NewRow(id, b, created);
    var t2 := t[id := row][id := Concluded(row, done)];
    assert t2[id].status == Concluida && t2[id].quadrante == 1;
  }

  // ---------------------------------------------------------------- the column against the statistics

  /** A column's open-task count over a listing counts the table's open rows of that quadrant. */
  lemma {:induction false} BadgeCountsOpenRows(t: Table, q: int)
    ensures PendentesCount(ListarPorQuadrante(t, q, None)) == |Matching(t.Values, OpenIn(q))|
  {
    var matching := Filter(Rows(t), Where(Some(q), None));
    assert ListarPorQuadrante(t, q, None) == SortByCreated(matching);
    SortKeepsCount(matching, IsOpenTask());
    FilterFilterCount(Rows(t), Where(Some(q), None), IsOpenTask(), OpenIn(q));
    CountRows(t, OpenIn(q));
  }

  /** The badges of columns 1 and 2 show the header's urgent and scheduled counters. */
  lemma PendingBadgeMatchesStats(t: Table, now: Instant, localDay: Instant -> int)
    ensures PendentesCount(ListarPorQuadrante(t, 1, None)) == Estatisticas(t, now, localDay).urgentes
    ensures PendentesCount(ListarPorQuadrante(t, 2, None)) == Estatisticas(t, now, localDay).agendadas
  {
    BadgeCountsOpenRows(t, 1);
    BadgeCountsOpenRows(t, 2);
  }

  // ---------------------------------------------------------------- the column filter against the query filter

  /** Filtering a column on the client shows the rows the status query would have returned. */
  lemma ClientFilterMatchesServerFilter(t: Table, q: int, filtro: string)
    ensures forall x :: x in TarefasFiltradas(ListarPorQuadrante(t, q, None), filtro)
                        <==> x in ListarPorQuadrante(t, q, Some(filtro))
  {
    var all := ListarPorQuadrante(t, q, None);
    var queried := ListarPorQuadrante(t, q, Some(filtro));
    ListingMembers(t, q, None);
    ListingMembers(t, q, Some(filtro));
    var shown := TarefasFiltradas(all, filtro);
    if filtro == "" {
      assert shown == all;
    } else {
      assert forall x :: x in shown <==> x in all && StatusName(x.status) == filtro;
    }
  }

  /** The rows a quadrant listing holds, as one condition on a row. */
  lemma ListingMembers(t: Table, q: int, status: Option<string>)
    ensures forall x :: x in ListarPorQuadrante(t, q, status)
                        <==> x.id in t && t[x.id] == x && x.quadrante == q && StatusMatches(x, status)
  {
    var r := ListarPorQuadrante(t, q, status);
    forall x: Tarefa | x.id in t && t[x.id] == x && x.quadrante == q && StatusMatches(x, status) ensures x in r {
      assert t[x.id] in r;
    }
  }

  // ---------------------------------------------------------------- the form against the handlers

  /** A title the form accepts is one the create handler accepts. */
  lemma FormTitleImpliesServerTitle(data: TarefaFormData)
    requires Trim(data.titulo) != ""
    ensures HasTitle(CreateBodyOf(data))
  {
  }

  /** The form is stricter: a title of spaces only passes the create handler but not the form. */
  lemma SpacesTitlePassesServerOnly()
    ensures var data := TarefaFormData("  ", "", true, true, "", "");
            HasTitle(CreateBodyOf(data)) && Trim(data.titulo) == ""
  {
    assert AllSpace("  ");
    TrimEmptyIffAllSpace("  ");
  }

  /** The badge in the form predicts the quadrant the handlers store, on create and on update. */
  lemma PreviewMatchesServer(m: ModalState, id: int, row: Tarefa, now: Instant)
    requires HasTitle(CreateBodyOf(m.formData))
    ensures m.GetQuadrante().num == NewRow(id, CreateBodyOf(m.formData), now).quadrante
    ensures m.GetQuadrante().num == Merge(row, UpdateBodyOf(m.formData), now).quadrante
  {
  }

  /**
   * Saving the edit form of a consistent task unchanged changes no field the
   * form shows, but clears the reminder date the form never sends and turns
   * an empty assignee into NULL.
   */
  lemma EditingUnchangedFormClearsReminder(row: Tarefa, now: Instant)
    requires RowConsistent(row)
    ensures Merge(row, UpdateBodyOf(FormOf(row)), now)
            == row.(responsavel := OrNull(row.responsavel), dataLembrete := None, updatedAt := now)
  {
  }

  // ---------------------------------------------------------------- the confirmation dialog against the table

  /** A column list shows exactly the table's rows of quadrant `q`, as they are stored. */
  predicate Shows(t: Table, q: int, s: seq<Tarefa>) {
    && (forall x :: x in s ==> x.id in t && t[x.id] == x)
    && (forall id :: id in t && t[id].quadrante == q ==> t[id] in s)
  }

  /** The unfiltered listing of a quadrant is such a list. */
  lemma ListingShows(t: Table, q: int)
    ensures Shows(t, q, ListarPorQuadrante(t, q, None))
  {
  }

  /**
   * The controller's error replies reach the client as thrown Errors carrying
   * the handler's own message: a lookup of a missing id as "Tarefa não
   * encontrada", a create without a title as "Título é obrigatório".
   */
  lemma ControllerMessagesReachCaller(t: Table, id: int)
    ensures id !in t ==> Receive(BuscarPorId(t, id)) == Rejected("Tarefa não encontrada")
    ensures id in t ==> Receive(BuscarPorId(t, id)) == Resolved(t[id])
    ensures Receive(Reply<Tarefa>.Error(400, TituloObrigatorio)) == Rejected("Título é obrigatório")
    ensures Receive(Reply<Deleted>.Error(404, TarefaNaoEncontrada)) == Rejected("Tarefa não encontrada")
  {
    assert TarefaNaoEncontrada[0] == 'T' && TituloObrigatorio[0] == 'T';
    ControllerErrorsReachCaller(Reply<Tarefa>.Error(400, TituloObrigatorio));
    ControllerErrorsReachCaller(Reply<Deleted>.Error(404, TarefaNaoEncontrada));
    if id !in t {
      ControllerErrorsReachCaller(BuscarPorId(t, id));
    }
  }

  /** Once the columns show the table, the dialog names the table's row for any stored, non-zero id. */
  lemma ConfirmationNamesTheRow(t: Table, tarefas: map<int, seq<Tarefa>>, id: int)
    requires Quadrants <= tarefas.Keys
    requires forall q :: 1 <= q <= 4 ==> Shows(t, q, tarefas[q])
    requires id in t && id != 0
    ensures TarefaExcluindo(tarefas, Some(id)) == Some(t[id])
  {
    var row := t[id];
    assert Shows(t, row.quadrante, tarefas[row.quadrante]);
    assert row in tarefas[row.quadrante];
    var r := TarefaExcluindo(tarefas, Some(id));
    TarefaExcluindoMeaning(tarefas, Some(id));
    var q :| 1 <= q <= 4 && r.value in tarefas[q];
    assert Shows(t, q, tarefas[q]);
  }
}
