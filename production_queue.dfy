/**
 * The admin production-queue screen: the status filter, the summary counters, the progress
 * figures of a job, the client-side check of the progress form, and moving a job up or down.
 */
module QueueScreen {
  import opened Wrappers
  import opened Js
  import opened Schema
  import PrintQueue
  import Text

  /** A job as the screen holds it (the fields of `GET /queue` this screen computes with). */
  datatype QueueJob = QueueJob(id: int, status: string, quantidadeImpressa: int, quantidadeFalha: int, quantidadeTotal: int)

  const PRODUCTION_STATUSES: seq<string> := ["FILA", "IMPRIMINDO", "PAUSADO", "CONCLUIDO", "CANCELADO"]

  // ---------------------------------------------------------------- filteredQueue

  /** Whether a job is shown under a filter value (`TODOS`, `ATIVOS` or one status). */
  predicate Shown(filter: string, job: QueueJob) {
    if filter == "TODOS" then true
    else if filter == "ATIVOS" then job.status != "CONCLUIDO" && job.status != "CANCELADO"
    else job.status == filter
  }

  /** `filteredQueue`: the shown jobs, in queue order. */
  function FilteredQueue(queue: seq<QueueJob>, filter: string): (r: seq<QueueJob>)
    ensures |r| <= |queue|
    ensures forall j :: 0 <= j < |r| ==> Shown(filter, r[j])
  {
    if queue == [] then []
    else
      var last := queue[|queue| - 1];
      FilteredQueue(queue[..|queue| - 1], filter) + (if Shown(filter, last) then [last] else [])
  }

  /** The queue positions of the shown jobs, in increasing order. */
  function ShownIndices(queue: seq<QueueJob>, filter: string): (r: seq<int>)
    ensures forall j :: 0 <= j < |r| ==> 0 <= r[j] < |queue| && Shown(filter, queue[r[j]])
    ensures forall j, l :: 0 <= j < l < |r| ==> r[j] < r[l]
    ensures forall p :: 0 <= p < |queue| && Shown(filter, queue[p]) ==> p in r
  {
    if queue == [] then []
    else
      var init := queue[..|queue| - 1];
      var r0 := ShownIndices(init, filter);
      assert forall p :: 0 <= p < |init| ==> init[p] == queue[p];
      r0 + (if Shown(filter, queue[|queue| - 1]) then [|queue| - 1] else [])
  }

  /**
   * `filteredQueue` keeps exactly the shown jobs, in their queue order: its j-th entry is
   * the job at the j-th shown position.
   */
  lemma {:induction false} FilteredQueueAt(queue: seq<QueueJob>, filter: string)
    ensures |FilteredQueue(queue, filter)| == |ShownIndices(queue, filter)|
    ensures forall j :: 0 <= j < |FilteredQueue(queue, filter)| ==>
      FilteredQueue(queue, filter)[j] == queue[ShownIndices(queue, filter)[j]]
  {
    if queue != [] {
      var init := queue[..|queue| - 1];
      FilteredQueueAt(init, filter);
      assert forall p :: 0 <= p < |init| ==> init[p] == queue[p];
    }
  }

  /** `TODOS` shows the whole queue. */
  lemma {:induction false} AllShowsEverything(queue: seq<QueueJob>)
    ensures FilteredQueue(queue, "TODOS") == queue
  {
    if queue != [] {
      AllShowsEverything(queue[..|queue| - 1]);
      assert queue[..|queue| - 1] + [queue[|queue| - 1]] == queue;
    }
  }

  /** The shown positions depend only on which positions hold shown jobs. */
  lemma {:induction false} ShownIndicesDependOnShown(q1: seq<QueueJob>, q2: seq<QueueJob>, filter: string)
    requires |q1| == |q2|
    requires forall p :: 0 <= p < |q1| ==> Shown(filter, q1[p]) == Shown(filter, q2[p])
    ensures ShownIndices(q1, filter) == ShownIndices(q2, filter)
  {
    if q1 != [] {
      ShownIndicesDependOnShown(q1[..|q1| - 1], q2[..|q2| - 1], filter);
    }
  }

  // ---------------------------------------------------------------- summary and getProgress

  predicate Active(job: QueueJob) {
    job.status == "FILA" || job.status == "IMPRIMINDO" || job.status == "PAUSADO"
  }

  /** `summary.activeJobs`: the jobs waiting, printing or paused. */
  function ActiveJobs(queue: seq<QueueJob>): (r: nat)
    ensures r <= |queue|
  {
    if queue == [] then 0
    else ActiveJobs(queue[..|queue| - 1]) + (if Active(queue[|queue| - 1]) then 1 else 0)
  }

  /** `summary.totalSuccess`. */
  function TotalSuccess(queue: seq<QueueJob>): int {
    if queue == [] then 0 else TotalSuccess(queue[..|queue| - 1]) + queue[|queue| - 1].quantidadeImpressa
  }

  /** `summary.totalFail`. */
  function TotalFail(queue: seq<QueueJob>): int {
    if queue == [] then 0 else TotalFail(queue[..|queue| - 1]) + queue[|queue| - 1].quantidadeFalha
  }

  /** The summary counters of the screen (the completion average is left out). */
  datatype Summary = Summary(totalJobs: nat, activeJobs: nat, totalSuccess: int, totalFail: int)

  function QueueSummary(queue: seq<QueueJob>): (r: Summary)
    ensures r.totalJobs == |queue| && r.activeJobs <= r.totalJobs
  {
    Summary(|queue|, ActiveJobs(queue), TotalSuccess(queue), TotalFail(queue))
  }

  /**
   * When every job has one of the five production statuses, the active counter equals the
   * length of the `ATIVOS` view.
   */
  lemma {:induction false} ActiveCountMatchesFilter(queue: seq<QueueJob>)
    requires forall j :: 0 <= j < |queue| ==> queue[j].status in PRODUCTION_STATUSES
    ensures ActiveJobs(queue) == |FilteredQueue(queue, "ATIVOS")|
  {
    if queue != [] {
      var init := queue[..|queue| - 1];
      assert forall j :: 0 <= j < |init| ==> init[j] == queue[j];
      ActiveCountMatchesFilter(init);
    }
  }

  /** The summary's totals add up over consecutive parts of the queue. */
  lemma {:induction false} TotalsAdd(queue: seq<QueueJob>, more: seq<QueueJob>)
    ensures TotalSuccess(queue + more) == TotalSuccess(queue) + TotalSuccess(more)
    ensures TotalFail(queue + more) == TotalFail(queue) + TotalFail(more)
    decreases |more|
  {
    if more != [] {
      var init := more[..|more| - 1];
      assert (queue + more)[..|queue + more| - 1] == queue + init;
      assert (queue + more)[|queue + more| - 1] == more[|more| - 1];
      TotalsAdd(queue, init);
    } else {
      assert queue + more == queue;
    }
  }

  /** The counts `getProgress` works with; `completion` in exact arithmetic. */
  datatype Progress = Progress(success: int, fail: int, total: int, processed: int, completion: real)

  /** `getProgress` without the success rate. */
  function GetProgress(job: QueueJob): (r: Progress)
    ensures r.success == job.quantidadeImpressa && r.fail == job.quantidadeFalha
    ensures r.processed == r.success + r.fail
    ensures r.total >= 1 && r.total >= job.quantidadeTotal
    ensures job.quantidadeTotal >= 1 ==> r.total == job.quantidadeTotal
  {
    var total := if job.quantidadeTotal > 1 then job.quantidadeTotal else 1;
    var processed := job.quantidadeImpressa + job.quantidadeFalha;
    var percent := (processed as real / total as real) * 100.0;
    Progress(job.quantidadeImpressa, job.quantidadeFalha, total, processed, if percent < 100.0 then percent else 100.0)
  }

  /** Completion is a percentage, and reaches 100 exactly when the processed count reaches the total. */
  lemma CompletionIsPercentage(job: QueueJob)
    requires job.quantidadeImpressa >= 0 && job.quantidadeFalha >= 0
    ensures 0.0 <= GetProgress(job).completion <= 100.0
    ensures GetProgress(job).completion == 100.0 <==> GetProgress(job).processed >= GetProgress(job).total
  {
    var p := GetProgress(job);
    var t := p.total as real;
    var x := p.processed as real;
    assert (x / t) * 100.0 >= 100.0 <==> x >= t by {
      assert (x / t) * t == x;
    }
  }

  // ---------------------------------------------------------------- handleUpdateSubmit

  /**
   * The progress form (`updateData`): the status and stage chosen, the counts typed (already
   * through `Number`) and the three client texts, which the modal fills from the job.
   */
  datatype UpdateForm = UpdateForm(
    status: string,
    etapaCliente: string,
    quantidadeImpressa: int,
    quantidadeFalha: int,
    clienteNome: string,
    clienteContato: string,
    observacoes: string)

  /** What submitting the form does: nothing (a local error), or send these values. */
  datatype SubmitOutcome = Blocked | Send(status: string, quantidadeImpressa: int, quantidadeFalha: int)

  /**
   * `handleUpdateSubmit`: blocks when success + failure exceed the job's total; otherwise
   * sends the form, with the status forced to `CONCLUIDO` when the total is reached and the
   * status was left as the job had it.
   */
  function UpdateSubmit(form: UpdateForm, job: QueueJob): (r: SubmitOutcome)
    ensures r.Blocked? <==> form.quantidadeImpressa + form.quantidadeFalha > job.quantidadeTotal
    ensures r.Send? ==> r.quantidadeImpressa == form.quantidadeImpressa && r.quantidadeFalha == form.quantidadeFalha
    ensures r.Send? ==> r.status == (if form.quantidadeImpressa >= job.quantidadeTotal && form.status == job.status
                                     then "CONCLUIDO" else form.status)
    ensures r.Send? && r.status != form.status ==> form.status == job.status && form.quantidadeImpressa >= job.quantidadeTotal
  {
    if form.quantidadeImpressa + form.quantidadeFalha > job.quantidadeTotal then Blocked
    else
      var forced := form.quantidadeImpressa >= job.quantidadeTotal && form.status == job.status && form.status != "CONCLUIDO";
      Send(if forced then "CONCLUIDO" else form.status, form.quantidadeImpressa, form.quantidadeFalha)
  }

  /** The body `PUT /queue/:id` receives for a sent form: all of `updateData`, counts and status replaced. */
  function SentRequest(r: SubmitOutcome, form: UpdateForm): PrintQueue.UpdateJobRequest
    requires r.Send?
  {
    PrintQueue.UpdateJobRequest(r.status, form.etapaCliente, Column(r.quantidadeImpressa), Column(r.quantidadeFalha),
                                Set(form.observacoes), Set(form.clienteNome), Set(form.clienteContato))
  }

  /**
   * A form the screen sends with non-negative counts never trips the server's
   * "success + failure above total" refusal for that job.
   */
  lemma SubmitPassesServerCheck(form: UpdateForm, view: QueueJob, job: Job, now: int)
    requires form.quantidadeImpressa >= 0 && form.quantidadeFalha >= 0
    requires view.quantidadeTotal == job.quantidadeTotal
    requires UpdateSubmit(form, view).Send?
    ensures PrintQueue.Processed(PrintQueue.UpdatedJob(job, SentRequest(UpdateSubmit(form, view), form), now))
      <= job.quantidadeTotal
  {
    NormalizeIntegerOfInt(form.quantidadeImpressa, 0);
    NormalizeIntegerOfInt(form.quantidadeFalha, 0);
  }

  /** A text as the server stores it: NULL, or trimmed and not empty. */
  predicate StoredText(t: Option<string>) {
    t.None? || (t.value != "" && Text.Trim(t.value) == t.value)
  }

  /** The modal fills a text with `job.x || ''`; sent back untouched, it stores the same value again. */
  lemma UntouchedTextKept(stored: Option<string>)
    requires StoredText(stored)
    ensures PrintQueue.TextUpdate(Set(stored.GetOr("")), stored) == stored
  {
    if stored.Some? {
      assert PrintQueue.OptionalText(stored.value) == Some(stored.value);
    }
  }

  /** Whatever text is sent is stored trimmed, or as NULL when blank. */
  lemma SentTextStored(stored: Option<string>, typed: string)
    ensures StoredText(PrintQueue.TextUpdate(Set(typed), stored))
  {
    var t := Text.Trim(typed);
    Text.TrimOfTrimmed(t);
  }

  /**
   * Submitting the progress form of a job whose texts were filled from that job, without
   * touching them, leaves the client name, contact and notes as they were.
   */
  lemma SubmitKeepsUntouchedTexts(form: UpdateForm, view: QueueJob, job: Job, now: int)
    requires StoredText(job.clienteNome) && StoredText(job.clienteContato) && StoredText(job.observacoes)
    requires form.clienteNome == job.clienteNome.GetOr("") && form.clienteContato == job.clienteContato.GetOr("")
    requires form.observacoes == job.observacoes.GetOr("")
    requires UpdateSubmit(form, view).Send?
    ensures var j := PrintQueue.UpdatedJob(job, SentRequest(UpdateSubmit(form, view), form), now);
      j.clienteNome == job.clienteNome && j.clienteContato == job.clienteContato && j.observacoes == job.observacoes
  {
    UntouchedTextKept(job.clienteNome);
    UntouchedTextKept(job.clienteContato);
    UntouchedTextKept(job.observacoes);
  }

  // ---------------------------------------------------------------- handleMove

  /** `s` with the entries at `i` and `j` exchanged. */
  function Swapped<T>(s: seq<T>, i: int, j: int): (r: seq<T>)
    requires 0 <= i < |s| && 0 <= j < |s|
    ensures |r| == |s| && r[i] == s[j] && r[j] == s[i]
    ensures forall k :: 0 <= k < |s| && k != i && k != j ==> r[k] == s[k]
  {
    s[i := s[j]][j := s[i]]
  }

  /** Exchanging two entries keeps the same jobs. */
  lemma SwapPermutes<T>(s: seq<T>, i: int, j: int)
    requires 0 <= i < |s| && 0 <= j < |s|
    ensures multiset(Swapped(s, i, j)) == multiset(s)
  {
    var t := s[i := s[j]];
    assert multiset(t) == multiset(s) - multiset{s[i]} + multiset{s[j]};
  }

  /** Moving down and then up again restores the queue. */
  lemma SwapTwice<T>(s: seq<T>, i: int, j: int)
    requires 0 <= i < |s| && 0 <= j < |s|
    ensures Swapped(Swapped(s, i, j), i, j) == s
  {
  }

  /** `orderData`: every job with `posicao` = its place + 1. */
  function OrderData(queue: seq<QueueJob>): (r: seq<PrintQueue.ReorderEntry>)
    ensures |r| == |queue|
    ensures forall i :: 0 <= i < |r| ==> r[i] == PrintQueue.Entry(Column(queue[i].id), Column(i + 1))
  {
    seq(|queue|, i requires 0 <= i < |queue| => PrintQueue.Entry(Column(queue[i].id), Column(i + 1)))
  }

  /**
   * `handleMove`, as written: `index` comes from the rendered list, and the bound is checked
   * against, and the exchange made in, the full queue. An exchange produces the queue the
   * screen shows next and the `jobs` array sent to `PUT /queue/reorder`.
   */
  method HandleMove(queue: seq<QueueJob>, index: int, direction: int)
    returns (next: seq<QueueJob>, order: Option<seq<PrintQueue.ReorderEntry>>)
    requires 0 <= index < |queue|
    ensures var target := index + direction;
      if target < 0 || target >= |queue| then next == queue && order.None?
      else next == Swapped(queue, index, target) && order == Some(OrderData(next))
  {
    var target := index + direction;
    if target < 0 || target >= |queue| {
      return queue, None;
    }
    var nextQueue := new QueueJob[|queue|](i requires 0 <= i < |queue| => queue[i]);
    nextQueue[index], nextQueue[target] := nextQueue[target], nextQueue[index];
    next := nextQueue[..];
    order := Some(OrderData(next));
  }

  /**
   * The reorder the screen sends, once applied by the server, puts every job of the screen's
   * queue at its place + 1 (job ids are distinct and positive, as the table's rowids are).
   */
  lemma {:induction false} OrderDataPositions(queue: seq<QueueJob>, k: int)
    requires forall i :: 0 <= i < |queue| ==> queue[i].id > 0
    requires forall i, j :: 0 <= i < j < |queue| ==> queue[i].id != queue[j].id
    ensures forall i :: 0 <= i < |queue| && queue[i].id == k ==> PrintQueue.LastPosition(OrderData(queue), k) == Some(i + 1)
    ensures (forall i :: 0 <= i < |queue| ==> queue[i].id != k) ==> PrintQueue.LastPosition(OrderData(queue), k).None?
  {
    var entries := OrderData(queue);
    forall i | 0 <= i < |entries|
      ensures PrintQueue.EntryTarget(entries[i]) == Some((queue[i].id, i + 1))
    {
      NormalizeIntegerOfInt(queue[i].id, 0);
      NormalizeIntegerOfInt(i + 1, 0);
    }
    if queue != [] {
      var init := queue[..|queue| - 1];
      OrderDataPositions(init, k);
      assert OrderData(init) == entries[..|entries| - 1];
    }
  }

  /** Applying the screen's reorder gives each listed job of the table its new place. */
  lemma ReorderAppliesScreenOrder(jobs: map<int, Job>, queue: seq<QueueJob>, now: int, i: int)
    requires forall j :: 0 <= j < |queue| ==> queue[j].id > 0
    requires forall j, l :: 0 <= j < l < |queue| ==> queue[j].id != queue[l].id
    requires 0 <= i < |queue| && queue[i].id in jobs
    ensures PrintQueue.ApplyReorder(jobs, OrderData(queue), now)[queue[i].id].posicao == i + 1
  {
    OrderDataPositions(queue, queue[i].id);
    PrintQueue.ReorderEffect(jobs, OrderData(queue), now);
  }

  /**
   * With the `ATIVOS` view over two waiting jobs followed by a finished one, the last shown
   * row (index 1) still has its "down" button enabled, since the bound is the full queue's
   * length. Moving it down exchanges it with the hidden finished job: the shown order does
   * not change.
   */
  lemma MoveInFilteredViewAsWritten()
    ensures var queue := [QueueJob(2, "FILA", 0, 0, 1), QueueJob(3, "FILA", 0, 0, 1), QueueJob(1, "CONCLUIDO", 1, 0, 1)];
      && FilteredQueue(queue, "ATIVOS") == [queue[0], queue[1]]
      && 1 != |queue| - 1 && 1 + 1 < |queue|
      && FilteredQueue(Swapped(queue, 1, 2), "ATIVOS") == FilteredQueue(queue, "ATIVOS")
      && FilteredQueue(Swapped(queue, 1, 2), "ATIVOS") != Swapped(FilteredQueue(queue, "ATIVOS"), 0, 1)
  {
    var queue := [QueueJob(2, "FILA", 0, 0, 1), QueueJob(3, "FILA", 0, 0, 1), QueueJob(1, "CONCLUIDO", 1, 0, 1)];
    assert queue[..2][..1] == [queue[0]] && queue[..2] == [queue[0], queue[1]];
    assert [queue[0]][..0] == [];
    assert FilteredQueue([queue[0]], "ATIVOS") == [queue[0]];
    assert FilteredQueue(queue[..2], "ATIVOS") == [queue[0], queue[1]];
    var moved := Swapped(queue, 1, 2);
    assert moved == [queue[0], queue[2], queue[1]];
    assert moved[..2][..1] == [queue[0]] && moved[..2] == [queue[0], queue[2]];
    assert FilteredQueue(moved[..2], "ATIVOS") == [queue[0]];
  }

  /**
   * `handleMove` as evidently intended: `index` and the bound refer to the rendered list, and
   * the two jobs exchanged are the shown neighbours, wherever they sit in the full queue. The
   * rendered list then shows exactly those two jobs exchanged.
   */
  method HandleMoveInView(queue: seq<QueueJob>, filter: string, index: int, direction: int)
    returns (next: seq<QueueJob>, order: Option<seq<PrintQueue.ReorderEntry>>)
    requires 0 <= index < |FilteredQueue(queue, filter)|
    ensures var view := FilteredQueue(queue, filter);
      var target := index + direction;
      if target < 0 || target >= |view| then next == queue && order.None?
      else
        && multiset(next) == multiset(queue)
        && FilteredQueue(next, filter) == Swapped(view, index, target)
        && order == Some(OrderData(next))
  {
    var view := FilteredQueue(queue, filter);
    var target := index + direction;
    if target < 0 || target >= |view| {
      return queue, None;
    }
    FilteredQueueAt(queue, filter);
    var shown := ShownIndices(queue, filter);
    var from, to := shown[index], shown[target];
    var nextQueue := new QueueJob[|queue|](i requires 0 <= i < |queue| => queue[i]);
    nextQueue[from], nextQueue[to] := nextQueue[to], nextQueue[from];
    next := nextQueue[..];
    assert next == Swapped(queue, from, to);
    SwapPermutes(queue, from, to);
    SwappedViewLemma(queue, filter, index, target);
    order := Some(OrderData(next));
  }

  /** Exchanging the queue entries of two shown jobs exchanges them in the rendered list. */
  lemma SwappedViewLemma(queue: seq<QueueJob>, filter: string, i: int, j: int)
    requires 0 <= i < |ShownIndices(queue, filter)| && 0 <= j < |ShownIndices(queue, filter)|
    requires |FilteredQueue(queue, filter)| == |ShownIndices(queue, filter)|
    ensures var shown := ShownIndices(queue, filter);
      FilteredQueue(Swapped(queue, shown[i], shown[j]), filter) == Swapped(FilteredQueue(queue, filter), i, j)
  {
    FilteredQueueAt(queue, filter);
    var shown := ShownIndices(queue, filter);
    var moved := Swapped(queue, shown[i], shown[j]);
    ShownIndicesDependOnShown(queue, moved, filter);
    FilteredQueueAt(moved, filter);
    var a := FilteredQueue(moved, filter);
    var b := Swapped(FilteredQueue(queue, filter), i, j);
    forall l | 0 <= l < |a|
      ensures a[l] == b[l]
    {
      if l != i && l != j {
        assert shown[l] != shown[i] && shown[l] != shown[j];
      }
    }
  }
}
