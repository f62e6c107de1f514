/** The per-difficulty question pool (hooks/useQuestionManager.ts, hooks/useQuestions.ts).
    A FIFO buffer of questions refilled below a low-water mark, guarded by an in-flight flag,
    with at most one pending retry timer and a category filter applied both to the buffer
    and to every fetched batch. The network and the timer enter as explicit steps:
    `RequestQuestions` issues a request, `CompleteRequest` delivers its outcome,
    `FireRetry` is the timer going off. */
module QuestionPool {
  import opened Wrappers
  import opened TriviaTypes
  import opened CategoryFilter

  const MIN_QUESTION_COUNT: nat := 10
  const MAX_QUESTION_COUNT: nat := 20
  /** Back-off delay; time is not modelled, the timer going off is the `FireRetry` step. */
  const RETRY_DELAY_MS: nat := 5500

  /** What the pool reads from the settings store. */
  datatype Selection = Selection(categories: seq<OtdbCategory>, selectedIds: seq<int>, initialized: bool)

  /** Arguments of `getQuestionsFromOtdb(amount, categoryId)`. */
  datatype FetchRequest = FetchRequest(amount: nat, categoryId: Option<int>)

  /** How a request ended. `Fetched([])` also stands for a null or undefined result. */
  datatype FetchOutcome = Fetched(records: seq<QuestionDetails>) | RateLimited | OtherError

  /** `questionsRef` / the store list, `fetchInFlightRef` and whether `retryTimeoutRef` holds a timer. */
  datatype PoolState = PoolState(buffer: seq<QuestionDetails>, inFlight: bool, retryPending: bool)

  /** A state together with the request issued on the way to it, if any. */
  datatype Step = Step(state: PoolState, request: Option<FetchRequest>)

  /** Categories are loaded and the user selected none: nothing may be fetched. */
  predicate SelectionCleared(sel: Selection)
  {
    sel.initialized && |sel.selectedIds| == 0
  }

  function Kept(records: seq<QuestionDetails>, sel: Selection): seq<QuestionDetails>
  {
    FilterQuestionsByCategories(records, sel.categories, sel.selectedIds)
  }

  /** `scheduleRetry`: arms the timer; a pending timer is left as it is. */
  function WithRetry(s: PoolState): (r: PoolState)
    ensures r.retryPending && r.buffer == s.buffer && r.inFlight == s.inFlight
  {
    s.(retryPending := true)
  }

  /** The request `requestQuestions` issues from state `s`, if any. */
  function RequestFor(s: PoolState, sel: Selection): (req: Option<FetchRequest>)
    ensures req.Some? <==> !s.inFlight && !SelectionCleared(sel)
    ensures req.Some? ==> req.value.amount == 10
    ensures req.Some? ==> (req.value.categoryId.Some? <==> |sel.selectedIds| == 1)
    ensures req.Some? && req.value.categoryId.Some? ==> req.value.categoryId.value == sel.selectedIds[0]
  {
    if s.inFlight || SelectionCleared(sel) then None
    else
      var categoryId := if |sel.selectedIds| == 1 then Some(sel.selectedIds[0]) else None;
      Some(FetchRequest(MAX_QUESTION_COUNT - MIN_QUESTION_COUNT, categoryId))
  }

  /** The state right after `requestQuestions` ran its synchronous part. */
  function AfterRequest(s: PoolState, sel: Selection): (r: PoolState)
    ensures r.buffer == s.buffer && r.retryPending == s.retryPending
    ensures r.inFlight
        || (r == s && !s.inFlight && SelectionCleared(sel))
  {
    if RequestFor(s, sel).Some? then s.(inFlight := true) else s
  }

  /** The state after the awaited fetch of `requestQuestions` settled with `outcome`;
      `sel` is the selection the request's closure captured. */
  function AfterCompletion(s: PoolState, sel: Selection, outcome: FetchOutcome): PoolState
  {
    var settled := s.(inFlight := false);
    match outcome
    case RateLimited => WithRetry(settled)
    case OtherError => settled
    case Fetched(records) =>
      if |records| == 0 then WithRetry(settled)
      else
        var kept := Kept(records, sel);
        if |kept| == 0 then
          if |sel.selectedIds| > 0 then WithRetry(settled) else settled
        else
          var merged := s.buffer + kept;
          var stored := settled.(buffer := merged);
          if |merged| <= MIN_QUESTION_COUNT then WithRetry(stored) else stored
  }

  /** The filter effect: the buffer is re-filtered with the current selection. */
  function AfterFilter(s: PoolState, sel: Selection): (r: PoolState)
    ensures r.inFlight == s.inFlight && r.retryPending == s.retryPending
    ensures IsSubsequence(r.buffer, s.buffer)
    ensures forall q :: q in r.buffer ==> Admits(sel.categories, sel.selectedIds, q)
  {
    FilterIsSubsequence(s.buffer, sel.categories, sel.selectedIds);
    s.(buffer := Kept(s.buffer, sel))
  }

  /** The effect that reacts to a selection or buffer change: a cleared selection cancels
      the timer and resets the in-flight flag; otherwise a short buffer triggers a request. */
  function AfterSelectionEffect(s: PoolState, sel: Selection): Step
  {
    if SelectionCleared(sel) then Step(s.(retryPending := false, inFlight := false), None)
    else if !s.inFlight && |s.buffer| <= MIN_QUESTION_COUNT then Step(AfterRequest(s, sel), RequestFor(s, sel))
    else Step(s, None)
  }

  /** The retry timer goes off: it forgets itself and calls the latest `requestQuestions`. */
  function AfterRetryFires(s: PoolState, sel: Selection): Step
  {
    var t := s.(retryPending := false);
    Step(AfterRequest(t, sel), RequestFor(t, sel))
  }

  /** `peekQuestion`: the head of the buffer, or null. */
  function PeekOf(buffer: seq<QuestionDetails>): (q: Option<QuestionDetails>)
    ensures q.None? <==> buffer == []
    ensures q.Some? ==> q.value == buffer[0]
  {
    if |buffer| > 0 then Some(buffer[0]) else None
  }

  /** `advanceQuestion`: the buffer it stores (None when it calls no setter) and what it returns. */
  datatype Advanced = Advanced(stored: Option<seq<QuestionDetails>>, returned: Option<QuestionDetails>)

  function AdvanceOf(buffer: seq<QuestionDetails>): (a: Advanced)
    ensures buffer == [] <==> a.stored.None?
    ensures buffer == [] ==> a.returned.None?
    ensures a.stored.Some? ==> a.stored.value == buffer[1..] && |a.stored.value| == |buffer| - 1
    ensures a.stored.Some? ==> a.returned == PeekOf(a.stored.value)
  {
    if |buffer| == 0 then Advanced(None, None)
    else
      var remaining := buffer[1..];
      Advanced(Some(remaining), if |remaining| > 0 then Some(remaining[0]) else None)
  }

  /** Peeks taken before each of `k` successive advances. */
  function ServeRun(buffer: seq<QuestionDetails>, k: nat): seq<Option<QuestionDetails>>
  {
    if k == 0 then []
    else
      var a := AdvanceOf(buffer);
      [PeekOf(buffer)] + ServeRun(if a.stored.Some? then a.stored.value else buffer, k - 1)
  }

  /** FIFO: peeking and advancing `k` times serves the first `k` buffered questions in order. */
  lemma {:induction false} ServeRunIsFifo(buffer: seq<QuestionDetails>, k: nat)
    requires k <= |buffer|
    ensures |ServeRun(buffer, k)| == k
    ensures forall i :: 0 <= i < k ==> ServeRun(buffer, k)[i] == Some(buffer[i])
  {
    if k > 0 {
      ServeRunIsFifo(buffer[1..], k - 1);
    }
  }

  /** Advancing an exhausted buffer serves nothing and stores nothing, however often. */
  lemma {:induction false} ServeRunPastEnd(buffer: seq<QuestionDetails>, k: nat)
    requires buffer == []
    ensures forall i :: 0 <= i < |ServeRun(buffer, k)| ==> ServeRun(buffer, k)[i].None?
    ensures |ServeRun(buffer, k)| == k
  {
    if k > 0 {
      ServeRunPastEnd(buffer, k - 1);
    }
  }

  /** No second request while one is in flight; none either once the selection is cleared. */
  lemma RequestGuards(s: PoolState, sel: Selection)
    requires s.inFlight || SelectionCleared(sel)
    ensures RequestFor(s, sel).None? && AfterRequest(s, sel) == s
  {
  }

  /** Every way a fetch can settle leaves `inFlight` false, and a pending timer is kept,
      never doubled or dropped. */
  lemma CompletionSettles(s: PoolState, sel: Selection, outcome: FetchOutcome)
    ensures !AfterCompletion(s, sel, outcome).inFlight
    ensures s.retryPending ==> AfterCompletion(s, sel, outcome).retryPending
  {
  }

  /** A completion only ever appends: the buffered questions keep their place and order,
      and what is appended is the filtered batch. */
  lemma CompletionAppends(s: PoolState, sel: Selection, outcome: FetchOutcome)
    ensures var r := AfterCompletion(s, sel, outcome);
      && |s.buffer| <= |r.buffer|
      && r.buffer[..|s.buffer|] == s.buffer
      && (r.buffer == s.buffer || (outcome.Fetched? && r.buffer == s.buffer + Kept(outcome.records, sel)))
  {
    var r := AfterCompletion(s, sel, outcome);
    if outcome.Fetched? && |outcome.records| > 0 && |Kept(outcome.records, sel)| > 0 {
      assert r.buffer == s.buffer + Kept(outcome.records, sel);
      assert r.buffer[..|s.buffer|] == s.buffer;
    }
  }

  /** When a retry is armed: on a rate limit, an empty batch, a batch the filter empties,
      or a merged buffer still at or below the low-water mark; never on another error. */
  lemma CompletionRetryRule(s: PoolState, sel: Selection, outcome: FetchOutcome)
    ensures var r := AfterCompletion(s, sel, outcome);
      r.retryPending <==>
        s.retryPending
        || outcome.RateLimited?
        || (outcome.Fetched? &&
             (|Kept(outcome.records, sel)| == 0
              || |s.buffer + Kept(outcome.records, sel)| <= MIN_QUESTION_COUNT))
  {
    if outcome.Fetched? && |outcome.records| > 0 && |Kept(outcome.records, sel)| == 0 {
      AllFilteredImpliesSelection(outcome.records, sel);
    }
  }

  /** A non-empty batch can only be filtered away entirely when some category is selected,
      so the `selectedCategoryIds.length > 0` test on that path always holds. */
  lemma AllFilteredImpliesSelection(records: seq<QuestionDetails>, sel: Selection)
    requires |records| > 0 && |Kept(records, sel)| == 0
    ensures |sel.selectedIds| > 0 && |sel.categories| > 0
  {
    assert records[0] in records;
  }

  /** The two identical filter effects: running the second after the first changes nothing. */
  lemma FilterEffectIdempotent(s: PoolState, sel: Selection)
    ensures AfterFilter(AfterFilter(s, sel), sel) == AfterFilter(s, sel)
  {
    FilterIdempotent(s.buffer, sel.categories, sel.selectedIds);
  }

  /** Clearing the selection cancels the timer, drops the in-flight flag and requests nothing;
      otherwise an idle pool at or below the low-water mark issues a request. */
  lemma SelectionEffectRule(s: PoolState, sel: Selection)
    ensures var st := AfterSelectionEffect(s, sel);
      && (SelectionCleared(sel) ==>
            st.request.None? && !st.state.retryPending && !st.state.inFlight && st.state.buffer == s.buffer)
      && (!SelectionCleared(sel) ==>
            (st.request.Some? <==> !s.inFlight && |s.buffer| <= MIN_QUESTION_COUNT))
      && st.state.buffer == s.buffer
  {
  }

  /** After the timer fires no timer is pending, and a request goes out unless one is in
      flight or the selection is cleared. */
  lemma RetryFiresRule(s: PoolState, sel: Selection)
    ensures var st := AfterRetryFires(s, sel);
      && !st.state.retryPending
      && (st.request.Some? <==> !s.inFlight && !SelectionCleared(sel))
      && st.state.buffer == s.buffer
  {
  }

  /** The narrowing scenario: re-filtering a buffer to the one selected category leaves only
      that category's questions, and at or below the low-water mark a request follows. */
  lemma NarrowingTriggersRefill(s: PoolState, sel: Selection, c: OtdbCategory)
    requires sel.categories == [c] && sel.selectedIds == [c.id] && !s.inFlight
    requires |AfterFilter(s, sel).buffer| <= MIN_QUESTION_COUNT
    ensures forall q :: q in AfterFilter(s, sel).buffer <==> q in s.buffer && q.category == c.name
    ensures AfterSelectionEffect(AfterFilter(s, sel), sel).request == Some(FetchRequest(10, Some(c.id)))
  {
    assert AllowedNames(sel.categories, sel.selectedIds) == {c.name};
  }

  /** The start-up scenario: an idle, empty pool requests 10 questions; if all 10 come back
      and pass the filter, they are served in fetch order and a refill is due afterwards. */
  lemma StartupScenario(sel: Selection, records: seq<QuestionDetails>)
    requires !SelectionCleared(sel)
    requires |records| == 10
    requires forall q :: q in records ==> Admits(sel.categories, sel.selectedIds, q)
    ensures var s0 := PoolState([], false, false);
      && RequestFor(s0, sel).Some? && RequestFor(s0, sel).value.amount == 10
      && AfterCompletion(AfterRequest(s0, sel), sel, Fetched(records)).buffer == records
      && AfterCompletion(AfterRequest(s0, sel), sel, Fetched(records)).retryPending
      && ServeRun(records, 10) == seq(10, i requires 0 <= i < 10 => Some(records[i]))
  {
    var s0 := PoolState([], false, false);
    KeepAllAdmitted(records, sel);
    assert [] + records == records;
    ServeRunIsFifo(records, 10);
  }

  lemma {:induction false} KeepAllAdmitted(records: seq<QuestionDetails>, sel: Selection)
    requires forall q :: q in records ==> Admits(sel.categories, sel.selectedIds, q)
    ensures Kept(records, sel) == records
  {
    if !PassThrough(sel.categories, sel.selectedIds) {
      KeepNamedAll(records, AllowedNames(sel.categories, sel.selectedIds));
    }
  }

  lemma {:induction false} KeepNamedAll(records: seq<QuestionDetails>, names: set<string>)
    requires forall q :: q in records ==> q.category in names
    ensures KeepNamed(records, names) == records
  {
    if records != [] {
      KeepNamedAll(records[1..], names);
      assert records == [records[0]] + records[1..];
    }
  }

  /** One difficulty's pool: `questionsRef` (kept equal to the store list), the in-flight
      flag and the retry timer slot. */
  class Pool {
    var buffer: seq<QuestionDetails>
    var inFlight: bool
    var retryPending: bool

    function State(): PoolState
      reads this
    {
      PoolState(buffer, inFlight, retryPending)
    }

    constructor (initial: seq<QuestionDetails>)
      ensures State() == PoolState(initial, false, false)
    {
      buffer := initial;
      inFlight := false;
      retryPending := false;
    }

    /** `scheduleRetry`; `started` tells whether a new timer was created. */
    method ScheduleRetry() returns (started: bool)
      modifies this
      ensures started <==> !old(retryPending)
      ensures State() == WithRetry(old(State()))
    {
      if retryPending {
        return false;
      }
      retryPending := true;
      started := true;
    }

    /** The synchronous part of `requestQuestions`. */
    method RequestQuestions(sel: Selection) returns (req: Option<FetchRequest>)
      modifies this
      ensures req == RequestFor(old(State()), sel)
      ensures State() == AfterRequest(old(State()), sel)
    {
      if inFlight {
        return None;
      }
      if sel.initialized && |sel.selectedIds| == 0 {
        return None;
      }
      inFlight := true;
      var categoryId := if |sel.selectedIds| == 1 then Some(sel.selectedIds[0]) else None;
      req := Some(FetchRequest(MAX_QUESTION_COUNT - MIN_QUESTION_COUNT, categoryId));
    }

    /** The continuation of `requestQuestions` once the fetch settled. */
    method CompleteRequest(sel: Selection, outcome: FetchOutcome)
      modifies this
      ensures State() == AfterCompletion(old(State()), sel, outcome)
    {
      match outcome {
        case Fetched(records) =>
          if |records| == 0 {
            inFlight := false;
            var _ := ScheduleRetry();
            return;
          }
          var kept := FilterQuestionsByCategories(records, sel.categories, sel.selectedIds);
          if |kept| == 0 {
            inFlight := false;
            if |sel.selectedIds| > 0 {
              var _ := ScheduleRetry();
            }
            return;
          }
          var merged := buffer + kept;
          buffer := merged;
          inFlight := false;
          if |merged| <= MIN_QUESTION_COUNT {
            var _ := ScheduleRetry();
          }
        case RateLimited =>
          inFlight := false;
          var _ := ScheduleRetry();
        case OtherError =>
          inFlight := false;
      }
    }

    /** The timer callback. */
    method FireRetry(sel: Selection) returns (req: Option<FetchRequest>)
      modifies this
      ensures Step(State(), req) == AfterRetryFires(old(State()), sel)
    {
      retryPending := false;
      req := RequestQuestions(sel);
    }

    /** The filter effect; `updated` tells whether `setQuestions` was called. */
    method ApplyFilter(sel: Selection) returns (updated: bool)
      modifies this
      ensures State() == AfterFilter(old(State()), sel)
      ensures updated <==> State() != old(State())
    {
      var filtered := FilterQuestionsByCategories(buffer, sel.categories, sel.selectedIds);
      updated := filtered != buffer;
      if updated {
        buffer := filtered;
      }
    }

    /** The effect on selection, initialisation or buffer changes. */
    method SelectionChanged(sel: Selection) returns (req: Option<FetchRequest>)
      modifies this
      ensures Step(State(), req) == AfterSelectionEffect(old(State()), sel)
    {
      if sel.initialized && |sel.selectedIds| == 0 {
        retryPending := false;
        inFlight := false;
        return None;
      }
      req := None;
      if !inFlight && |buffer| <= MIN_QUESTION_COUNT {
        req := RequestQuestions(sel);
      }
    }

    /** The unmount cleanup: a pending timer is cleared. */
    method Teardown()
      modifies this
      ensures State() == old(State()).(retryPending := false)
    {
      retryPending := false;
    }

    /** `peekQuestion`. */
    method Peek() returns (q: Option<QuestionDetails>)
      ensures q == PeekOf(buffer)
    {
      q := if |buffer| > 0 then Some(buffer[0]) else None;
    }

    /** `advanceQuestion`: stores the tail, returns the new head. */
    method Advance() returns (next: Option<QuestionDetails>)
      modifies this
      ensures var a := AdvanceOf(old(buffer));
        && next == a.returned
        && buffer == (if a.stored.Some? then a.stored.value else old(buffer))
      ensures inFlight == old(inFlight) && retryPending == old(retryPending)
    {
      if |buffer| == 0 {
        return None;
      }
      var remaining := buffer[1..];
      buffer := remaining;
      next := if |remaining| > 0 then Some(remaining[0]) else None;
    }
  }

  /** The store's three per-difficulty lists behind `selectQuestions` / `selectSetQuestions`. */
  class QuestionStore {
    var easyQuestions: seq<QuestionDetails>
    var mediumQuestions: seq<QuestionDetails>
    var hardQuestions: seq<QuestionDetails>

    /** `selectQuestions(difficulty)`: easy and medium have their own lists, anything else reads hard. */
    function QuestionsFor(d: Difficulty): seq<QuestionDetails>
      reads this
    {
      match d
      case Easy => easyQuestions
      case Medium => mediumQuestions
      case _ => hardQuestions
    }

    /** `selectSetQuestions(difficulty)(questions)`: only the selected list changes. */
    method SetQuestionsFor(d: Difficulty, questions: seq<QuestionDetails>)
      modifies this
      ensures QuestionsFor(d) == questions
      ensures forall e :: e != d ==> QuestionsFor(e) == old(QuestionsFor(e))
    {
      match d {
        case Easy => easyQuestions := questions;
        case Medium => mediumQuestions := questions;
        case _ => hardQuestions := questions;
      }
    }
  }

}
