/**
  The step-wise questionnaire: a step index over the question list and the
  answers given so far. "Next" moves forward without validating, and on the
  last step submits the whole answer set; "Back" moves backward when it can.
 */
module Wizard {
  import opened Wrappers
  import opened FormSchema
  import opened Questions
  import opened Submission

  datatype Wizard = Wizard(step: int, answers: AnswerSet)

  /** A fresh form: first question, nothing answered. */
  const Initial: Wizard := Wizard(0, map[])

  /** The step indexes a question. */
  predicate InRange(w: Wizard) {
    0 <= w.step < N
  }

  /** What pressing "Next" produces: the new state, the payload handed to the submit handler if any, and the issues surfaced if submission failed. */
  datatype Outcome = Outcome(wizard: Wizard, emitted: Option<Payload>, issues: seq<Issue>)

  /**
    "Next": below the last step, advance by one whatever the answers hold;
    otherwise stay, validate the whole answer set and emit the payload when
    it passes, or surface every field's issue when it does not.
   */
  function Next(w: Wizard): (o: Outcome)
    ensures w.step < N - 1 ==> o == Outcome(w.(step := w.step + 1), None, [])
    ensures w.step >= N - 1 ==> o.wizard == w
    ensures w.step >= N - 1 ==> (o.emitted.Some? <==> forall i :: 0 <= i < N ==> Accepts(w.answers, Fields[i]))
    ensures o.emitted.Some? ==> Conforms(o.emitted.value) && Reports(w.answers, o.emitted.value)
    ensures o.emitted.Some? ==> o.issues == []
    ensures w.step >= N - 1 && o.emitted.None? ==>
              |o.issues| > 0 &&
              forall i :: 0 <= i < N && !Accepts(w.answers, Fields[i]) ==> IssueOf(w.answers, Fields[i]) in o.issues
    ensures forall e :: e in o.issues ==> RaisedBy(w.answers, Fields, e)
  {
    if w.step < N - 1 then Outcome(w.(step := w.step + 1), None, [])
    else
      match ValidateAll(w.answers)
      case Success(p) => Outcome(w, Some(p), [])
      case Failure(es) => Outcome(w, None, es)
  }

  /** "Back": one step back when above the first step; otherwise nothing changes. */
  function Back(w: Wizard): (w': Wizard)
    ensures w'.answers == w.answers
    ensures w'.step == if w.step > 0 then w.step - 1 else w.step
  {
    if w.step > 0 then w.(step := w.step - 1) else w
  }

  /**
    Editing the control on screen: the current question's field takes the
    new value, which is of the kind that control produces; every other
    field keeps its answer.
   */
  function Edit(w: Wizard, v: Value): (w': Wizard)
    requires InRange(w)
    requires v.Type() == Produces(QuestionAt(w.step).input)
    ensures w'.step == w.step
    ensures Lookup(w'.answers, Fields[w.step].name) == Some(v)
    ensures forall name :: name != Fields[w.step].name ==> Lookup(w'.answers, name) == Lookup(w.answers, name)
  {
    w.(answers := w.answers[QuestionAt(w.step).name := v])
  }

  /** The caption of the forward button. */
  datatype Caption = NextCaption | SubmitCaption

  function ForwardCaption(w: Wizard): Caption {
    if w.step < N - 1 then NextCaption else SubmitCaption
  }

  function BackShown(w: Wizard): bool {
    w.step > 0
  }

  /**
    The buttons tell the truth: "Submit" is shown exactly on the last step,
    which is exactly when pressing it submits instead of moving; "Back" is
    shown exactly above the first step, which is exactly when pressing it
    changes anything.
   */
  lemma ButtonsMatchBehaviour(w: Wizard)
    requires InRange(w)
    ensures ForwardCaption(w) == SubmitCaption <==> w.step == N - 1
    ensures ForwardCaption(w) == SubmitCaption <==> Next(w).wizard == w
    ensures BackShown(w) <==> Back(w) != w
  {
  }

  /** Below the last step, "Back" undoes "Next". */
  lemma BackUndoesNext(w: Wizard)
    requires 0 <= w.step < N - 1
    ensures Next(w).emitted.None?
    ensures Back(Next(w).wizard) == w
  {
  }

  /** Above the first step, "Next" undoes "Back" without submitting. */
  lemma NextUndoesBack(w: Wizard)
    requires 0 < w.step < N
    ensures Next(Back(w)) == Outcome(w, None, [])
  {
  }

  /** There is no terminal state: pressing "Submit" again submits the same answers again. */
  lemma ResubmitRepeats(w: Wizard)
    requires w.step == N - 1
    ensures Next(Next(w).wizard) == Next(w)
  {
  }

  /** A user action. `Enter(v)` is the control on screen reporting the new value `v`. */
  datatype Event = PressNext | PressBack | Enter(v: Value)

  /** Whether the control shown at `w`'s step can report `v`: a checkbox reports booleans, a number input numbers. */
  predicate Reportable(w: Wizard, v: Value)
    requires InRange(w)
  {
    v.Type() == Produces(QuestionAt(w.step).input)
  }

  /**
    One action; only "Next" can emit. A value the control on screen cannot
    report is not an input the page can receive, and changes nothing.
   */
  function Apply(w: Wizard, e: Event): (o: Outcome)
    requires InRange(w)
    ensures InRange(o.wizard)
    ensures o.emitted.Some? ==> e == PressNext && w.step == N - 1
    ensures WellTyped(w.answers) ==> WellTyped(o.wizard.answers)
  {
    match e
    case PressNext => Next(w)
    case PressBack => Outcome(Back(w), None, [])
    case Enter(v) =>
      if Reportable(w, v) then Outcome(Edit(w, v), None, []) else Outcome(w, None, [])
  }

  /** The state after a run of actions and the payloads it emitted, in order. */
  datatype Trace = Trace(final: Wizard, emitted: seq<Payload>)

  /**
    Runs a sequence of actions. The step never leaves the question list, and
    every payload emitted satisfies the schema.
   */
  function Run(w: Wizard, es: seq<Event>): (t: Trace)
    requires InRange(w)
    ensures InRange(t.final)
    ensures forall p :: p in t.emitted ==> Conforms(p)
    ensures |t.emitted| <= |es|
    decreases |es|
  {
    if es == [] then Trace(w, [])
    else
      var o := Apply(w, es[0]);
      var t := Run(o.wizard, es[1..]);
      Trace(t.final, (if o.emitted.Some? then [o.emitted.value] else []) + t.emitted)
  }

  lemma ConcatAssoc<T>(a: seq<T>, b: seq<T>, c: seq<T>)
    ensures a + (b + c) == (a + b) + c
  {
  }

  /** Running actions one after another is running their concatenation. */
  lemma {:induction false} RunAppend(w: Wizard, xs: seq<Event>, ys: seq<Event>)
    requires InRange(w)
    ensures Run(w, xs + ys) ==
              var t := Run(w, xs); var u := Run(t.final, ys); Trace(u.final, t.emitted + u.emitted)
    decreases |xs|
  {
    if xs == [] {
      assert xs + ys == ys;
    } else {
      var o := Apply(w, xs[0]);
      var first := if o.emitted.Some? then [o.emitted.value] else [];
      assert (xs + ys)[0] == xs[0];
      assert (xs + ys)[1..] == xs[1..] + ys;
      var t' := Run(o.wizard, xs[1..]);
      var u := Run(t'.final, ys);
      assert Run(w, xs) == Trace(t'.final, first + t'.emitted);
      RunAppend(o.wizard, xs[1..], ys);
      assert Run(o.wizard, xs[1..] + ys) == Trace(u.final, t'.emitted + u.emitted);
      ConcatAssoc(first, t'.emitted, u.emitted);
    }
  }

  /** From a fresh form, whatever the actions, the answers keep the types of their fields. */
  lemma {:induction false} RunKeepsTypes(w: Wizard, es: seq<Event>)
    requires InRange(w) && WellTyped(w.answers)
    ensures WellTyped(Run(w, es).final.answers)
    decreases |es|
  {
    if es != [] {
      RunKeepsTypes(Apply(w, es[0]).wizard, es[1..]);
    }
  }

  /**
    From a fresh form, whatever the actions, pressing "Submit" never
    surfaces a type mismatch: only missing or out-of-range answers.
   */
  lemma {:induction false} NoTypeMismatchFromFreshForm(es: seq<Event>)
    ensures forall e :: e in Next(Run(Initial, es).final).issues ==> e.kind != TypeMismatch
  {
    var w := Run(Initial, es).final;
    RunKeepsTypes(Initial, es);
    WellTypedNoMismatch(w.answers);
  }
}
