/** Concrete runs of the questionnaire from a fresh form. */
module Scenarios {
  import opened Wrappers
  import opened FormSchema
  import opened Submission
  import opened Questions
  import opened Wizard

  /** One step of a run started part-way through a list of actions. */
  lemma RunFrom(w: Wizard, es: seq<Event>, k: nat)
    requires InRange(w) && k < |es|
    ensures Run(w, es[k..]) ==
              var o := Apply(w, es[k]);
              var t := Run(o.wizard, es[k + 1..]);
              Trace(t.final, (if o.emitted.Some? then [o.emitted.value] else []) + t.emitted)
  {
    assert es[k..][0] == es[k];
    assert es[k..][1..] == es[k + 1..];
  }

  /** Answering the current question and pressing "Next" below the last step. */
  lemma AnswerThenNext(w: Wizard, v: Value, rest: seq<Event>)
    requires 0 <= w.step < N - 1 && v.Type() == Fields[w.step].Type()
    ensures Run(w, [Enter(v), PressNext] + rest) ==
              Run(Wizard(w.step + 1, w.answers[Fields[w.step].name := v]), rest)
  {
    var es := [Enter(v), PressNext] + rest;
    var edited := Wizard(w.step, w.answers[Fields[w.step].name := v]);
    assert es[0] == Enter(v) && es[1] == PressNext;
    assert Apply(w, es[0]) == Outcome(edited, None, []) by {
      assert QuestionAt(w.step).name == Fields[w.step].name;
      assert Reportable(w, v);
    }
    assert Apply(edited, es[1]) == Outcome(edited.(step := w.step + 1), None, []);
    RunFrom(w, es, 0);
    RunFrom(edited, es, 1);
    assert es[0..] == es && es[2..] == rest;
  }

  /** Answering the last question and pressing "Submit". */
  lemma AnswerThenSubmit(w: Wizard, v: Value)
    requires w.step == N - 1 && v.Type() == Fields[w.step].Type()
    ensures Run(w, [Enter(v), PressNext]) ==
              var w' := Wizard(w.step, w.answers[Fields[w.step].name := v]);
              Trace(w', if ValidateAll(w'.answers).Success? then [ValidateAll(w'.answers).value] else [])
  {
    var es := [Enter(v), PressNext];
    var edited := Wizard(w.step, w.answers[Fields[w.step].name := v]);
    var sent := if ValidateAll(edited.answers).Success? then [ValidateAll(edited.answers).value] else [];
    assert es[0] == Enter(v) && es[1] == PressNext;
    assert Apply(w, es[0]) == Outcome(edited, None, []) by {
      assert QuestionAt(w.step).name == Fields[w.step].name;
      assert Reportable(w, v);
    }
    assert Apply(edited, es[1]).wizard == edited;
    assert Apply(edited, es[1]).emitted == ValidateAll(edited.answers).ToOption();
    assert Run(edited, es[2..]) == Trace(edited, []) by {
      assert es[2..] == [];
    }
    RunFrom(edited, es, 1);
    assert Run(edited, es[1..]) == Trace(edited, sent);
    RunFrom(w, es, 0);
    assert es[0..] == es;
  }

  /** Answer each remaining question in turn with `vs`, pressing "Next" (then "Submit") after each. */
  function Script(vs: seq<Value>): seq<Event> {
    if vs == [] then [] else [Enter(vs[0]), PressNext] + Script(vs[1..])
  }

  /** The answers after writing `vs` into the fields from `from` on. */
  function Fill(a: AnswerSet, from: nat, vs: seq<Value>): AnswerSet
    requires from + |vs| <= N
    decreases |vs|
  {
    if vs == [] then a else Fill(a[Fields[from].name := vs[0]], from + 1, vs[1..])
  }

  /**
    Answering every remaining question and pressing "Next" after each ends
    on the last step with the answers filled in, having emitted nothing
    before the final press and, on it, the payload exactly when the filled
    answers pass validation.
   */
  lemma {:induction false} ScriptRun(w: Wizard, vs: seq<Value>)
    requires 0 <= w.step && w.step + |vs| == N && |vs| > 0
    requires forall i :: 0 <= i < |vs| ==> vs[i].Type() == Fields[w.step + i].Type()
    ensures Run(w, Script(vs)) ==
              var a := Fill(w.answers, w.step, vs);
              Trace(Wizard(N - 1, a), if ValidateAll(a).Success? then [ValidateAll(a).value] else [])
    decreases |vs|
  {
    if |vs| == 1 {
      assert Script(vs) == [Enter(vs[0]), PressNext] by {
        assert Script(vs[1..]) == [];
      }
      AnswerThenSubmit(w, vs[0]);
    } else {
      var w' := Wizard(w.step + 1, w.answers[Fields[w.step].name := vs[0]]);
      assert vs[0].Type() == Fields[w.step + 0].Type();
      assert Script(vs) == [Enter(vs[0]), PressNext] + Script(vs[1..]);
      AnswerThenNext(w, vs[0], Script(vs[1..]));
      assert forall i :: 0 <= i < |vs[1..]| ==> vs[1..][i].Type() == Fields[w'.step + i].Type() by {
        forall i | 0 <= i < |vs[1..]|
          ensures vs[1..][i].Type() == Fields[w'.step + i].Type()
        {
          assert vs[1..][i] == vs[i + 1];
        }
      }
      ScriptRun(w', vs[1..]);
      assert Fill(w.answers, w.step, vs) == Fill(w'.answers, w'.step, vs[1..]);
    }
  }

  /** Answering all five questions, in order, with the given values. */
  function AnswerAll(b0: bool, km: int, seats: int, b3: bool, price: int): seq<Event> {
    Script([BoolVal(b0), NumVal(km), NumVal(seats), BoolVal(b3), NumVal(price)])
  }

  /** The answer set after entering the five values in order. */
  function Answered(b0: bool, km: int, seats: int, b3: bool, price: int): AnswerSet {
    map["hasChargersNearby" := BoolVal(b0), "dailyKilometers" := NumVal(km),
        "seatingCapacity" := NumVal(seats), "needsLargeTrunk" := BoolVal(b3),
        "priceLimit" := NumVal(price)]
  }

  /** Writing the five values from the first field on gives the answered set. */
  lemma FillAll(b0: bool, km: int, seats: int, b3: bool, price: int)
    ensures Fill(map[], 0, [BoolVal(b0), NumVal(km), NumVal(seats), BoolVal(b3), NumVal(price)]) ==
              Answered(b0, km, seats, b3, price)
  {
    var vs := [BoolVal(b0), NumVal(km), NumVal(seats), BoolVal(b3), NumVal(price)];
    var a1 := map["hasChargersNearby" := BoolVal(b0)];
    var a2 := a1["dailyKilometers" := NumVal(km)];
    var a3 := a2["seatingCapacity" := NumVal(seats)];
    var a4 := a3["needsLargeTrunk" := BoolVal(b3)];
    var a5 := a4["priceLimit" := NumVal(price)];
    assert Fill(a5, 5, []) == a5;
    assert Fill(a4, 4, [NumVal(price)]) == a5;
    assert Fill(a3, 3, [BoolVal(b3), NumVal(price)]) == a5;
    assert Fill(a2, 2, [NumVal(seats), BoolVal(b3), NumVal(price)]) == a5;
    assert Fill(a1, 1, vs[1..]) == a5;
    assert a5 == Answered(b0, km, seats, b3, price);
  }

  /** Submitting in-range answers to all five questions emits exactly those answers. */
  lemma {:induction false} SubmitAnswered(b0: bool, km: int, seats: int, b3: bool, price: int)
    requires 1 <= km <= 1000 && 1 <= seats <= 8 && 10000 <= price <= 200000
    ensures ValidateAll(Answered(b0, km, seats, b3, price)) == Success(Payload(b0, km, seats, b3, price))
  {
    var p := Payload(b0, km, seats, b3, price);
    assert Answered(b0, km, seats, b3, price) == ToAnswers(p);
    ConformsMeans(p);
    SubmitRoundTrip(p);
  }

  /**
    Answering every question and pressing "Next" five times ends on the
    last step and emits exactly one payload, equal to the values entered,
    whenever those values satisfy the schema.
   */
  lemma {:induction false} AnswerAllEmitsOnce(b0: bool, km: int, seats: int, b3: bool, price: int)
    requires 1 <= km <= 1000 && 1 <= seats <= 8 && 10000 <= price <= 200000
    ensures Run(Initial, AnswerAll(b0, km, seats, b3, price)) ==
              Trace(Wizard(4, Answered(b0, km, seats, b3, price)), [Payload(b0, km, seats, b3, price)])
  {
    var vs := [BoolVal(b0), NumVal(km), NumVal(seats), BoolVal(b3), NumVal(price)];
    ScriptRun(Initial, vs);
    FillAll(b0, km, seats, b3, price);
    SubmitAnswered(b0, km, seats, b3, price);
  }

  /** The worked example: chargers nearby, 40 km a day, 4 seats, no large trunk, 35000. */
  lemma ReferenceSubmission()
    ensures Run(Initial, AnswerAll(true, 40, 4, false, 35000)).emitted == [Payload(true, 40, 4, false, 35000)]
  {
    AnswerAllEmitsOnce(true, 40, 4, false, 35000);
  }

  /**
    Moving forward does not validate: a daily distance of 0 entered on the
    second question still advances to the third; the rejection only
    surfaces when the form is submitted.
   */
  lemma {:induction false} ZeroKilometersAdvances(a: AnswerSet)
    ensures Run(Wizard(1, a), [Enter(NumVal(0)), PressNext]).final == Wizard(2, a["dailyKilometers" := NumVal(0)])
    ensures Run(Wizard(1, a), [Enter(NumVal(0)), PressNext]).emitted == []
    ensures ValidateAll(a["dailyKilometers" := NumVal(0)]).Failure?
    ensures Issue("dailyKilometers", TooSmall) in ValidateAll(a["dailyKilometers" := NumVal(0)]).error
  {
    var es := [Enter(NumVal(0)), PressNext];
    var a' := a["dailyKilometers" := NumVal(0)];
    assert Run(Wizard(2, a'), es[2..]) == Trace(Wizard(2, a'), []);
    assert Run(Wizard(1, a'), es[1..]) == Trace(Wizard(2, a'), []);
    assert !Accepts(a', Fields[1]);
    assert IssueOf(a', Fields[1]) == Issue("dailyKilometers", TooSmall);
  }

  /** Leaving both checkboxes untouched submits them as false. */
  lemma {:induction false} UntouchedCheckboxesSubmitFalse(km: int, seats: int, price: int)
    requires 1 <= km <= 1000 && 1 <= seats <= 8 && 10000 <= price <= 200000
    ensures ValidateAll(map["dailyKilometers" := NumVal(km), "seatingCapacity" := NumVal(seats),
                            "priceLimit" := NumVal(price)])
            == Success(Payload(false, km, seats, false, price))
  {
    var a := map["dailyKilometers" := NumVal(km), "seatingCapacity" := NumVal(seats), "priceLimit" := NumVal(price)];
    var p := Payload(false, km, seats, false, price);
    assert forall i :: 0 <= i < N ==> Accepts(a, Fields[i]);
    var q := ValidateAll(a).value;
    ConformsMeans(p);
    assert Reports(a, p);
    ReportsDetermines(a, q, p);
  }
}
