/**
  Whole-schema validation of the answer set and the payload it produces on
  success: every field is checked, every failing field is reported, and the
  payload carries the accepted values with unset booleans filled in.
 */
module Submission {
  import opened Wrappers
  import opened FormSchema

  /** The form's values object: field name to current value; a missing key is an unset field. */
  type AnswerSet = map<string, Value>

  /** The current value of the field called `name`, if any. */
  function Lookup(a: AnswerSet, name: string): Option<Value> {
    if name in a then Some(a[name]) else None
  }

  /** One rejected field and why. */
  datatype Issue = Issue(field: string, kind: ErrorKind)

  /** The validated answers handed to the submit handler. */
  datatype Payload = Payload(
    hasChargersNearby: bool,
    dailyKilometers: int,
    seatingCapacity: int,
    needsLargeTrunk: bool,
    priceLimit: int)

  /** The payload's values in schema order. */
  function Values(p: Payload): (vs: seq<Value>)
    ensures |vs| == N
    ensures forall i :: 0 <= i < N ==> vs[i].Type() == Fields[i].Type()
  {
    [BoolVal(p.hasChargersNearby), NumVal(p.dailyKilometers), NumVal(p.seatingCapacity),
     BoolVal(p.needsLargeTrunk), NumVal(p.priceLimit)]
  }

  /** Whether field `f` passes validation against the answers. */
  predicate Accepts(a: AnswerSet, f: Field) {
    Admissible(f, Lookup(a, f.name))
  }

  /** The issue reported for a field that fails validation. */
  function IssueOf(a: AnswerSet, f: Field): Issue
    requires !Accepts(a, f)
  {
    Issue(f.name, Validate(f, Lookup(a, f.name)).error)
  }

  /** `e` is the issue of some failing field of `fs`. */
  ghost predicate RaisedBy(a: AnswerSet, fs: seq<Field>, e: Issue) {
    exists i :: 0 <= i < |fs| && !Accepts(a, fs[i]) && e == IssueOf(a, fs[i])
  }

  /** An issue raised by a later field is raised by the whole sequence. */
  lemma RaisedByTail(a: AnswerSet, fs: seq<Field>, e: Issue)
    requires |fs| > 0 && RaisedBy(a, fs[1..], e)
    ensures RaisedBy(a, fs, e)
  {
    var j :| 0 <= j < |fs[1..]| && !Accepts(a, fs[1..][j]) && e == IssueOf(a, fs[1..][j]);
    assert fs[j + 1] == fs[1..][j];
  }

  /**
    Validates every field of `fs` in order, without stopping at the first
    failure: the validated values when all pass, otherwise the issues of
    every failing field and of no other.
   */
  function ValidateFields(a: AnswerSet, fs: seq<Field>): (r: Result<seq<Value>, seq<Issue>>)
    ensures r.Success? <==> forall i :: 0 <= i < |fs| ==> Accepts(a, fs[i])
    ensures r.Success? ==> |r.value| == |fs|
    ensures r.Success? ==>
              forall i :: 0 <= i < |fs| ==> Validate(fs[i], Lookup(a, fs[i].name)) == Success(r.value[i])
    ensures r.Failure? ==> |r.error| > 0
    ensures r.Failure? ==>
              forall i :: 0 <= i < |fs| && !Accepts(a, fs[i]) ==> IssueOf(a, fs[i]) in r.error
    ensures r.Failure? ==> forall e :: e in r.error ==> RaisedBy(a, fs, e)
    decreases |fs|
  {
    if fs == [] then Success([])
    else
      var head := Validate(fs[0], Lookup(a, fs[0].name));
      var rest := ValidateFields(a, fs[1..]);
      assert forall i :: 1 <= i < |fs| ==> fs[i] == fs[1..][i - 1];
      match rest
      case Success(vs) =>
        (match head
         case Success(v) => Success([v] + vs)
         case Failure(k) =>
           assert RaisedBy(a, fs, Issue(fs[0].name, k));
           Failure([Issue(fs[0].name, k)]))
      case Failure(es) =>
        assert forall e :: e in es ==> RaisedBy(a, fs, e) by {
          forall e | e in es
            ensures RaisedBy(a, fs, e)
          {
            RaisedByTail(a, fs, e);
          }
        }
        (match head
         case Success(_) => Failure(es)
         case Failure(k) =>
           assert RaisedBy(a, fs, Issue(fs[0].name, k));
           Failure([Issue(fs[0].name, k)] + es))
  }

  /** Assembles the payload from values that have the schema's types. */
  function FromValues(vs: seq<Value>): (p: Payload)
    requires |vs| == N
    requires forall i :: 0 <= i < N ==> vs[i].Type() == Fields[i].Type()
    ensures Values(p) == vs
  {
    assert vs[0].Type() == Fields[0].Type() == Bool && vs[1].Type() == Fields[1].Type() == Num;
    assert vs[2].Type() == Fields[2].Type() == Num && vs[3].Type() == Fields[3].Type() == Bool;
    assert vs[4].Type() == Fields[4].Type() == Num;
    Payload(vs[0].b, vs[1].n, vs[2].n, vs[3].b, vs[4].n)
  }

  /** Every field of the payload satisfies the schema. */
  predicate Conforms(p: Payload) {
    forall i :: 0 <= i < N ==> Admissible(Fields[i], Some(Values(p)[i]))
  }

  /**
    The payload reports the answers: each field holds the answer given, or,
    for a boolean left unset, false.
   */
  predicate Reports(a: AnswerSet, p: Payload) {
    forall i :: 0 <= i < N ==>
      Lookup(a, Fields[i].name) == Some(Values(p)[i]) ||
      (Lookup(a, Fields[i].name) == None && Fields[i].rule.OptionalBool? && Values(p)[i] == BoolVal(false))
  }

  /** Whole-schema validation: the payload when every field passes, otherwise every field's issue. */
  function ValidateAll(a: AnswerSet): (r: Result<Payload, seq<Issue>>)
    ensures r.Success? <==> forall i :: 0 <= i < N ==> Accepts(a, Fields[i])
    ensures r.Success? ==> Conforms(r.value) && Reports(a, r.value)
    ensures r.Failure? ==> |r.error| > 0
    ensures r.Failure? ==>
              forall i :: 0 <= i < N && !Accepts(a, Fields[i]) ==> IssueOf(a, Fields[i]) in r.error
    ensures r.Failure? ==> forall e :: e in r.error ==> RaisedBy(a, Fields, e)
  {
    match ValidateFields(a, Fields)
    case Success(vs) =>
      assert forall i :: 0 <= i < N ==> vs[i].Type() == Fields[i].Type();
      Success(FromValues(vs))
    case Failure(es) => Failure(es)
  }

  /** The answer set that gives every field the payload's value. */
  function ToAnswers(p: Payload): (a: AnswerSet)
    ensures forall i :: 0 <= i < N ==> Lookup(a, Fields[i].name) == Some(Values(p)[i])
  {
    map[
      "hasChargersNearby" := BoolVal(p.hasChargersNearby),
      "dailyKilometers" := NumVal(p.dailyKilometers),
      "seatingCapacity" := NumVal(p.seatingCapacity),
      "needsLargeTrunk" := BoolVal(p.needsLargeTrunk),
      "priceLimit" := NumVal(p.priceLimit)]
  }

  /** A payload determines its values, so two payloads reporting the same values are equal. */
  lemma ValuesInjective(p: Payload, q: Payload)
    requires Values(p) == Values(q)
    ensures p == q
  {
    assert Values(p)[0] == Values(q)[0] && Values(p)[1] == Values(q)[1];
    assert Values(p)[2] == Values(q)[2] && Values(p)[3] == Values(q)[3];
    assert Values(p)[4] == Values(q)[4];
  }

  /** Round trip: submitting the answers of a conforming payload yields that payload. */
  lemma {:induction false} SubmitRoundTrip(p: Payload)
    requires Conforms(p)
    ensures ValidateAll(ToAnswers(p)) == Success(p)
  {
    var a := ToAnswers(p);
    assert forall i :: 0 <= i < N ==> Accepts(a, Fields[i]);
    var q := ValidateAll(a).value;
    forall i | 0 <= i < N
      ensures Values(q)[i] == Values(p)[i]
    {
      assert Reports(a, q);
    }
    ValuesInjective(q, p);
  }

  /** The payload is determined by the answers: nothing else goes into it. */
  lemma {:induction false} ReportsDetermines(a: AnswerSet, p: Payload, q: Payload)
    requires Reports(a, p) && Reports(a, q)
    ensures p == q
  {
    forall i | 0 <= i < N
      ensures Values(p)[i] == Values(q)[i]
    {
    }
    ValuesInjective(p, q);
  }

  /** The conformance the schema states, written with its constants. */
  lemma ConformsMeans(p: Payload)
    ensures Conforms(p) <==>
              1 <= p.dailyKilometers <= 1000 &&
              1 <= p.seatingCapacity <= 8 &&
              10000 <= p.priceLimit <= 200000
  {
    if Conforms(p) {
      assert Admissible(Fields[1], Some(Values(p)[1]));
      assert Admissible(Fields[2], Some(Values(p)[2]));
      assert Admissible(Fields[4], Some(Values(p)[4]));
    }
    if 1 <= p.dailyKilometers <= 1000 && 1 <= p.seatingCapacity <= 8 && 10000 <= p.priceLimit <= 200000 {
      forall i | 0 <= i < N
        ensures Admissible(Fields[i], Some(Values(p)[i]))
      {
      }
    }
  }

  /** An unset numeric field blocks submission and is reported as missing. */
  lemma {:induction false} MissingNumberBlocks(a: AnswerSet, i: int)
    requires IsNumeric(i) && Fields[i].name !in a
    ensures ValidateAll(a).Failure?
    ensures Issue(Fields[i].name, Required) in ValidateAll(a).error
  {
    assert !Accepts(a, Fields[i]);
    assert IssueOf(a, Fields[i]) == Issue(Fields[i].name, Required);
  }

  /** Unset booleans do not block submission and are reported as false. */
  lemma {:induction false} UnsetBooleansDefault(a: AnswerSet, i: int)
    requires 0 <= i < N && !IsNumeric(i) && Fields[i].name !in a
    requires ValidateAll(a).Success?
    ensures Values(ValidateAll(a).value)[i] == BoolVal(false)
  {
    assert Reports(a, ValidateAll(a).value);
    assert Lookup(a, Fields[i].name) == None;
  }

  /** Every schema field that has an answer holds a value of the field's type. */
  predicate WellTyped(a: AnswerSet) {
    forall i :: 0 <= i < N && Fields[i].name in a ==> a[Fields[i].name].Type() == Fields[i].Type()
  }

  /** A field holding a value of its own type is never rejected for its type. */
  lemma IssueNotMismatch(a: AnswerSet, f: Field)
    requires !Accepts(a, f)
    requires f.name in a ==> a[f.name].Type() == f.Type()
    ensures IssueOf(a, f).kind != TypeMismatch
  {
    if f.name in a {
      assert Lookup(a, f.name) == Some(a[f.name]);
    }
  }

  /** Answers of the right types can fail validation only as missing or out of range, never as a type mismatch. */
  lemma {:induction false} WellTypedNoMismatch(a: AnswerSet)
    requires WellTyped(a)
    ensures ValidateAll(a).Failure? ==> forall e :: e in ValidateAll(a).error ==> e.kind != TypeMismatch
  {
    var r := ValidateAll(a);
    if r.Failure? {
      forall e | e in r.error
        ensures e.kind != TypeMismatch
      {
        assert RaisedBy(a, Fields, e);
        var i :| 0 <= i < N && !Accepts(a, Fields[i]) && e == IssueOf(a, Fields[i]);
        IssueNotMismatch(a, Fields[i]);
      }
    }
  }
}
