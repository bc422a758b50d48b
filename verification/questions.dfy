/**
  The ordered question list: one question per schema field, each naming the
  field it edits, the prompt shown, and the input control used to edit it.
 */
module Questions {
  import opened FormSchema

  /** The input control a question renders. */
  datatype InputKind = Checkbox | NumberInput

  datatype Question = Question(name: string, prompt: string, input: InputKind)

  /** The capability table: which control edits which value type. */
  function InputFor(t: ValueType): InputKind {
    match t
    case Bool => Checkbox
    case Num => NumberInput
  }

  /** The value type a control produces. */
  function Produces(k: InputKind): ValueType {
    match k
    case Checkbox => Bool
    case NumberInput => Num
  }

  const Questions: seq<Question> := [
    Question("hasChargersNearby", "Do you have electric chargers close to your location?", Checkbox),
    Question("dailyKilometers", "How many kilometers do you drive daily (on average)?", NumberInput),
    Question("seatingCapacity", "Seating Capacity Needed", NumberInput),
    Question("needsLargeTrunk", "Do you need a large trunk?", Checkbox),
    Question("priceLimit", "What is your price limit?", NumberInput)
  ]

  /** The question asked at `step`; the page indexes the list directly. */
  function QuestionAt(step: int): (q: Question)
    requires 0 <= step < N
    ensures q.name == Fields[step].name
    ensures q.input == InputFor(Fields[step].Type())
    ensures Produces(q.input) == Fields[step].Type()
  {
    Questions[step]
  }

  /**
    The question list and the schema agree: one question per field, in the
    same order, with unique names that are exactly the schema's keys, and
    each control producing the value type its field declares.
   */
  lemma QuestionsMatchSchema()
    ensures |Questions| == N
    ensures forall i :: 0 <= i < N ==> Questions[i].name == Fields[i].name
    ensures forall i, j :: 0 <= i < j < N ==> Questions[i].name != Questions[j].name
    ensures (set q | q in Questions :: q.name) == (set f | f in Fields :: f.name)
    ensures forall i :: 0 <= i < N ==> Produces(Questions[i].input) == Fields[i].Type()
    ensures forall i :: 0 <= i < N ==> (Questions[i].input == Checkbox <==> !IsNumeric(i))
  {
  }
}
