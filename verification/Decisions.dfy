/** Structured decisions: what a provider may answer, and how a browser target is
    chosen from an observed page without ever being invented. */
module Decisions {
  import opened Text

  predicate Bounded(value: string, max: nat) {
    !Blank(value) && |value| <= max && '\0' !in value
  }

  predicate Probability(x: real) {
    0.0 <= x <= 1.0
  }

  /** The options of a choice question with their descriptions. */
  type Question = map<string, string>

  datatype Request = Request(model: string, questions: map<string, Question>)

  datatype Answer =
    | Choice(choice: string, probabilities: map<string, real>, confidence: real)
    | OtherKind

  datatype Response = Response(model: string, answers: map<string, Answer>)

  predicate ValidQuestion(q: Question) {
    2 <= |q| <= 255 && forall k :: k in q ==> Bounded(k, 128) && (q[k] == "" || Bounded(q[k], 4000))
  }

  /** `fits`: the encoded request stays within the transport limit. */
  predicate ValidRequest(r: Request, fits: Request -> bool) {
    && Bounded(r.model, 128) && 1 <= |r.questions| <= 64
    && (forall id :: id in r.questions ==> Bounded(id, 128) && ValidQuestion(r.questions[id]))
    && fits(r)
  }

  /** No missing answer, no invented option, a proper distribution in which the
      choice is the most likely option up to the tolerance. */
  predicate ValidAnswer(q: Question, a: Answer, distribution: map<string, real> -> bool) {
    && a.Choice? && a.choice in q && a.probabilities.Keys == q.Keys
    && (forall k :: k in a.probabilities ==> Probability(a.probabilities[k]))
    && distribution(a.probabilities) && Probability(a.confidence)
    && forall k :: k in a.probabilities ==> a.probabilities[k] <= a.probabilities[a.choice] + 0.000001
  }

  predicate ValidResponse(r: Response, request: Request, fits: Request -> bool, distribution: map<string, real> -> bool) {
    && ValidRequest(request, fits)
    && Bounded(r.model, 128) && r.answers.Keys == request.questions.Keys
    && forall id :: id in request.questions ==> ValidAnswer(request.questions[id], r.answers[id], distribution)
  }

  function Chosen(r: Response, id: string, minimum: real): Option<string> {
    if Probability(minimum) && id in r.answers && r.answers[id].Choice? && r.answers[id].confidence >= minimum
    then Some(r.answers[id].choice) else None
  }

  // ------------------------------------------------------------ browser targets

  datatype Operation = Click | TypeText | Select

  function NameOf(op: Operation): string {
    match op
    case Click => "click"
    case TypeText => "type_text"
    case Select => "select"
  }

  datatype Element = Element(id: string, description: string, operations: seq<Operation>)

  datatype Observation = Observation(id: string, url: string, elements: seq<Element>)

  datatype Selection = Selection(observationId: string, operation: string, elementId: Option<string>, decision: Response)

  predicate UniqueIds(elements: seq<Element>) {
    forall i, j :: 0 <= i < j < |elements| ==> elements[i].id != elements[j].id
  }

  predicate ValidElement(e: Element) {
    Bounded(e.id, 128) && e.id != "none" && Bounded(e.description, 2000) && |e.operations| <= 3
  }

  predicate ValidObservation(goal: string, o: Observation, minimum: real) {
    && Bounded(goal, 16000) && Bounded(o.id, 128) && |o.url| <= 4000 && |o.elements| <= 254
    && Probability(minimum)
    && (forall i :: 0 <= i < |o.elements| ==> ValidElement(o.elements[i]))
    && UniqueIds(o.elements)
  }

  function Targets(elements: seq<Element>, op: Operation): (r: map<string, string>)
    ensures forall id :: id in r <==> Offers(elements, op, id)
  {
    if elements == [] then map[]
    else
      var rest, e := Targets(elements[..|elements| - 1], op), elements[|elements| - 1];
      assert elements == elements[..|elements| - 1] + [e];
      if op in e.operations then rest[e.id := e.description] else rest
  }

  /** Some observed element with this id supports the operation. */
  ghost predicate Offers(elements: seq<Element>, op: Operation, id: string) {
    exists e :: e in elements && e.id == id && op in e.operations
  }

  const NONE := "none"

  function NoAction(): Question {
    map["wait" := "Wait for the page to change",
        "done" := "The visible page appears to satisfy the goal",
        "blocked" := "Unsupported action or insufficient evidence"]
  }

  predicate Available(o: Observation, op: Operation) {
    Targets(o.elements, op).Keys != {}
  }

  /** Ask which element, if any supports the operation. */
  function AskTarget(o: Observation, questions: map<string, Question>, op: Operation): map<string, Question> {
    if Available(o, op) then questions[NameOf(op) := Targets(o.elements, op)[NONE := "No suitable observed target"]]
    else questions
  }

  /** Offer the operation itself under the same condition. */
  function AskOperation(o: Observation, options: Question, op: Operation): Question {
    if Available(o, op) then options[NameOf(op) := "Act on a suitable observed element"] else options
  }

  function TargetQuestions(o: Observation): map<string, Question> {
    AskTarget(o, AskTarget(o, AskTarget(o, map[], Click), TypeText), Select)
  }

  function OperationOptions(o: Observation): Question {
    AskOperation(o, AskOperation(o, AskOperation(o, NoAction(), Click), TypeText), Select)
  }

  function RequestFor(model: string, o: Observation): Request {
    Request(model, TargetQuestions(o)["operation" := OperationOptions(o)])
  }

  function Named(name: string): Option<Operation> {
    if name == NameOf(Click) then Some(Click)
    else if name == NameOf(TypeText) then Some(TypeText)
    else if name == NameOf(Select) then Some(Select)
    else None
  }

  /** The selection made from a validated response. */
  function Interpret(o: Observation, r: Response, minimum: real): Selection {
    var chosen := Chosen(r, "operation", minimum);
    var operation := if chosen.Some? then chosen.value else "blocked";
    if Named(operation).Some? then
      var target := Chosen(r, operation, minimum);
      if target.Some? && target.value != NONE then Selection(o.id, operation, target, r)
      else Selection(o.id, "blocked", None, r)
    else Selection(o.id, operation, None, r)
  }

  lemma NamesDiffer(a: Operation, b: Operation)
    ensures NameOf(a) == NameOf(b) ==> a == b
    ensures NameOf(a) != "operation" && NameOf(a) !in NoAction()
  {
    assert NameOf(Click)[0] == 'c' && NameOf(TypeText)[0] == 't' && NameOf(Select)[0] == 's';
    assert "operation"[0] == 'o' && "wait"[0] == 'w' && "done"[0] == 'd' && "blocked"[0] == 'b';
  }

  lemma QuestionsCover(o: Observation, op: Operation)
    ensures NameOf(op) in OperationOptions(o) <==> Available(o, op)
    ensures Available(o, op) ==>
              && NameOf(op) in TargetQuestions(o)
              && TargetQuestions(o)[NameOf(op)].Keys == Targets(o.elements, op).Keys + {NONE}
  {
    NamesDiffer(op, Click);
    NamesDiffer(op, TypeText);
    NamesDiffer(op, Select);
    hide NameOf, Targets, NoAction, Available;
  }

  lemma NamedIs(name: string)
    requires Named(name).Some?
    ensures NameOf(Named(name).value) == name
  {
    hide NameOf;
  }

  /** The validated answer to a question picks one of its options. */
  lemma ChosenIsOption(r: Response, request: Request, id: string, minimum: real,
                       fits: Request -> bool, distribution: map<string, real> -> bool)
    requires ValidResponse(r, request, fits, distribution) && Chosen(r, id, minimum).Some?
    ensures id in request.questions && Chosen(r, id, minimum).value in request.questions[id]
  {
    hide ValidRequest, Bounded;
    assert id in r.answers.Keys;
  }

  /** A validated response answers every question asked and no other, each with one of
      its options, which no other option outweighs, and with probabilities for exactly
      the options. */
  lemma ResponseIsSound(r: Response, request: Request, id: string, fits: Request -> bool, distribution: map<string, real> -> bool)
    requires ValidResponse(r, request, fits, distribution)
    ensures id in r.answers <==> id in request.questions
    ensures id in r.answers ==>
              && r.answers[id].Choice? && var Choice(choice, probabilities, confidence) := r.answers[id];
              && choice in request.questions[id] && choice in probabilities && 0.0 <= confidence <= 1.0
              && (forall k :: k in probabilities <==> k in request.questions[id])
              && forall k :: k in probabilities ==>
                   0.0 <= probabilities[k] <= 1.0 && probabilities[k] <= probabilities[choice] + 0.000001
  {
    hide ValidRequest, Bounded;
    assert id in r.answers.Keys <==> id in request.questions.Keys;
    if id in r.answers {
      var a := r.answers[id];
      assert forall k :: k in a.probabilities.Keys <==> k in request.questions[id].Keys;
    }
  }

  lemma InterpretReads(o: Observation, r: Response, minimum: real)
    ensures var s := Interpret(o, r, minimum);
            s.elementId.Some? ==>
              && Named(s.operation).Some? && NameOf(Named(s.operation).value) == s.operation
              && Chosen(r, "operation", minimum) == Some(s.operation)
              && Chosen(r, s.operation, minimum) == s.elementId && s.elementId.value != NONE
  {
    hide Chosen;
    var s := Interpret(o, r, minimum);
    if s.elementId.Some? {
      NamedIs(s.operation);
    }
  }

  lemma RequestAsks(model: string, o: Observation, op: Operation, target: string)
    requires NameOf(op) in RequestFor(model, o).questions["operation"]
    requires NameOf(op) in RequestFor(model, o).questions && target in RequestFor(model, o).questions[NameOf(op)]
    requires target != NONE
    ensures Offers(o.elements, op, target)
  {
    NamesDiffer(op, op);
    QuestionsCover(o, op);
    hide NameOf, TargetQuestions, OperationOptions, NoAction;
  }

  /** The provider chose this option for this question, with enough confidence. */
  predicate Sure(r: Response, id: string, option: string, minimum: real) {
    id in r.answers && r.answers[id].Choice? && r.answers[id].choice == option && r.answers[id].confidence >= minimum
  }

  /** An element is selected for an operation exactly when the threshold is a
      probability and the provider reaches it both for the operation and for that
      element; otherwise no operation on an element is named. */
  lemma SelectionIsConfident(o: Observation, r: Response, minimum: real, op: Operation, x: string)
    ensures var s := Interpret(o, r, minimum);
            && s.observationId == o.id && s.decision == r
            && (Named(s.operation).Some? <==> s.elementId.Some?)
            && (s.operation == NameOf(op) && s.elementId == Some(x) <==>
                  && 0.0 <= minimum <= 1.0 && x != NONE
                  && Sure(r, "operation", NameOf(op), minimum) && Sure(r, NameOf(op), x, minimum))
  {
    NamesDiffer(op, op);
    assert Named("blocked").None? by {
      NamesDiffer(Click, Click);
      NamesDiffer(TypeText, TypeText);
      NamesDiffer(Select, Select);
      assert "blocked" in NoAction();
    }
    assert Named(NameOf(op)).Some?;
    hide NameOf, NoAction, Named;
  }

  /** A selected target is always one the page offered for that very operation. */
  lemma SelectionIsObserved(model: string, o: Observation, r: Response, minimum: real,
                            fits: Request -> bool, distribution: map<string, real> -> bool)
    requires ValidResponse(r, RequestFor(model, o), fits, distribution)
    ensures var s := Interpret(o, r, minimum);
            s.elementId.Some? ==>
              && Named(s.operation).Some? && NameOf(Named(s.operation).value) == s.operation
              && Offers(o.elements, Named(s.operation).value, s.elementId.value)
  {
    hide NameOf, Named, Targets, RequestFor, ValidResponse, Chosen, Interpret, Offers;
    var s := Interpret(o, r, minimum);
    InterpretReads(o, r, minimum);
    if s.elementId.Some? {
      var request := RequestFor(model, o);
      ChosenIsOption(r, request, "operation", minimum, fits, distribution);
      ChosenIsOption(r, request, s.operation, minimum, fits, distribution);
      RequestAsks(model, o, Named(s.operation).value, s.elementId.value);
    }
  }
}
