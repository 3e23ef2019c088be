/** Reusable browser steps run against an arbitrary browser, decision provider and
    assistant. */
module Workflow {
  import opened Text
  import opened Decisions

  datatype Step = Step(goal: string, operation: Operation, labels: seq<string>, valueKey: Option<string>)

  datatype Workflow = Workflow(name: string, allowedUrls: seq<string>, steps: seq<Step>)

  predicate WebUrl(url: string) {
    "https://" <= url || "http://" <= url
  }

  predicate ValidStep(s: Step) {
    && Bounded(s.goal, 2000)
    && 1 <= |s.labels| <= 16 && (forall i :: 0 <= i < |s.labels| ==> Bounded(s.labels[i], 256))
    && if s.operation.Click? then s.valueKey.None? else s.valueKey.Some? && Bounded(s.valueKey.value, 128)
  }

  predicate ValidWorkflow(w: Workflow) {
    && Bounded(w.name, 128)
    && 1 <= |w.allowedUrls| <= 16
    && (forall i :: 0 <= i < |w.allowedUrls| ==> Bounded(w.allowedUrls[i], 4000) && WebUrl(w.allowedUrls[i]))
    && 1 <= |w.steps| <= 16 && (forall i :: 0 <= i < |w.steps| ==> ValidStep(w.steps[i]))
  }

  /** The complete run is checked before a browser is opened. */
  predicate ValidRun(w: Workflow, model: string, values: map<string, string>, expected: seq<string>, minimum: real) {
    && ValidWorkflow(w)
    && Bounded(model, 128) && Probability(minimum)
    && 1 <= |expected| <= 16 && (forall i :: 0 <= i < |expected| ==> Bounded(expected[i], 1000))
    && |values| <= 16 && (forall k :: k in values ==> Bounded(k, 128) && |values[k]| <= 4000)
    && (forall i :: 0 <= i < |w.steps| && w.steps[i].valueKey.Some? ==> w.steps[i].valueKey.value in values)
  }

  datatype Snapshot = Snapshot(observation: Observation, text: string)

  /** Everything outside: what the k-th call on each party returns. Any behaviour,
      however it depends on the past, shows itself as such a table in one run. */
  datatype World = World(
    observe: nat -> Option<Snapshot>,
    apply: nat -> bool,
    decide: (nat, Request) -> Option<Response>,
    assistantEnabled: bool,
    assist: nat -> Option<string>,
    fits: Request -> bool,
    distribution: map<string, real> -> bool)

  datatype Selector = Decision | ReasoningAgent

  datatype Receipt = Receipt(observationId: string, elementId: string, operation: Operation, selectedBy: Selector, confirmed: bool)

  datatype Reason =
    | ChecksNotMatched | ObservationFailed | PageOutOfScope | PostconditionAlreadyPresent | AmbiguousTarget
    | TargetUnavailable | DecisionFailed | DecisionHandback | ActionOutcomeUnconfirmed
    | VerificationUnavailable | ChecksMatched

  datatype Report = Report(
    checksMatched: bool, completedSteps: nat, reason: Reason, decisions: seq<Selection>,
    baseline: Option<string>, verification: Option<string>, actions: seq<Receipt>, handoffs: nat)

  /** One call of `apply`, as the browser receives it. */
  datatype Application = Application(snapshot: Snapshot, operation: Operation, elementId: string, value: Option<string>)

  // ------------------------------------------------------------------- targets

  predicate Approved(step: Step, e: Element) {
    e.description in step.labels && step.operation in e.operations
  }

  /** The approved elements, each reduced to the step's operation. */
  function Narrow(elements: seq<Element>, step: Step): (r: seq<Element>)
    ensures forall e :: e in r ==> e.operations == [step.operation] && HasApproved(elements, step, e.id)
    ensures forall e :: e in elements && Approved(step, e) ==> e.(operations := [step.operation]) in r
  {
    if elements == [] then []
    else
      var rest, e := Narrow(elements[..|elements| - 1], step), elements[|elements| - 1];
      assert elements == elements[..|elements| - 1] + [e];
      if Approved(step, e) then rest + [e.(operations := [step.operation])] else rest
  }

  /** The page as a step sees it. */
  function Narrowed(o: Observation, step: Step): Observation {
    o.(elements := Narrow(o.elements, step))
  }

  /** The page shows an element with this id, an approved label and the operation. */
  ghost predicate HasApproved(elements: seq<Element>, step: Step, id: string) {
    exists e :: e in elements && e.id == id && e.description in step.labels && step.operation in e.operations
  }

  predicate UniqueLabels(elements: seq<Element>) {
    forall i, j :: 0 <= i < j < |elements| ==> elements[i].description != elements[j].description
  }

  predicate HasId(elements: seq<Element>, id: string) {
    exists i :: 0 <= i < |elements| && elements[i].id == id
  }

  function ValueFor(step: Step, values: map<string, string>): Option<string> {
    if step.valueKey.Some? && step.valueKey.value in values then Some(values[step.valueKey.value]) else None
  }

  predicate ContainsAny(text: string, expected: seq<string>) {
    exists i :: 0 <= i < |expected| && Contains(text, expected[i])
  }

  predicate ContainsAll(text: string, expected: seq<string>) {
    forall i :: 0 <= i < |expected| ==> Contains(text, expected[i])
  }

  /** `browser_action`: ask, validate, interpret. A selection is made exactly when the
      page is acceptable and the provider answers validly, and its target is one that
      the page offers for the selected operation. */
  function BrowserAction(world: World, k: nat, model: string, goal: string, o: Observation, minimum: real)
    : (selection: Option<Selection>)
    ensures selection.Some? <==> ValidObservation(goal, o, minimum) && Answers(world, k, RequestFor(model, o))
    ensures selection.Some? && selection.value.elementId.Some? ==>
              Named(selection.value.operation).Some?
              && NameOf(Named(selection.value.operation).value) == selection.value.operation
              && Offers(o.elements, Named(selection.value.operation).value, selection.value.elementId.value)
  {
    var request := RequestFor(model, o);
    if ValidObservation(goal, o, minimum) && Answers(world, k, request) then
      var response := world.decide(k, request).value;
      SelectionIsObserved(model, o, response, minimum, world.fits, world.distribution);
      Some(Interpret(o, response, minimum))
    else None
  }

  /** The selection is the provider's answer read at the threshold. */
  lemma BrowserActionIsConfident(world: World, k: nat, model: string, goal: string, o: Observation, minimum: real,
                                 op: Operation, x: string)
    requires BrowserAction(world, k, model, goal, o, minimum).Some?
    ensures var s := BrowserAction(world, k, model, goal, o, minimum).value;
            && world.decide(k, RequestFor(model, o)) == Some(s.decision) && s.observationId == o.id
            && (s.operation == NameOf(op) && s.elementId == Some(x) <==>
                  x != NONE && Sure(s.decision, "operation", NameOf(op), minimum) && Sure(s.decision, NameOf(op), x, minimum))
  {
    SelectionIsConfident(o, world.decide(k, RequestFor(model, o)).value, minimum, op, x);
    hide Interpret, RequestFor, NameOf, Sure, Offers, Named, ValidResponse, UniqueIds, ValidElement;
  }

  predicate Answers(world: World, k: nat, request: Request) {
    world.decide(k, request).Some? && ValidResponse(world.decide(k, request).value, request, world.fits, world.distribution)
  }

  // ------------------------------------------------------------------ one step

  /** What every `apply` call satisfies: it carries out step `i` on an element that
      the page, itself in scope, showed under an approved label. */
  ghost predicate Sound(w: Workflow, values: map<string, string>, i: nat, a: Application)
    requires i < |w.steps|
  {
    var step := w.steps[i];
    && a.snapshot.observation.url in w.allowedUrls
    && a.operation == step.operation
    && (step.valueKey.None? ==> a.value.None?)
    && (step.valueKey.Some? && step.valueKey.value in values ==> a.value == Some(values[step.valueKey.value]))
    && HasApproved(a.snapshot.observation.elements, step, a.elementId)
  }

  /** The decision names a target for the step's own operation, by the pinned model. */
  predicate Accepts(model: string, step: Step, d: Selection) {
    d.operation == NameOf(step.operation) && d.decision.model == model && d.elementId.Some?
  }

  /** The assistant's n-th answer is an element of the page. */
  predicate Assists(world: World, n: nat, o: Observation) {
    world.assist(n).Some? && HasId(o.elements, world.assist(n).value)
  }

  ghost predicate Assisted(world: World, id: string) {
    world.assistantEnabled && exists n :: 0 <= n < 2 && world.assist(n) == Some(id)
  }

  /** Where a target came from: the decision whenever that is acceptable, and then the
      provider was sure enough of the operation and of the target; else one of the
      first two answers of an enabled assistant. */
  ghost predicate Chose(world: World, model: string, minimum: real, step: Step, d: Selection, id: string, selectedBy: Selector) {
    && d.decision.model == model
    && (selectedBy.Decision? <==> Accepts(model, step, d))
    && if selectedBy.Decision? then
         && d.elementId == Some(id)
         && Sure(d.decision, "operation", NameOf(step.operation), minimum)
         && Sure(d.decision, NameOf(step.operation), id, minimum)
       else Assisted(world, id)
  }

  /** Why a step without an acceptable decision is handed back, `handoffs` calls of
      the assistant having been made. */
  ghost predicate HandedBack(world: World, model: string, step: Step, o: Observation, d: Selection, handoffs: nat) {
    && !Accepts(model, step, d)
    && (|| !world.assistantEnabled || d.decision.model != model || handoffs >= 2
        || (handoffs > 0 && !Assists(world, handoffs - 1, o)))
  }

  /** Choose a target for a step: by decision, or by the assistant on abstention. */
  method ChooseTarget(world: World, k: nat, model: string, step: Step, o: Observation, minimum: real, report: Report)
    returns (target: Option<(string, Selector)>, after: Report)
    ensures after == report.(decisions := after.decisions, handoffs := after.handoffs, reason := after.reason)
    ensures report.handoffs <= after.handoffs <= report.handoffs + 1 && (report.handoffs <= 2 ==> after.handoffs <= 2)
    ensures var d := BrowserAction(world, k, model, step.goal, o, minimum);
            if d.None? then target.None? && after == report.(reason := DecisionFailed)
            else
              && after.decisions == report.decisions + [d.value]
              && (target.None? ==>
                    after.reason == DecisionHandback && HandedBack(world, model, step, o, d.value, after.handoffs))
              && (target.Some? ==>
                    && after.reason == report.reason && HasId(o.elements, target.value.0)
                    && Chose(world, model, minimum, step, d.value, target.value.0, target.value.1)
                    && (after.handoffs > report.handoffs <==> target.value.1.ReasoningAgent?))
  {
    hide ValidObservation, Answers, RequestFor, Interpret, NameOf, Sure;
    after := report;
    var selection := BrowserAction(world, k, model, step.goal, o, minimum);
    if selection.None? {
      return None, after.(reason := DecisionFailed);
    }
    after := after.(decisions := after.decisions + [selection.value]);
    if Accepts(model, step, selection.value) {
      OfferedHasId(o.elements, Named(selection.value.operation).value, selection.value.elementId.value);
      BrowserActionIsConfident(world, k, model, step.goal, o, minimum, step.operation, selection.value.elementId.value);
      return Some((selection.value.elementId.value, Decision)), after;
    }
    // A different provider model is never reinterpreted as an abstention.
    if !world.assistantEnabled || after.handoffs >= 2 || selection.value.decision.model != model {
      return None, after.(reason := DecisionHandback);
    }
    var choice := world.assist(after.handoffs);
    after := after.(handoffs := after.handoffs + 1);
    if choice.Some? && HasId(o.elements, choice.value) {
      return Some((choice.value, ReasoningAgent)), after;
    }
    return None, after.(reason := DecisionHandback);
  }

  lemma OfferedHasId(elements: seq<Element>, op: Operation, id: string)
    requires Offers(elements, op, id)
    ensures HasId(elements, id)
  {
    var e :| e in elements && e.id == id && op in e.operations;
    var i :| 0 <= i < |elements| && elements[i] == e;
  }

  lemma NarrowedIsApproved(elements: seq<Element>, step: Step, id: string)
    requires HasId(Narrow(elements, step), id)
    ensures HasApproved(elements, step, id)
  {
    var narrowed := Narrow(elements, step);
    var i :| 0 <= i < |narrowed| && narrowed[i].id == id;
    assert narrowed[i] in narrowed;
  }

  /** The evidence for each reason a run ends with, at the step it had reached. */
  ghost predicate Stopped(world: World, w: Workflow, model: string, expected: seq<string>, minimum: real, r: Report) {
    var k := r.completedSteps;
    var seen := world.observe(k);
    match r.reason
    case ObservationFailed => k < |w.steps| && seen.None?
    case VerificationUnavailable => k == |w.steps| && seen.None?
    case PageOutOfScope => k <= |w.steps| && seen.Some? && seen.value.observation.url !in w.allowedUrls
    case PostconditionAlreadyPresent =>
      k == 0 && seen.Some? && exists i :: 0 <= i < |expected| && Contains(seen.value.text, expected[i])
    case ActionOutcomeUnconfirmed => k < |w.steps| && |r.actions| == k + 1 && !world.apply(k)
    case ChecksMatched => k == |w.steps| && FinalMatches(world, w, expected)
    case ChecksNotMatched =>
      && k == |w.steps| && seen.Some? && seen.value.observation.url in w.allowedUrls
      && exists i :: 0 <= i < |expected| && !Contains(seen.value.text, expected[i])
    case _ => k < |w.steps| && seen.Some? && NoTarget(world, k, w.steps[k], model, minimum, seen.value.observation, r)
  }

  ghost predicate NoTarget(world: World, k: nat, step: Step, model: string, minimum: real, page: Observation, r: Report) {
    var o := Narrowed(page, step);
    var d := BrowserAction(world, k, model, step.goal, o, minimum);
    match r.reason
    case AmbiguousTarget =>
      exists i, j :: 0 <= i < j < |o.elements| && o.elements[i].description == o.elements[j].description
    case TargetUnavailable =>
      forall e :: e in page.elements ==> e.description !in step.labels || step.operation !in e.operations
    case DecisionFailed => d.None?
    case DecisionHandback => d.Some? && HandedBack(world, model, step, o, d.value, r.handoffs)
    case _ => false
  }

  /** The i-th decision is the provider's on the i-th page, as the i-th step sees it. */
  ghost predicate Asked(world: World, w: Workflow, model: string, minimum: real, decisions: seq<Selection>) {
    forall i :: 0 <= i < |decisions| ==> AskedAt(world, w, model, minimum, i, decisions[i])
  }

  ghost predicate AskedAt(world: World, w: Workflow, model: string, minimum: real, i: nat, d: Selection) {
    && i < |w.steps| && world.observe(i).Some?
    && BrowserAction(world, i, model, w.steps[i].goal, Narrowed(world.observe(i).value.observation, w.steps[i]), minimum) == Some(d)
  }

  lemma NothingApproved(elements: seq<Element>, step: Step)
    requires Narrow(elements, step) == []
    ensures forall e :: e in elements ==> !Approved(step, e)
  {
  }

  /** Observe the page of step `k`: it must be in scope and show the step's targets
      unambiguously, and the first page must show none of the expected text. */
  method ObservePage(world: World, k: nat, w: Workflow, ghost model: string, expected: seq<string>, ghost minimum: real, report: Report)
    returns (seen: Option<Snapshot>, after: Report)
    requires k < |w.steps| && report.completedSteps == k && (report.baseline.None? <==> k == 0)
    ensures after == report.(baseline := after.baseline, reason := after.reason)
    ensures seen.Some? ==>
              && world.observe(k) == seen && seen.value.observation.url in w.allowedUrls
              && after.baseline == (if k == 0 then Some(seen.value.observation.id) else report.baseline)
              && (k == 0 ==> !ContainsAny(seen.value.text, expected))
              && after.reason == report.reason
    ensures seen.None? ==> Stops(after.reason) && Stopped(world, w, model, expected, minimum, after)
  {
    hide Narrow, HasApproved, Contains, BrowserAction, HandedBack, FinalMatches,
         ValidObservation, Answers, RequestFor, Offers, Named, NameOf;
    after := report;
    seen := world.observe(k);
    if seen.None? {
      return None, after.(reason := ObservationFailed);
    }
    var snapshot, step := seen.value, w.steps[k];
    if snapshot.observation.url !in w.allowedUrls {
      return None, after.(reason := PageOutOfScope);
    }
    if after.baseline.None? {
      after := after.(baseline := Some(snapshot.observation.id));
      if ContainsAny(snapshot.text, expected) {
        return None, after.(reason := PostconditionAlreadyPresent);
      }
    }
    var o := Narrowed(snapshot.observation, step);
    if !UniqueLabels(o.elements) {
      return None, after.(reason := AmbiguousTarget);
    }
    if o.elements == [] {
      NothingApproved(snapshot.observation.elements, step);
      return None, after.(reason := TargetUnavailable);
    }
  }

  /** A reason to stop before acting. */
  predicate Stops(reason: Reason) {
    !reason.ChecksMatched? && !reason.ChecksNotMatched? && !reason.ActionOutcomeUnconfirmed?
  }

  /** Observe a page and choose the target of step `k` on it. */
  method PrepareStep(world: World, k: nat, w: Workflow, model: string, expected: seq<string>, minimum: real, report: Report)
    returns (ready: Option<(Snapshot, string, Selector)>, after: Report)
    requires k < |w.steps| && report.completedSteps == k && (report.baseline.None? <==> k == 0)
    ensures ready.Some? ==>
              && ready.value.0.observation.url in w.allowedUrls
              && world.observe(k) == Some(ready.value.0)
              && HasApproved(ready.value.0.observation.elements, w.steps[k], ready.value.1)
              && after.baseline == (if k == 0 then Some(ready.value.0.observation.id) else report.baseline)
              && (k == 0 ==> !ContainsAny(ready.value.0.text, expected))
              && after.reason == report.reason
              && |after.decisions| == |report.decisions| + 1
              && Chose(world, model, minimum, w.steps[k], after.decisions[|report.decisions|], ready.value.1, ready.value.2)
    ensures ready.None? ==> Stops(after.reason) && Stopped(world, w, model, expected, minimum, after)
    ensures after.checksMatched == report.checksMatched && after.completedSteps == report.completedSteps
    ensures after.actions == report.actions && after.verification == report.verification
    ensures report.handoffs <= 2 ==> after.handoffs <= 2
    ensures report.decisions <= after.decisions
    ensures |after.decisions| <= |report.decisions| + 1
    ensures |after.decisions| > |report.decisions| ==> AskedAt(world, w, model, minimum, k, after.decisions[|report.decisions|])
  {
    hide Narrow, HasApproved, HasId, Contains, BrowserAction, Chose, HandedBack, Stopped, FinalMatches,
         ValidObservation, Answers, RequestFor, Offers, Named, NameOf, UniqueLabels, Approved;
    var seen;
    seen, after := ObservePage(world, k, w, model, expected, minimum, report);
    if seen.None? {
      return None, after;
    }
    var step, page := w.steps[k], seen.value.observation;
    var target;
    target, after := ChooseTarget(world, k, model, step, Narrowed(page, step), minimum, after);
    if target.None? {
      NoTargetStops(world, w, model, expected, minimum, after, page);
      return None, after;
    }
    NarrowedIsApproved(page.elements, step, target.value.0);
    ready := Some((seen.value, target.value.0, target.value.1));
  }

  lemma NoTargetStops(world: World, w: Workflow, model: string, expected: seq<string>, minimum: real, r: Report, page: Observation)
    requires r.completedSteps < |w.steps| && world.observe(r.completedSteps).Some?
    requires world.observe(r.completedSteps).value.observation == page
    requires r.reason.DecisionFailed? || r.reason.DecisionHandback?
    requires NoTarget(world, r.completedSteps, w.steps[r.completedSteps], model, minimum, page, r)
    ensures Stopped(world, w, model, expected, minimum, r)
  {
    hide NoTarget;
  }

  // --------------------------------------------------------------- the whole run

  /** The receipts agree with what was applied. */
  ghost predicate Receipted(a: Application, r: Receipt) {
    r.observationId == a.snapshot.observation.id && r.elementId == a.elementId && r.operation == a.operation
  }

  /** The run so far: `apply` calls at most one per step and in step order, each
      sound and receipted, all but a last one confirmed; at most two handoffs. */
  ghost predicate SafeRun(world: World, w: Workflow, values: map<string, string>, report: Report, applied: seq<Application>) {
    && report.completedSteps <= |applied| <= report.completedSteps + 1
    && |applied| <= |w.steps| && |report.actions| == |applied|
    && (forall i :: 0 <= i < |applied| ==>
          && Sound(w, values, i, applied[i]) && Receipted(applied[i], report.actions[i])
          && world.observe(i) == Some(applied[i].snapshot)
          && report.actions[i].confirmed == world.apply(i) == (i < report.completedSteps))
    && report.handoffs <= 2
  }

  /** Each action follows the decision of its own step and was chosen from it. */
  ghost predicate Decided(world: World, w: Workflow, model: string, minimum: real, decisions: seq<Selection>, actions: seq<Receipt>) {
    && |actions| <= |decisions| && |actions| <= |w.steps|
    && forall i :: 0 <= i < |actions| ==>
         Chose(world, model, minimum, w.steps[i], decisions[i], actions[i].elementId, actions[i].selectedBy)
  }

  lemma DecidedExtends(world: World, w: Workflow, model: string, minimum: real, decisions: seq<Selection>, actions: seq<Receipt>, d: Selection, r: Receipt)
    requires Decided(world, w, model, minimum, decisions, actions) && |decisions| == |actions| < |w.steps|
    requires Chose(world, model, minimum, w.steps[|actions|], d, r.elementId, r.selectedBy)
    ensures Decided(world, w, model, minimum, decisions + [d], actions + [r])
  {
    hide Chose;
  }

  lemma DecidedGrows(world: World, w: Workflow, model: string, minimum: real, decisions: seq<Selection>, more: seq<Selection>, actions: seq<Receipt>)
    requires Decided(world, w, model, minimum, decisions, actions) && decisions <= more
    ensures Decided(world, w, model, minimum, more, actions)
  {
    hide Chose;
  }

  lemma AskedExtends(world: World, w: Workflow, model: string, minimum: real, decisions: seq<Selection>, more: seq<Selection>)
    requires Asked(world, w, model, minimum, decisions) && decisions <= more && |more| <= |decisions| + 1
    requires |more| > |decisions| ==> AskedAt(world, w, model, minimum, |decisions|, more[|decisions|])
    ensures Asked(world, w, model, minimum, more)
  {
    hide AskedAt;
  }

  /** The first page, once a step was taken on it, showed none of the expected text. */
  ghost predicate CleanBaseline(world: World, expected: seq<string>, report: Report) {
    && world.observe(0).Some?
    && (forall i :: 0 <= i < |expected| ==> !Contains(world.observe(0).value.text, expected[i]))
    && report.baseline == Some(world.observe(0).value.observation.id)
  }

  /** The final page is in scope and shows all expected text. */
  ghost predicate FinalMatches(world: World, w: Workflow, expected: seq<string>) {
    var final := world.observe(|w.steps|);
    && final.Some? && final.value.observation.url in w.allowedUrls
    && forall i :: 0 <= i < |expected| ==> Contains(final.value.text, expected[i])
  }

  lemma SafeExtends(world: World, w: Workflow, values: map<string, string>, report: Report, applied: seq<Application>,
                    a: Application, receipt: Receipt)
    requires SafeRun(world, w, values, report, applied) && |applied| == report.completedSteps < |w.steps|
    requires Sound(w, values, |applied|, a) && Receipted(a, receipt)
    requires world.observe(|applied|) == Some(a.snapshot) && receipt.confirmed == world.apply(|applied|)
    ensures var more := report.(actions := report.actions + [receipt],
                                completedSteps := report.completedSteps + (if receipt.confirmed then 1 else 0));
            SafeRun(world, w, values, more, applied + [a])
  {
    hide Sound;
  }

  lemma SafeAfter(world: World, w: Workflow, values: map<string, string>, report: Report, after: Report, applied: seq<Application>)
    requires SafeRun(world, w, values, report, applied)
    requires after.completedSteps == report.completedSteps && after.actions == report.actions && after.handoffs <= 2
    ensures SafeRun(world, w, values, after, applied)
  {
    hide Sound;
  }

  /** `k` steps are confirmed and nothing else was applied. */
  ghost predicate Running(world: World, w: Workflow, model: string, values: map<string, string>, expected: seq<string>,
                          minimum: real, r: Report, applied: seq<Application>, k: nat)
  {
    && SafeRun(world, w, values, r, applied) && |applied| == r.completedSteps == k && r.handoffs <= 2
    && Decided(world, w, model, minimum, r.decisions, r.actions) && |r.decisions| == |r.actions| == k
    && Asked(world, w, model, minimum, r.decisions)
    && !r.checksMatched && r.reason == ChecksNotMatched
    && if k == 0 then r.baseline.None? else CleanBaseline(world, expected, r)
  }

  method TakeStep(world: World, k: nat, w: Workflow, model: string, values: map<string, string>, expected: seq<string>,
                  minimum: real, report: Report, ghost before: seq<Application>)
    returns (go: bool, r: Report, ghost applied: seq<Application>)
    requires k < |w.steps| && Running(world, w, model, values, expected, minimum, report, before, k)
    ensures go ==> Running(world, w, model, values, expected, minimum, r, applied, k + 1)
    ensures !go ==>
              && SafeRun(world, w, values, r, applied) && Decided(world, w, model, minimum, r.decisions, r.actions)
              && Asked(world, w, model, minimum, r.decisions) && Stopped(world, w, model, expected, minimum, r)
              && !r.checksMatched && r.reason != ChecksMatched && r.completedSteps < |w.steps|
  {
    hide SafeRun, Decided, Contains, HasApproved, NameOf, Asked, AskedAt, NoTarget, Chose, FinalMatches;
    var ready;
    ready, r := PrepareStep(world, k, w, model, expected, minimum, report);
    applied := before;
    SafeAfter(world, w, values, report, r, applied);
    DecidedGrows(world, w, model, minimum, report.decisions, r.decisions, report.actions);
    AskedExtends(world, w, model, minimum, report.decisions, r.decisions);
    if ready.None? {
      return false, r, applied;
    }
    var (snapshot, target, selectedBy) := ready.value;
    var step := w.steps[k];
    // One call only: a failed answer does not tell whether the page was changed.
    var confirmed := world.apply(k);
    var receipt := Receipt(snapshot.observation.id, target, step.operation, selectedBy, confirmed);
    ghost var call := Application(snapshot, step.operation, target, ValueFor(step, values));
    SafeExtends(world, w, values, r, applied, call, receipt);
    assert r.decisions == report.decisions + [r.decisions[k]];
    DecidedExtends(world, w, model, minimum, report.decisions, report.actions, r.decisions[k], receipt);
    applied := applied + [call];
    r := r.(actions := r.actions + [receipt]);
    if !confirmed {
      SafeAfter(world, w, values, r, r.(reason := ActionOutcomeUnconfirmed), applied);
      return false, r.(reason := ActionOutcomeUnconfirmed), applied;
    }
    r := r.(completedSteps := r.completedSteps + 1);
    go := true;
  }

  /** Safety of a run against any browser, provider and assistant. `applied` is the
      sequence of `apply` calls. The checks match exactly when every step was
      confirmed and the final page matches; then the first page was clean. A run that
      ends otherwise has a reason, and the reason is true of the step it had reached. */
  method RunSteps(world: World, w: Workflow, model: string, values: map<string, string>, expected: seq<string>, minimum: real)
    returns (report: Option<Report>, ghost applied: seq<Application>)
    ensures report.Some? <==> ValidRun(w, model, values, expected, minimum)
    ensures report.None? ==> applied == []
    ensures report.Some? ==> SafeRun(world, w, values, report.value, applied)
    ensures report.Some? ==> Decided(world, w, model, minimum, report.value.decisions, report.value.actions)
    ensures report.Some? ==> Asked(world, w, model, minimum, report.value.decisions)
    ensures report.Some? ==> Stopped(world, w, model, expected, minimum, report.value)
    ensures report.Some? ==>
              (report.value.checksMatched <==> report.value.completedSteps == |w.steps| && FinalMatches(world, w, expected))
    ensures report.Some? && report.value.checksMatched ==>
              && CleanBaseline(world, expected, report.value)
              && report.value.verification == Some(world.observe(|w.steps|).value.observation.id)
    ensures report.Some? ==> (report.value.checksMatched <==> report.value.reason == ChecksMatched)
  {
    applied := [];
    if !ValidRun(w, model, values, expected, minimum) {
      return None, applied;
    }
    assert |w.steps| > 0;
    hide ValidRun, SafeRun, Decided, FinalMatches, Asked, NoTarget, Stopped, Contains;
    var r := Report(false, 0, ChecksNotMatched, [], None, None, [], 0);
    EmptyIsSafe(world, w, values, r, model, minimum);
    for k := 0 to |w.steps|
      invariant Running(world, w, model, values, expected, minimum, r, applied, k)
    {
      var go;
      go, r, applied := TakeStep(world, k, w, model, values, expected, minimum, r, applied);
      if !go {
        return Some(r), applied;
      }
    }
    var verified := VerifyOutcome(world, w, model, minimum, expected, r);
    SafeAfter(world, w, values, r, verified, applied);
    report := Some(verified);
  }

  /** The last observation decides whether the checks match. */
  method VerifyOutcome(world: World, w: Workflow, ghost model: string, ghost minimum: real, expected: seq<string>, report: Report)
    returns (r: Report)
    requires !report.checksMatched && report.reason == ChecksNotMatched && report.completedSteps == |w.steps|
    ensures r == report.(checksMatched := r.checksMatched, verification := r.verification, reason := r.reason)
    ensures r.checksMatched <==> FinalMatches(world, w, expected)
    ensures r.checksMatched <==> r.reason == ChecksMatched
    ensures var final := world.observe(|w.steps|);
            r.verification == if final.Some? then Some(final.value.observation.id) else report.verification
    ensures Stopped(world, w, model, expected, minimum, r)
  {
    hide Contains, NoTarget;
    r := report;
    var final := world.observe(|w.steps|);
    if final.None? {
      return r.(reason := VerificationUnavailable);
    }
    r := r.(verification := Some(final.value.observation.id));
    if final.value.observation.url !in w.allowedUrls {
      return r.(reason := PageOutOfScope);
    }
    r := r.(checksMatched := ContainsAll(final.value.text, expected));
    if r.checksMatched {
      r := r.(reason := ChecksMatched);
    }
  }

  lemma EmptyIsSafe(world: World, w: Workflow, values: map<string, string>, r: Report, model: string, minimum: real)
    requires r.completedSteps == 0 && r.actions == [] && r.handoffs == 0 && r.decisions == []
    ensures SafeRun(world, w, values, r, []) && Decided(world, w, model, minimum, [], []) && Asked(world, w, model, minimum, [])
  {
  }
}
