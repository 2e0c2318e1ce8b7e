/** apps/runtime/src/sqlite-hrana-batch.c
  *
  * The steps of a batch, each run if its guard holds of what the steps before it came to. Running a
  * statement gives rows or an error code, which is a parameter.
  */
module HranaBatch {
  import opened Prelude

  const SQLITE_HRANA_MAX_STEPS := 256
  const MAX_CONDITIONS := 256

  /** A guard as its JSON was parsed. `step` is none where it is not a 32-bit integer; anything that lacks
    * the fields of its type, or has none of these types, is malformed. */
  datatype Guard =
    | Succeeded(step: Option<int>)
    | FailedAt(step: Option<int>)
    | Not(cond: Guard)
    | And(conds: seq<Guard>)
    | Or(conds: seq<Guard>)
    | Malformed

  datatype Step = Step(guard: Option<Guard>, statementValid: bool)

  const SQLITE_OK := 0
  const SQLITE_MISUSE := 21
  const SQLITE_MISMATCH := 20
  const SQLITE_TOOBIG := 18
  const SQLITE_DONE := 101

  /** What `sqlite_hrana_execute` returns, and what it has stored through its last argument. */
  datatype Outcome = Outcome(code: int, output: Option<string>)

  /** What SQLite, the response's frame and the statement itself let one execution come to. */
  datatype Execution = Execution(
    prepared: int,          // the code of `prepare`
    bound: int,             // and of `bind_parameters`
    wantRows: bool,         // `want_rows` is absent or a boolean
    columns: bool,          // the column metadata could be built
    reserved: bool,         // there was room for them
    stepped: int,           // the code the loop over `sqlite3_step` ended with
    built: string)          // the object built by then

  /** `sqlite_hrana_execute`. */
  method Execute(e: Execution) returns (outcome: Outcome)
    ensures e.stepped != SQLITE_OK ==> OutputOnSuccess(outcome)
    ensures outcome.output.Some? ==> outcome.code == SQLITE_OK && e.stepped == SQLITE_DONE
  {
    var code := e.prepared;
    if code == SQLITE_OK {
      code := e.bound;
    }
    if !e.wantRows {
      code := SQLITE_MISUSE;
    }
    if code != SQLITE_OK {
      return Outcome(code, None);
    }
    if !e.columns {
      return Outcome(SQLITE_MISMATCH, None);
    }
    if !e.reserved {
      return Outcome(SQLITE_TOOBIG, None);
    }
    if e.stepped != SQLITE_DONE {
      return Outcome(e.stepped, None);
    }
    outcome := Outcome(SQLITE_OK, Some(e.built));
  }

  /** Nothing but a success stores an output. */
  predicate OutputOnSuccess(outcome: Outcome) {
    outcome.output.Some? <==> outcome.code == SQLITE_OK
  }

  /** 1 for a step that ran and succeeded, -1 for one that ran and failed, 0 for one that did not run. */
  type StepState = x: int | -1 <= x <= 1

  datatype Batch = Misuse | TooBig | Completed(results: seq<Option<string>>, errors: seq<Option<int>>)

  // ----- Guards

  /** The guard is of a known shape throughout and refers to earlier steps only. */
  predicate WellFormed(guard: Guard, count: nat)
    decreases guard
  {
    match guard
    case Succeeded(step) => step.Some? && 0 <= step.value < count
    case FailedAt(step) => step.Some? && 0 <= step.value < count
    case Not(cond) => WellFormed(cond, count)
    case And(conds) => |conds| <= MAX_CONDITIONS && forall i | 0 <= i < |conds| :: WellFormed(conds[i], count)
    case Or(conds) => |conds| <= MAX_CONDITIONS && forall i | 0 <= i < |conds| :: WellFormed(conds[i], count)
    case Malformed => false
  }

  /** What a well-formed guard says about the steps so far. */
  predicate Holds(guard: Guard, states: seq<StepState>)
    requires WellFormed(guard, |states|)
    decreases guard
  {
    match guard
    case Succeeded(step) => states[step.value] == 1
    case FailedAt(step) => states[step.value] == -1
    case Not(cond) => !Holds(cond, states)
    case And(conds) => forall i | 0 <= i < |conds| :: Holds(conds[i], states)
    case Or(conds) => exists i | 0 <= i < |conds| :: Holds(conds[i], states)
  }

  /** `condition`. Whether it finds the guard valid does not depend on the states. */
  method Condition(guard: Guard, states: array<StepState>, count: nat, wasValid: bool) returns (matched: bool, valid: bool)
    requires count <= states.Length
    ensures valid <==> wasValid && WellFormed(guard, count)
    ensures WellFormed(guard, count) ==> (matched <==> Holds(guard, states[..count]))
    decreases guard
  {
    match guard
    case Malformed => return false, false;
    case Succeeded(step) =>
      if step.None? || step.value < 0 || step.value >= count {
        return false, false;
      }
      return states[step.value] == 1, wasValid;
    case FailedAt(step) =>
      if step.None? || step.value < 0 || step.value >= count {
        return false, false;
      }
      return states[step.value] == -1, wasValid;
    case Not(cond) =>
      matched, valid := Condition(cond, states, count, wasValid);
      matched := !matched;
    case And(conds) =>
      if |conds| > MAX_CONDITIONS {
        return false, false;
      }
      matched, valid := true, wasValid;
      for index := 0 to |conds|
        invariant valid <==> wasValid && forall i | 0 <= i < index :: WellFormed(conds[i], count)
        invariant (forall i | 0 <= i < index :: WellFormed(conds[i], count)) ==>
          (matched <==> forall i | 0 <= i < index :: Holds(conds[i], states[..count]))
      {
        var result;
        result, valid := Condition(conds[index], states, count, valid);
        matched := matched && result;
      }
    case Or(conds) =>
      if |conds| > MAX_CONDITIONS {
        return false, false;
      }
      matched, valid := false, wasValid;
      for index := 0 to |conds|
        invariant valid <==> wasValid && forall i | 0 <= i < index :: WellFormed(conds[i], count)
        invariant (forall i | 0 <= i < index :: WellFormed(conds[i], count)) ==>
          (matched <==> exists i | 0 <= i < index :: Holds(conds[i], states[..count]))
      {
        var result;
        result, valid := Condition(conds[index], states, count, valid);
        matched := matched || result;
      }
  }

  // ----- Batches

  predicate GuardWellFormed(step: Step, index: nat) {
    step.guard.Some? ==> WellFormed(step.guard.value, index)
  }

  predicate GuardsWellFormed(steps: seq<Step>, n: nat)
    requires n <= |steps|
  {
    forall i | 0 <= i < n :: GuardWellFormed(steps[i], i)
  }

  predicate Valid(steps: Option<seq<Step>>) {
    && steps.Some? && |steps.value| <= SQLITE_HRANA_MAX_STEPS && GuardsWellFormed(steps.value, |steps.value|)
    && forall i | 0 <= i < |steps.value| :: steps.value[i].statementValid
  }

  predicate Runs(step: Step, states: seq<StepState>)
    requires GuardWellFormed(step, |states|)
  {
    step.guard.Some? ==> Holds(step.guard.value, states)
  }

  /** What the first `n` steps come to. */
  function States(steps: seq<Step>, outcomes: seq<Outcome>, n: nat): (states: seq<StepState>)
    requires n <= |steps| == |outcomes| && GuardsWellFormed(steps, n)
    ensures |states| == n
  {
    if n == 0 then []
    else
      var before := States(steps, outcomes, n - 1);
      before + [if !Runs(steps[n - 1], before) then 0 else if outcomes[n - 1].code == SQLITE_OK then 1 else -1]
  }

  function ResultOf(state: StepState, outcome: Outcome): Option<string> {
    if state == 0 then None else outcome.output
  }

  function ErrorOf(state: StepState, outcome: Outcome): Option<int> {
    if state == -1 then Some(outcome.code) else None
  }

  /** A step's result and error stand at its own index: the stored output if it ran, its error if it failed,
    * neither if it did not run. */
  ghost predicate Aligned(steps: seq<Step>, outcomes: seq<Outcome>, n: nat, results: seq<Option<string>>, errors: seq<Option<int>>)
    requires n <= |steps| == |outcomes| && GuardsWellFormed(steps, n)
  {
    && |results| == |errors| == n
    && forall i | 0 <= i < n ::
         results[i] == ResultOf(States(steps, outcomes, n)[i], outcomes[i])
         && errors[i] == ErrorOf(States(steps, outcomes, n)[i], outcomes[i])
  }

  method BatchValid(steps: Option<seq<Step>>) returns (accepted: bool)
    ensures accepted <==> Valid(steps)
  {
    if steps.None? || |steps.value| > SQLITE_HRANA_MAX_STEPS {
      return false;
    }
    var states := new StepState[SQLITE_HRANA_MAX_STEPS](_ => 0);
    for index := 0 to |steps.value|
      invariant GuardsWellFormed(steps.value, index)
      invariant forall i | 0 <= i < index :: steps.value[i].statementValid
    {
      var step := steps.value[index];
      var valid := true;
      if step.guard.Some? {
        var _, found := Condition(step.guard.value, states, index, true);
        valid := found;
      }
      if !valid || !step.statementValid {
        return false;
      }
    }
    accepted := true;
  }

  /** The batch is refused, or given up half-way over a guard. */
  predicate Misused(steps: Option<seq<Step>>, reserved: bool) {
    || steps.None?
    || |steps.value| > SQLITE_HRANA_MAX_STEPS
    || (reserved && !GuardsWellFormed(steps.value, |steps.value|))
  }

  /** `sqlite_hrana_batch`; `reserved` says whether there was room for the response's frame. It is a misuse
    * exactly when there are too many steps or, with room, some guard is not well-formed. */
  method RunBatch(steps: Option<seq<Step>>, reserved: bool, outcomes: seq<Outcome>) returns (batch: Batch)
    requires steps.Some? ==> |outcomes| == |steps.value|
    ensures batch.Misuse? <==> Misused(steps, reserved)
    ensures batch.TooBig? <==> steps.Some? && |steps.value| <= SQLITE_HRANA_MAX_STEPS && !reserved
    ensures batch.Completed? ==>
      GuardsWellFormed(steps.value, |steps.value|)
      && Aligned(steps.value, outcomes, |steps.value|, batch.results, batch.errors)
  {
    if steps.None? || |steps.value| > SQLITE_HRANA_MAX_STEPS {
      return Misuse;
    }
    var states := new StepState[SQLITE_HRANA_MAX_STEPS](_ => 0);
    if !reserved {
      return TooBig;
    }
    var results: seq<Option<string>>, errors: seq<Option<int>> := [], [];
    for index := 0 to |steps.value|
      invariant GuardsWellFormed(steps.value, index)
      invariant states[..index] == States(steps.value, outcomes, index)
      invariant Aligned(steps.value, outcomes, index, results, errors)
    {
      var step := steps.value[index];
      var valid, run := true, true;
      if step.guard.Some? {
        run, valid := Condition(step.guard.value, states, index, true);
      }
      if !valid {
        return Misuse;
      }
      var Outcome(code, output) := if run then outcomes[index] else Outcome(SQLITE_OK, None);
      ghost var before := states[..index];
      states[index] := if !run then 0 else if code == SQLITE_OK then 1 else -1;
      assert states[..index] == before;
      assert states[..index + 1] == before + [states[index]];
      results := results + [output];
      errors := errors + [if code == SQLITE_OK then None else Some(code)];
    }
    batch := Completed(results, errors);
  }

  // ----- What the check before a batch is worth

  /** A batch that was found valid is never refused or given up half-way, whatever its statements come to;
    * a step that did not run has neither a result nor an error; and one that ran has one of the two and not
    * both exactly if its execution stored an output on success alone. */
  lemma ValidNeverMisused(steps: seq<Step>, outcomes: seq<Outcome>, results: seq<Option<string>>, errors: seq<Option<int>>)
    requires Valid(Some(steps)) && |outcomes| == |steps| && Aligned(steps, outcomes, |steps|, results, errors)
    ensures forall reserved :: !Misused(Some(steps), reserved)
    ensures forall i | 0 <= i < |steps| ::
      if States(steps, outcomes, |steps|)[i] == 0 then results[i].None? && errors[i].None?
      else (results[i].Some? <==> errors[i].None?) <==> OutputOnSuccess(outcomes[i])
  {
    forall i | 0 <= i < |steps|
      ensures
        if States(steps, outcomes, |steps|)[i] == 0 then results[i].None? && errors[i].None?
        else (results[i].Some? <==> errors[i].None?) <==> OutputOnSuccess(outcomes[i])
    {
      StateFits(steps, outcomes, |steps|, i);
    }
  }

  lemma {:induction false} StateFits(steps: seq<Step>, outcomes: seq<Outcome>, n: nat, i: nat)
    requires i < n <= |steps| == |outcomes| && GuardsWellFormed(steps, n)
    ensures var state := States(steps, outcomes, n)[i];
            state != 0 ==> (state == 1 <==> outcomes[i].code == SQLITE_OK)
  {
    if i < n - 1 {
      StateFits(steps, outcomes, n - 1, i);
    }
  }

  /** What a step comes to depends on the steps before it alone. */
  lemma {:induction false} StatesArePrefixes(steps: seq<Step>, outcomes: seq<Outcome>, n: nat, m: nat)
    requires n <= m <= |steps| == |outcomes| && GuardsWellFormed(steps, m)
    ensures States(steps, outcomes, m)[..n] == States(steps, outcomes, n)
  {
    if n < m {
      StatesArePrefixes(steps, outcomes, n, m - 1);
    } else {
      assert States(steps, outcomes, m)[..n] == States(steps, outcomes, m);
    }
  }

  /** What the guards say of the response: a step guarded by another's success ran exactly if that one has a
    * result, one guarded by its failure exactly if it has an error, and an unguarded one always. */
  lemma GuardsTell(steps: seq<Step>, outcomes: seq<Outcome>, results: seq<Option<string>>, errors: seq<Option<int>>, i: nat, k: nat)
    requires k < i < |steps| == |outcomes| && GuardsWellFormed(steps, |steps|)
    requires forall j | 0 <= j < |steps| :: OutputOnSuccess(outcomes[j])
    requires Aligned(steps, outcomes, |steps|, results, errors)
    ensures steps[i].guard == Some(Succeeded(Some(k))) ==>
              (results[i].Some? || errors[i].Some? <==> results[k].Some?)
    ensures steps[i].guard == Some(FailedAt(Some(k))) ==>
              (results[i].Some? || errors[i].Some? <==> errors[k].Some?)
    ensures steps[i].guard == Some(Not(Succeeded(Some(k)))) ==>
              (results[i].Some? || errors[i].Some? <==> results[k].None?)
    ensures steps[i].guard == None ==> results[i].Some? || errors[i].Some?
  {
    var states := States(steps, outcomes, |steps|);
    StepRunsWhenGuardHolds(steps, outcomes, i);
    StateFits(steps, outcomes, |steps|, i);
    StateFits(steps, outcomes, |steps|, k);
    assert states[..i][k] == states[k];
    assert GuardWellFormed(steps[i], i);
    var succeeded := Succeeded(Some(k));
    assert Holds(succeeded, states[..i]) <==> states[k] == 1;
    if steps[i].guard == Some(Not(succeeded)) {
      assert Holds(Not(succeeded), states[..i]) <==> !Holds(succeeded, states[..i]);
    }
  }

  /** In a completed batch a step ran exactly when its guard holds of the steps before it. */
  lemma StepRunsWhenGuardHolds(steps: seq<Step>, outcomes: seq<Outcome>, i: nat)
    requires i < |steps| == |outcomes| && GuardsWellFormed(steps, |steps|)
    ensures var states := States(steps, outcomes, |steps|);
            (states[i] != 0 <==> Runs(steps[i], states[..i]))
  {
    StatesArePrefixes(steps, outcomes, i, |steps|);
    StatesArePrefixes(steps, outcomes, i + 1, |steps|);
    var states := States(steps, outcomes, |steps|);
    assert states[i] == states[..i + 1][i];
  }
}
