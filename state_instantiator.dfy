/** Instantiating a state of a running process from its state definition in the scenario. */
module StateInstantiation {
  import opened Wrappers
  import opened Throwables
  import opened Entities
  import opened OrderedMaps
  import opened AssocEntitySets

  /** The scenario as the instantiator uses it: `getActionsForState` gives the ordered
      (key, action definition) pairs bound to a state definition, or throws. */
  datatype Scenario = Scenario(getActionsForState: Entity -> Result<seq<(string, Entity)>, Throwable>)

  /** A running process: its scenario and the data that data instructions are evaluated against. */
  datatype Process = Process(scenario: Scenario, data: Fields)

  /** What the data enricher makes of an entity's properties in the context of a process:
      the properties with every data instruction evaluated, or what evaluation throws. */
  type Evaluation = (Fields, Process) -> Result<Fields, Throwable>

  /** The value of an instantiated state: its properties, among which the collection has
      taken the place of any `actions` property, and its actions by key. */
  datatype Snapshot = Snapshot(fields: Fields, actions: OrderedMap<string, Fields>)

  // ---------------------------------------------------------------------------
  // Specification of instantiateActions

  /** The actions `instantiateActions` builds from the pairs, in order, or the first
      throwable it meets. */
  function AssembleActions(evaluate: Evaluation, definitions: seq<(string, Fields)>, process: Process)
    : (r: Result<OrderedMap<string, Fields>, Throwable>)
    ensures r.Ok? ==> WellFormed(r.value)
    decreases |definitions|
  {
    if definitions == [] then Ok(Empty())
    else
      var n := |definitions| - 1;
      match AssembleActions(evaluate, definitions[..n], process)
      case Fail(e) => Fail(e)
      case Ok(actions) =>
        match evaluate(definitions[n].1, process)
        case Fail(e) => Fail(e)
        case Ok(action) => Ok(Put(actions, definitions[n].0, action))
  }

  /** Every action definition enriches without throwing. */
  predicate AllEnrich(evaluate: Evaluation, definitions: seq<(string, Fields)>, process: Process) {
    forall i :: 0 <= i < |definitions| ==> evaluate(definitions[i].1, process).Ok?
  }

  /** The pairs with each action definition replaced by its enriched copy. */
  function Enriched(evaluate: Evaluation, definitions: seq<(string, Fields)>, process: Process)
    : seq<(string, Fields)>
    requires AllEnrich(evaluate, definitions, process)
  {
    seq(|definitions|, i requires 0 <= i < |definitions| => (definitions[i].0, evaluate(definitions[i].1, process).value))
  }

  /** Enriching the action at `i` is the first enrichment that throws. */
  ghost predicate FirstFailureAt(evaluate: Evaluation, definitions: seq<(string, Fields)>, process: Process, i: int) {
    && 0 <= i < |definitions|
    && evaluate(definitions[i].1, process).Fail?
    && forall j :: 0 <= j < i ==> evaluate(definitions[j].1, process).Ok?
  }

  /** Assembly succeeds exactly when every action enriches, and then gives the keyed
      collection of the enriched copies. */
  lemma {:induction false} AssembleSucceeds(evaluate: Evaluation, definitions: seq<(string, Fields)>, process: Process)
    ensures AssembleActions(evaluate, definitions, process).Ok? <==> AllEnrich(evaluate, definitions, process)
    ensures AllEnrich(evaluate, definitions, process) ==>
              AssembleActions(evaluate, definitions, process).value == FromPairs(Enriched(evaluate, definitions, process))
    decreases |definitions|
  {
    if definitions != [] {
      var n := |definitions| - 1;
      var init := definitions[..n];
      AssembleSucceeds(evaluate, init, process);
      var all := AllEnrich(evaluate, definitions, process);
      if all {
        assert AllEnrich(evaluate, init, process) by {
          forall i | 0 <= i < n ensures evaluate(init[i].1, process).Ok? {
            assert init[i] == definitions[i];
          }
        }
        var e, e' := Enriched(evaluate, definitions, process), Enriched(evaluate, init, process);
        assert e == e' + [(definitions[n].0, evaluate(definitions[n].1, process).value)];
        FromPairsAppend(e', definitions[n].0, evaluate(definitions[n].1, process).value);
      } else if AllEnrich(evaluate, init, process) {
        // so the action that fails enrichment is the last one
        forall i | 0 <= i < n ensures evaluate(definitions[i].1, process).Ok? {
          assert init[i] == definitions[i];
        }
        var i :| 0 <= i < |definitions| && evaluate(definitions[i].1, process).Fail?;
        assert i == n;
      }
    }
  }

  /** A failed assembly reports what enriching the first failing action threw. */
  lemma {:induction false} AssembleFirstFailure(evaluate: Evaluation, definitions: seq<(string, Fields)>, process: Process)
    requires AssembleActions(evaluate, definitions, process).Fail?
    ensures exists i :: FirstFailureAt(evaluate, definitions, process, i)
                        && AssembleActions(evaluate, definitions, process).error == evaluate(definitions[i].1, process).error
    decreases |definitions|
  {
    var n := |definitions| - 1;
    var init := definitions[..n];
    if AssembleActions(evaluate, init, process).Fail? {
      AssembleFirstFailure(evaluate, init, process);
      var i :| FirstFailureAt(evaluate, init, process, i)
               && AssembleActions(evaluate, init, process).error == evaluate(init[i].1, process).error;
      assert init[i] == definitions[i];
      forall j | 0 <= j < i ensures evaluate(definitions[j].1, process).Ok? {
        assert init[j] == definitions[j];
      }
      assert FirstFailureAt(evaluate, definitions, process, i);
    } else {
      AssembleSucceeds(evaluate, init, process);
      forall j | 0 <= j < n ensures evaluate(definitions[j].1, process).Ok? {
        assert init[j] == definitions[j];
      }
      assert FirstFailureAt(evaluate, definitions, process, n);
    }
  }

  /** Assembling one more pair: the run either goes on with that pair stored or aborts with its error. */
  lemma AssembleStep(evaluate: Evaluation, definitions: seq<(string, Fields)>, i: nat, process: Process)
    requires i < |definitions| && AssembleActions(evaluate, definitions[..i], process).Ok?
    ensures AssembleActions(evaluate, definitions[..i + 1], process) ==
              match evaluate(definitions[i].1, process)
              case Fail(e) => Fail(e)
              case Ok(action) => Ok(Put(AssembleActions(evaluate, definitions[..i], process).value, definitions[i].0, action))
  {
    assert definitions[..i + 1][..i] == definitions[..i];
  }

  /** Once a prefix of the pairs fails, the pairs after it change nothing: the run
      aborts with that prefix's error. */
  lemma {:induction false} AssembleAbortsOnFailure(evaluate: Evaluation, definitions: seq<(string, Fields)>, k: nat, process: Process)
    requires k <= |definitions|
    requires AssembleActions(evaluate, definitions[..k], process).Fail?
    ensures AssembleActions(evaluate, definitions, process) == AssembleActions(evaluate, definitions[..k], process)
    decreases |definitions|
  {
    if k == |definitions| {
      assert definitions[..k] == definitions;
    } else {
      var n := |definitions| - 1;
      assert definitions[..n][..k] == definitions[..k];
      AssembleAbortsOnFailure(evaluate, definitions[..n], k, process);
    }
  }

  // ---------------------------------------------------------------------------
  // Specification of instantiate

  /** The message of the wrapping exception: it names the state when it has a title. */
  function FailureMessage(title: Option<string>): (msg: string)
    ensures |msg| >= 27 && msg[..27] == "Failed to instantiate state"
    ensures title.None? <==> |msg| == 27
    ensures title.Some? ==> msg[27..] == " '" + title.value + "'"
  {
    "Failed to instantiate state" + if title.Some? then " '" + title.value + "'" else ""
  }

  /** `catch (\Exception $e)`: an exception becomes a `RuntimeException` with code 0
      that chains to it; a throwable that is not an exception passes through unchanged. */
  function Caught(title: Option<string>, e: Throwable): (c: Throwable)
    ensures IsException(c) <==> IsException(e)
    ensures IsException(e) ==>
              c.kind == RuntimeException && c.message == FailureMessage(title) && c.code == 0 && c.previous == Some(e)
    ensures !IsException(e) ==> c == e
  {
    if IsException(e) then Throwable(RuntimeException, FailureMessage(title), 0, Some(e)) else e
  }

  /** What `instantiate` produces from the definition's properties and what the
      scenario's lookup gave: enrich a copy of the state, then assemble the actions.
      Attaching the collection replaces whatever `actions` property the enriched data had. */
  function Instantiation(evaluate: Evaluation, definition: Fields, found: Result<seq<(string, Fields)>, Throwable>, process: Process)
    : (r: Result<Snapshot, Throwable>)
    ensures r.Ok? ==> WellFormed(r.value.actions) && "actions" !in r.value.fields
    ensures r.Fail? && IsException(r.error) ==>
              r.error.kind == RuntimeException && r.error.code == 0 && r.error.message == FailureMessage(Title(definition))
  {
    match evaluate(definition, process)
    case Fail(e) => Fail(Caught(Title(definition), e))
    case Ok(state) =>
      match found
      case Fail(e) => Fail(Caught(Title(definition), e))
      case Ok(definitions) =>
        match AssembleActions(evaluate, definitions, process)
        case Fail(e) => Fail(Caught(Title(definition), e))
        case Ok(actions) => Ok(Snapshot(state - {"actions"}, actions))
  }

  /** `cause` is what the first failing step threw: enriching the state, looking up
      its actions, or enriching the first action that fails. */
  ghost predicate FailedWith(evaluate: Evaluation, definition: Fields, found: Result<seq<(string, Fields)>, Throwable>,
                             process: Process, cause: Throwable) {
    match evaluate(definition, process)
    case Fail(e) => cause == e
    case Ok(_) =>
      match found
      case Fail(e) => cause == e
      case Ok(ds) => exists i :: FirstFailureAt(evaluate, ds, process, i) && cause == evaluate(ds[i].1, process).error
  }

  /** Instantiation is all or nothing: it succeeds exactly when the state, the lookup and
      every action succeed, and then holds the enriched state and the keyed collection
      of the enriched actions. */
  lemma InstantiationSucceeds(evaluate: Evaluation, definition: Fields, found: Result<seq<(string, Fields)>, Throwable>, process: Process)
    ensures Instantiation(evaluate, definition, found, process).Ok? <==>
              evaluate(definition, process).Ok? && found.Ok? && AllEnrich(evaluate, found.value, process)
    ensures Instantiation(evaluate, definition, found, process).Ok? ==>
              Instantiation(evaluate, definition, found, process).value ==
                Snapshot(evaluate(definition, process).value - {"actions"}, FromPairs(Enriched(evaluate, found.value, process)))
  {
    if found.Ok? {
      AssembleSucceeds(evaluate, found.value, process);
    }
  }

  /** A failed instantiation reports the first failure: an exception wrapped in a
      `RuntimeException` naming the state, with code 0 and the exception as its previous;
      any other throwable unchanged. */
  lemma InstantiationFailure(evaluate: Evaluation, definition: Fields, found: Result<seq<(string, Fields)>, Throwable>, process: Process)
    requires Instantiation(evaluate, definition, found, process).Fail?
    ensures exists cause :: FailedWith(evaluate, definition, found, process, cause) &&
              var e := Instantiation(evaluate, definition, found, process).error;
              (IsException(cause) ==> e == Throwable(RuntimeException, FailureMessage(Title(definition)), 0, Some(cause))) &&
              (!IsException(cause) ==> e == cause)
  {
    if evaluate(definition, process).Ok? && found.Ok? {
      AssembleFirstFailure(evaluate, found.value, process);
      var cause := AssembleActions(evaluate, found.value, process).error;
      assert FailedWith(evaluate, definition, found, process, cause);
    } else if evaluate(definition, process).Ok? {
      assert FailedWith(evaluate, definition, found, process, found.error);
    } else {
      assert FailedWith(evaluate, definition, found, process, evaluate(definition, process).error);
    }
  }

  /** A state bound to no actions gets an empty action collection, not an error. */
  lemma InstantiationWithoutActions(evaluate: Evaluation, definition: Fields, process: Process)
    requires evaluate(definition, process).Ok?
    ensures Instantiation(evaluate, definition, Ok([]), process).Ok?
    ensures Instantiation(evaluate, definition, Ok([]), process).value.actions.keys == []
    ensures Instantiation(evaluate, definition, Ok([]), process).value.actions.entries == map[]
  {
  }

  /** An enrichment failure: a data instruction refers to something the process lacks. */
  const UnknownReference := Throwable(ExceptionClass("EnrichmentFailure"), "unknown reference", 0, None)

  /** An evaluation for the example below: properties with a `deadline` cannot be resolved. */
  function DeadlineUnresolved(fields: Fields, process: Process): Result<Fields, Throwable> {
    if "deadline" in fields then Fail(UnknownReference) else Ok(fields)
  }

  /** A state titled "Approval" whose only action refers to data the process lacks:
      instantiation fails with a `RuntimeException` that names the state and chains to
      the enrichment failure. */
  lemma ApprovalExample(process: Process)
    ensures Instantiation(DeadlineUnresolved, map["title" := Str("Approval")],
                          Ok([("approve", map["deadline" := Str("<ref>")])]), process)
              == Fail(Throwable(RuntimeException, "Failed to instantiate state 'Approval'", 0, Some(UnknownReference)))
  {
    var ds := [("approve", map["deadline" := Str("<ref>")])];
    assert ds[..0] == [];
    assert AssembleActions(DeadlineUnresolved, ds, process) == Fail(UnknownReference);
    assert Title(map["title" := Str("Approval")]) == Some("Approval");
    assert FailureMessage(Some("Approval")) == "Failed to instantiate state 'Approval'";
  }

  // ---------------------------------------------------------------------------
  // The objects

  /** The properties of the definitions in `pairs`, read from the objects. */
  ghost function Definitions(pairs: seq<(string, Entity)>): (ds: seq<(string, Fields)>)
    reads set p | p in pairs :: p.1
    ensures |ds| == |pairs|
    ensures forall i :: 0 <= i < |pairs| ==> ds[i] == (pairs[i].0, pairs[i].1.fields)
  {
    if pairs == [] then []
    else Definitions(pairs[..|pairs| - 1]) + [(pairs[|pairs| - 1].0, pairs[|pairs| - 1].1.fields)]
  }

  /** Reading the definitions in two states where none of them changed gives the same. */
  twostate lemma DefinitionsUnchanged(pairs: seq<(string, Entity)>)
    requires forall i :: 0 <= i < |pairs| ==> unchanged(pairs[i].1)
    ensures Definitions(pairs) == old(Definitions(pairs))
  {
  }

  /** The lookup's outcome with the definitions' properties read from the objects. */
  ghost function Found(found: Result<seq<(string, Entity)>, Throwable>): Result<seq<(string, Fields)>, Throwable>
    reads if found.Ok? then set p | p in found.value :: p.1 else {}
  {
    match found
    case Fail(e) => Fail(e)
    case Ok(pairs) => Ok(Definitions(pairs))
  }

  /** `LegalThings\DataEnricher`: evaluates the data instructions inside an entity in place. */
  class DataEnricher {
    const evaluate: Evaluation

    constructor (evaluate: Evaluation)
      ensures this.evaluate == evaluate
    {
      this.evaluate := evaluate;
    }

    /** `applyTo($target, $process)`: the target's properties become their evaluation;
        if evaluation throws, the throwable is returned. */
    method ApplyTo(target: Entity, process: Process) returns (thrown: Option<Throwable>)
      modifies target
      ensures thrown.None? <==> evaluate(old(target.fields), process).Ok?
      ensures thrown.None? ==> target.fields == evaluate(old(target.fields), process).value
      ensures thrown.Some? ==> thrown.value == evaluate(old(target.fields), process).error && target.fields == old(target.fields)
    {
      match evaluate(target.fields, process) {
        case Ok(fields) =>
          target.fields := fields;
          thrown := None;
        case Fail(e) =>
          thrown := Some(e);
      }
    }
  }

  /** The state a process is in: the state's properties and, once attached, its actions. */
  class CurrentState {
    var fields: Fields
    var actions: AssocEntitySet?

    /** `CurrentState::fromData($data)`. */
    constructor FromData(data: Fields)
      ensures fields == data && actions == null
    {
      fields, actions := data, null;
    }

    /** `$currentState->actions = $actions`: the collection becomes the state's one
        `actions` property, replacing whatever the data held under that name. */
    method AttachActions(collection: AssocEntitySet)
      modifies this
      ensures fields == old(fields) - {"actions"} && "actions" !in fields
      ensures actions == collection
    {
      fields, actions := fields - {"actions"}, collection;
    }

    ghost function View(): Snapshot
      reads this, actions, if actions == null then {} else actions.items.Values
      requires actions != null && actions.Valid()
    {
      Snapshot(fields, actions.Contents())
    }
  }

  /** Instantiates the state a process is in from the state definition in its scenario.
      Neither method has a modifies clause: no object that exists before the call, the
      definitions included, is changed; only fresh copies are enriched. */
  class StateInstantiator {
    const dataEnricher: DataEnricher

    constructor (dataEnricher: DataEnricher)
      ensures this.dataEnricher == dataEnricher
    {
      this.dataEnricher := dataEnricher;
    }

    /** `instantiate`: enrich a clone of the definition, convert it, and attach the actions
        the scenario binds to the original definition; failures wrapped as by `Caught`. */
    method Instantiate(definition: Entity, process: Process) returns (r: Result<CurrentState, Throwable>)
      ensures var spec := Instantiation(dataEnricher.evaluate, definition.fields,
                                        Found(process.scenario.getActionsForState(definition)), process);
              && (r.Ok? <==> spec.Ok?)
              && (r.Fail? ==> r.error == spec.error)
              && (r.Ok? ==> && fresh(r.value) && r.value.actions != null && fresh(r.value.actions)
                            && r.value.actions.Valid() && r.value.View() == spec.value
                            && forall k :: k in r.value.actions.items ==> fresh(r.value.actions.items[k]))
    {
      ghost var lookup := process.scenario.getActionsForState(definition);
      ghost var spec := Instantiation(dataEnricher.evaluate, definition.fields, Found(lookup), process);
      var title := Title(definition.fields);
      var state := new Entity.Clone(definition);
      var thrown := dataEnricher.ApplyTo(state, process);
      if thrown.Some? {
        assert spec == Fail(Caught(title, thrown.value));
        return Fail(Caught(title, thrown.value));
      }
      // CurrentState::fromData($state->toData())
      var currentState := new CurrentState.FromData(state.fields);
      var found := process.scenario.getActionsForState(definition);
      if found.Fail? {
        assert spec == Fail(Caught(title, found.error));
        return Fail(Caught(title, found.error));
      }
      var actions := InstantiateActions(found.value, process);
      DefinitionsUnchanged(found.value);
      if actions.Fail? {
        assert spec == Fail(Caught(title, actions.error));
        return Fail(Caught(title, actions.error));
      }
      ghost var assembled := actions.value.Contents();
      assert spec == Ok(Snapshot(currentState.fields - {"actions"}, assembled));
      label Assembled:
      currentState.AttachActions(actions.value);
      ContentsUnchanged@Assembled(actions.value);
      assert currentState.View() == Snapshot(currentState.fields, assembled);
      DefinitionsUnchanged(found.value);
      return Ok(currentState);
    }

    /** `instantiateActions`: a clone of each action definition, enriched and stored
        under its key, in order; the first throwable aborts. */
    method InstantiateActions(actionDefinitions: seq<(string, Entity)>, process: Process)
      returns (r: Result<AssocEntitySet, Throwable>)
      ensures Definitions(actionDefinitions) == old(Definitions(actionDefinitions))
      ensures var spec := AssembleActions(dataEnricher.evaluate, Definitions(actionDefinitions), process);
              && (r.Ok? <==> spec.Ok?)
              && (r.Fail? ==> r.error == spec.error)
              && (r.Ok? ==> && fresh(r.value) && r.value.Valid() && r.value.Contents() == spec.value
                            && forall k :: k in r.value.items ==> fresh(r.value.items[k]))
    {
      ghost var ds := Definitions(actionDefinitions);
      var actions := new AssocEntitySet.ForClass();
      var i := 0;
      while i < |actionDefinitions|
        invariant 0 <= i <= |actionDefinitions|
        invariant fresh(actions) && actions.Valid()
        invariant forall k :: k in actions.items ==> fresh(actions.items[k])
        invariant AssembleActions(dataEnricher.evaluate, ds[..i], process) == Ok(actions.Contents())
      {
        var (key, definition) := actionDefinitions[i];
        ghost var before := actions.Contents();
        var action := new Entity.Clone(definition);
        var thrown := dataEnricher.ApplyTo(action, process);
        assert ds[i] == (key, definition.fields);
        AssembleStep(dataEnricher.evaluate, ds, i, process);
        if thrown.Some? {
          assert AssembleActions(dataEnricher.evaluate, ds[..i + 1], process) == Fail(thrown.value);
          AssembleAbortsOnFailure(dataEnricher.evaluate, ds, i + 1, process);
          DefinitionsUnchanged(actionDefinitions);
          return Fail(thrown.value);
        }
        assert actions.Contents() == before;
        actions.OffsetSet(key, action);
        i := i + 1;
      }
      assert ds[..i] == ds;
      DefinitionsUnchanged(actionDefinitions);
      return Ok(actions);
    }
  }
}
