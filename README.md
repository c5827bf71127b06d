# State instantiation in the workflow engine

This project models the state instantiator of the LTO Network workflow engine (`StateInstantiator`)
and proves properties of that model. A scenario holds shared, reusable state and action definitions.
For a running process, the instantiator does the following:

- it clones the state definition;
- it lets the data enricher evaluate the data instructions in the clone, with the process as context;
- it converts the clone into a `CurrentState`;
- it asks the scenario for the action definitions bound to the state;
- it builds the state's keyed action collection from enriched clones of those definitions, one by one and in order.

An exception on the way is rethrown as one `RuntimeException` that names the state.

Modules, one per component:

- `Wrappers` (`wrappers.dfy`): `Option`, and `Result` for "returned a value or threw".
- `Throwables` (`throwables.dfy`): PHP throwables. The model splits them into the `\Exception`
  family and the `\Error` family, and each one carries a message, a code and a previous throwable.
- `Entities` (`entities.dfy`): state and action definitions are objects of class `Entity`. An entity's
  properties are a dynamically typed value tree. `Entity.Clone` is PHP's `clone`. `Title` reads a state's title.
- `OrderedMaps` (`ordered_maps.dfy`): the abstract value of a PHP associative array. `Put` is `$a[$k] = $v`.
  `FromPairs` assigns a sequence of pairs in order. Lemmas relate the result to the pairs.
- `AssocEntitySets` (`assoc_entity_set.dfy`): class `AssocEntitySet`, the keyed collection
  that holds a state's actions. It keeps a key sequence and a map, and `OffsetSet` updates them in place.
- `StateInstantiation` (`state_instantiator.dfy`): the classes `DataEnricher`, `CurrentState` and
  `StateInstantiator`, with two pure specifications:
  - `AssembleActions` specifies `instantiateActions`;
  - `Instantiation` specifies `instantiate`.

  The module also holds the lemmas about both specifications.

Two parts of the system are parameters of the model:

- The data enricher's instruction language is a function value
  `evaluate: (Fields, Process) -> Result<Fields, Throwable>`. It is held by `DataEnricher`, and
  `ApplyTo` writes its result into the target entity.
- The scenario's `getActionsForState` is a function value
  `Entity -> Result<seq<(string, Entity)>, Throwable>` inside `Process`.

The lookup is handed the entity reference itself. The contract of `Instantiate` therefore shows
that the lookup receives the original definition and not the enriched clone.
`StateInstantiator.Instantiate` and `InstantiateActions` have no `modifies` clause. Dafny therefore
checks that no object existing before the call is changed: the state definition, the action
definitions and the process stay as they were, and only fresh clones are enriched.

On these points the model follows the code:

- Only `\Exception`s are caught and wrapped. A `\Error`, such as a `TypeError`, passes through
  unchanged (`Caught`).
- The message is exactly `Failed to instantiate state`, followed by ` '<title>'` when the
  original definition's `title` is set. The title comes from the unenriched definition, not from the clone.
- The code makes no deep-copy promise about `clone`: that depends on entity classes that are not
  part of this model. An `Entity` holds only immutable values, so a clone shares no mutable storage
  with its source here. The model does not claim this for PHP.
- Line 43 assigns the collection to the state's `actions` property. After that the state has exactly one
  `actions` property, the collection, so any `actions` entry in the enriched data is gone. The model keeps
  the collection in its own field and removes `actions` from the state's properties when it attaches it
  (`CurrentState.AttachActions`).

## Model

| member | source | states |
|---|---|---|
| `Entities.Entity.Clone` | services/StateInstantiator.php:38 | the clone is a new object whose properties equal the definition's |
| `Entities.Title` | services/StateInstantiator.php:45 | the title is present exactly when the definition's `title` property holds a string, and it is that string |
| `OrderedMaps.Empty` | services/StateInstantiator.php:61 | a new collection is well formed and has no entries |
| `OrderedMaps.Put` | services/StateInstantiator.php:67 | assigning under a key stores the value there and leaves every other key and value alone; an existing key keeps its position and no second entry is added; a new key is appended |
| `OrderedMaps.FromPairs` | services/StateInstantiator.php:61-68 | assigning any sequence of pairs in order gives a well-formed collection: distinct keys, exactly the listed keys hold values |
| `OrderedMaps.FromPairsAppend` | services/StateInstantiator.php:63-67 | proof step: one more pair changes the collection built so far by exactly one assignment (one unfolding of `FromPairs`, used by `AssembleSucceeds`) |
| `OrderedMaps.FromPairsKeys` | services/StateInstantiator.php:63-67 | a key is in the collection if and only if some pair yielded it |
| `OrderedMaps.FromPairsLastWins` | services/StateInstantiator.php:63-67 | every key holds the value of the last pair yielded under it |
| `OrderedMaps.FromPairsOrder` | services/StateInstantiator.php:63-67 | keys are listed in the order they were first yielded |
| `AssocEntitySets.AssocEntitySet.ForClass` | services/StateInstantiator.php:61 | a new action collection is valid and empty |
| `AssocEntitySets.AssocEntitySet.OffsetSet` | services/StateInstantiator.php:67 | `$actions[$key] = $action` updates the collection exactly as `Put` does, both as references and as contents |
| `StateInstantiation.DataEnricher.ApplyTo` | services/StateInstantiator.php:39 | on success the target's properties become their evaluation against the process; otherwise the evaluation's throwable is returned |
| `StateInstantiation.CurrentState.FromData` | services/StateInstantiator.php:40 | the current state carries the enriched state's properties, with no actions attached yet |
| `StateInstantiation.StateInstantiator.constructor` | services/StateInstantiator.php:22-25 | the instantiator keeps the data enricher it is given |
| `StateInstantiation.AssembleActions` | services/StateInstantiator.php:59-71 | the specification of `instantiateActions`; whenever it succeeds, the collection is well formed |
| `StateInstantiation.AssembleSucceeds` | services/StateInstantiator.php:59-71 | assembly succeeds if and only if every action definition enriches, and then equals the keyed collection of the enriched copies in source order |
| `StateInstantiation.AssembleFirstFailure` | services/StateInstantiator.php:63-65 | a failed assembly returns exactly what enriching the first failing action threw, and every earlier action enriched |
| `StateInstantiation.AssembleStep` | services/StateInstantiator.php:63-67 | proof step for the loop of `InstantiateActions`: each iteration either stores the enriched copy under its key or aborts with its error (one unfolding of `AssembleActions`) |
| `StateInstantiation.AssembleAbortsOnFailure` | services/StateInstantiator.php:63-65 | once a prefix of the actions fails, the actions after it change nothing: the run ends with that error |
| `StateInstantiation.StateInstantiator.InstantiateActions` | services/StateInstantiator.php:59-71 | the loop returns exactly what `AssembleActions` specifies: the error, or a fresh valid collection of fresh enriched clones; the definitions are unchanged |
| `StateInstantiation.Caught` | services/StateInstantiator.php:44-46 | the catch clause: the result is an exception exactly when the cause is one; an exception becomes a `RuntimeException` with the state's failure message, code 0 and the exception as previous; any other throwable passes through unchanged |
| `StateInstantiation.Instantiation` | services/StateInstantiator.php:37-46 | the specification of `instantiate`: on success the collection is well formed and the state has no `actions` property besides it; every exception it reports is a `RuntimeException` with code 0 and the state's failure message |
| `StateInstantiation.FailureMessage` | services/StateInstantiator.php:45 | the message starts with `Failed to instantiate state`; it is longer exactly when a title is set, and then ends with ` '<title>'` |
| `StateInstantiation.CurrentState.AttachActions` | services/StateInstantiator.php:43 | the collection becomes the state's `actions`; the other properties stay, and an `actions` property from the data is removed |
| `StateInstantiation.InstantiationSucceeds` | services/StateInstantiator.php:37-43 | instantiation succeeds if and only if the state enriches, the lookup returns and every action enriches; the result is then the enriched state's properties without `actions`, with the keyed collection of enriched actions in its place |
| `StateInstantiation.InstantiationFailure` | services/StateInstantiator.php:44-46 | a failure reports the first failing step's throwable: an exception becomes a `RuntimeException` with the state's message, code 0 and the exception as previous; any other throwable is returned unchanged |
| `StateInstantiation.InstantiationWithoutActions` | services/StateInstantiator.php:61-70 | a state bound to no actions gets an empty collection, not an error |
| `StateInstantiation.ApprovalExample` | services/StateInstantiator.php:44-46 | a state titled `Approval` whose action cannot be enriched fails with `Failed to instantiate state 'Approval'`, chained to the enrichment failure |
| `StateInstantiation.StateInstantiator.Instantiate` | services/StateInstantiator.php:35-50 | the method returns exactly what `Instantiation` specifies. Actions are looked up with the original definition. On success it returns a fresh state with a fresh action collection of fresh clones, which has replaced any `actions` property of the data. It has no modifies clause, so no existing object is changed |

## Left out

- The data-enrichment instruction language (`LegalThings\DataEnricher`) is a library that is not part of this model. It is the parameter `evaluate`, which may throw.
- `StateInstantiation.DataEnricher.ApplyTo` leaves the target unchanged when evaluation throws. The library might partly rewrite the target first. Nobody can see the difference, because the instantiator then discards the clone.
- `Entities.Entity.Clone` never throws, and the model says nothing about clone depth. Both depend on `__clone` in entity classes that are not part of this model.
- `CurrentState::fromData` and `toData` are modelled as a lossless copy of the properties that cannot throw. Their code is not part of this model.
- The scenario's `getActionsForState` is an opaque function value. It yields a finished sequence, so a lazy generator that throws partway through is not modelled.
- Action keys are strings. PHP's integer array keys are not modelled.
- `AssocEntitySet::forClass` checks entity classes at run time. Here the collection's element type is fixed to `Entity`.
- `Entities.Title` treats a `title` that is set but not a string as unset. The State class's own property types are not part of this model.
- `tests/api/Scenario/InvalidScenarioDataCest.php` is an HTTP test of schema validation in code that is not part of this model.
- Persistence, HTTP and concurrency are not done by this code and are not modelled.
