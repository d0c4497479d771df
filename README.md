# react-elmish-utils, modelled in Dafny

react-elmish-utils is a set of helpers for Elm-style React screens: each
screen has a model, messages, and an update function that returns a partial
model plus a command for the host framework (react-elmish) to run. This
project models the library's core:

- **Search screen** (`Search`, `SearchScreen`): filtering items by a text
  query and by togglable filters that are OR-ed together, and
  the screen's update map. Filters are objects (`class Filter`) because the
  screen finds the one to toggle by reference and replaces it in the
  filter array in place.
- **Forms** (`Form`, `FormUpdateMap`, `FormMap`, `LegacyForm`): the
  validate/accept state machine in its four textual variants. The variants
  are the `switch` reducer, the same reducer as an update map, an update map
  with its own lower-case messages, and the older form without values that
  converts the model with `getData`.
- **List screen** (`ListScreen`): the sorter key / sort direction state
  machine and the in-place sort of the items array.
- **Validation helpers** (`Validation`, `ExecValidation`): looking an error
  up by key, and collecting the truthy messages of a list of validators.

`Base` holds `Option`, a first-match search (`Array.prototype.find`), a
filter (`Array.prototype.filter`) and subsequences. `Elmish` holds the
command datatype.

Modelling conventions:

- A handler's partial model is a datatype of `Option` fields. The host's
  `{...model, ...partial}` merge is `Apply`.
- Commands are `NoCmd`, `OfMsg(msg)` (`cmd.ofMsg`) and `Perform(args, k)`
  (`cmd.ofPromise.perform` of the validation on `args`, continuing with
  `Validated(result, k)`). Commands are described, never run, by the
  handlers. The host running them is modelled as `Execute`/`Run` in the
  form modules.
- Caller hooks that return nothing are recorded as `Effect` values in the
  order they are called:
  - `onAccept`, `onCancel`, `onSorterChanged`, `onUpdateSorting`;
  - the legacy `props.onAccept` and `props.onCancel`.

  Hooks that return something are total functions held in the options:
  - `initValues`, `validate`, `onValueChanged`, `getData`;
  - comparators and filter predicates.
- `validate` returns a promise in the source. Here it returns the errors
  the promise resolves to.

Where the code and the library's test files disagree, the model follows
the code:

- The tests in src/Form/Form.spec.ts and src/FormMap/FormMap.spec.ts use a
  `reValidating` flag, a `trimValues` option and an `onValidated` hook. The
  code has none of these.
- The search code has no filter groups and no `showAllItemsByDefault`
  option, so neither is modelled.
- `init` of the search screen makes every filter inactive, even one that is
  declared active.

## Model

| member | source | states |
|---|---|---|
| Search.Search | src/SearchScreen/Search.ts:49-59 | the result is a subsequence of the items; an empty query with no active filter (or no filters) gives nothing; an empty query with an active filter gives exactly the filtered items; with a query, every item returned satisfies `filterByQuery` on the lower-cased query |
| Search.SearchMembership | src/SearchScreen/Search.ts:49-59 | when the query or an active filter is present, an item is in the result iff some active filter accepts it (or none is active) and it matches the lower-cased query (or the query is empty) |
| Search.SearchIsOneFilter | src/SearchScreen/Search.ts:49-77 | when the query or an active filter is present, the result is exactly one `filter` of the items by that test, so it keeps their order and every copy of a shown item |
| Search.AreQueryAndFiltersEmpty | src/SearchScreen/Search.ts:79-81 | true iff the query is empty and the filters are absent or none of them is active (the list of active filters is empty) |
| Search.FilterItems | src/SearchScreen/Search.ts:61-77 | with filters absent or all inactive the items come back unchanged; otherwise the result is exactly `filter` of the items by "some active filter accepts it", so every copy of an accepted item is kept, in item order |
| Search.AnyAcceptsIsOr | src/SearchScreen/Search.ts:66-76 | the loop over the active filters accepts an item iff some active filter's predicate accepts it |
| Search.ToLowerCase | src/SearchScreen/Search.ts:54 | lower-casing keeps the length and maps exactly `A`-`Z` to `a`-`z` |
| SearchScreen.Init | src/SearchScreen/SearchScreen.ts:108-118 | empty query, items and visible items; filters absent iff no definitions; otherwise one new filter per definition, in order, with its name and predicate, all inactive, and pairwise distinct objects, so toggling by reference can hit only one entry |
| SearchScreen.QueryChangedHandler | src/SearchScreen/SearchScreen.ts:120-122 | only the query changes and `refreshSearch` is dispatched |
| SearchScreen.RefreshSearchHandler | src/SearchScreen/SearchScreen.ts:128-137 | only the visible items change, to `search` of the model's query, items and current filters, a subsequence of the items; no command |
| SearchScreen.IndexOf | src/SearchScreen/SearchScreen.ts:92 | absent iff the object is not in the array; otherwise the position of its first occurrence |
| SearchScreen.HandleToggleFilter | src/SearchScreen/SearchScreen.ts:87-104 | absent filters or a filter not in the array by reference: nothing changes, empty update, no command; otherwise only the first matching entry is replaced, by a new filter with the same name and predicate and the opposite `active`, the update carries a new copy of the array, and `refreshSearch` is dispatched (`toggleFilter`, lines 124-126, delegates here) |
| Validation.GetError | src/Validation/Validation.ts:16-18 | nothing iff no error has the key (so nothing for an empty list); otherwise the message of the first error with the key; `getError` of src/Validation.ts:8-10 is the same function |
| Validation.GetErrorAppend | src/Validation/Validation.ts:16-18 | an error with the key in front of a list shadows every later one: the lookup in `front + back` is the one in `front` if that succeeds, else the one in `back` |
| Validation.Contribution | src/Validation/Validation.ts:27-29 | a validator contributes one `{key, message}` iff its message is truthy, with its key and message, and nothing otherwise |
| Validation.Collected | src/Validation/Validation.ts:21-32 | the collected errors are at most as many as the validators, and none for no validators |
| Validation.RunValidation | src/Validation/Validation.ts:20-33 | every validator is called once, in argument order: `calls` records each call's key and awaited result; the errors are the truthy contributions in validator order |
| ExecValidation.RunValidationKeepsTruthyInOrder | src/Validation/Validation.ts:20-33 | the errors, read back as `{key, message}` records, are exactly the validators' results filtered by truthiness: one per validator with a truthy message, in validator order, each message non-empty |
| ExecValidation.Invoke | src/Validation.ts:14 | every validator is called once, in order, giving its key and message |
| ExecValidation.AsErrors | src/Validation.ts:15 | the kept records read as errors keep their keys and messages, one for one |
| ExecValidation.ExecValidators | src/Validation.ts:12-18 | no more errors than validators, and none for no validators |
| ExecValidation.ExecValidatorsKeepsTruthyInOrder | src/Validation.ts:12-18 | the kept errors, read back as `{key, message}` records, are exactly the validators' results filtered by truthiness: one per validator with a truthy message, in input order, each message non-empty |
| ExecValidation.ExecValidatorsIsCollected | src/Validation.ts:12-18 | the `map`/`filter` chain collects the same errors as the loop of `runValidation` |
| ExecValidation.Lift | src/Validation.ts:15 | reading errors back as records is pointwise and keeps the length |
| ExecValidation.LiftAsErrors | src/Validation.ts:15 | reading kept records as errors and back gives the records |
| Form.Init | src/Form/Form.ts:125-131 | no errors, not validated, values from `initValues(props)` |
| Form.RunValidate | src/Form/Form.ts:104-110 | without a `validate` option the validation finds no errors |
| Form.Update | src/Form/Form.ts:133-186 | for every message: `validated` afterwards is what it was, or true after `Validate` (never reverts, only `Validate` writes it); `Accept` is dispatched only by `Validated([], Accept)`; hooks run only for `Accept` and `Cancel` |
| Form.ValueChangedMerges | src/Form/Form.ts:135-147 | the values become a right-biased union of the old values and the partial (or the `onValueChanged` result): keys of the partial take its values, other keys keep theirs; nothing else changes; `ReValidate` is dispatched |
| Form.RequestsChangeNothing | src/Form/Form.ts:149-158 | `AcceptRequest` changes nothing and dispatches `Validate(Accept)`; `CancelRequest` changes nothing and dispatches `Cancel` |
| Form.AcceptAndCancelOnlyCallHooks | src/Form/Form.ts:152-163 | `Accept` and `Cancel` change nothing, issue no command, and call `onAccept`/`onCancel` with the model and props exactly when given |
| Form.ValidateClearsAndValidates | src/Form/Form.ts:165-166 | `Validate` clears the errors, sets `validated`, and validates the model as it was, continuing with the same message |
| Form.ValidatedOutcomes | src/Form/Form.ts:168-177 | non-empty errors are shown and the continuation dropped; no errors with a continuation dispatches it without changing the model; otherwise nothing |
| Form.ReValidateOnlyWhenValidated | src/Form/Form.ts:179-184 | `ReValidate` changes nothing and dispatches `Validate()` without continuation iff the form is validated |
| Form.NoPrematureValidation | src/Form/Form.ts:179-184 | a freshly initialised form does not validate on `ReValidate` |
| Form.StepDecreases | src/Form/Form.ts:133-186 | every message a command leads to is smaller in a well-founded measure, so a chain of dispatches ends |
| Form.Run | src/Form/Form.ts:133-186 | a run of the host starts with the given message, and a validated form stays validated for the whole run |
| Form.AcceptFollowsCleanValidation | src/Form/Form.ts:168-177 | the host dispatches `Accept` after a step only when that step handled `Validated([], Accept)` |
| Form.RunAcceptsOnlyAfterCleanValidation | src/Form/Form.ts:149-177 | in every run, a validated form stays validated, and every `Accept` the host dispatches directly follows `Validated([], Accept)` |
| Form.AcceptRequestRun | src/Form/Form.ts:149-177 | `AcceptRequest` validates the model as it stands; `onAccept` runs once iff that found no errors (and the hook is given), otherwise the errors are shown |
| FormUpdateMap.InitMap | src/Form/FormMap.ts:53-59 | the same initial model as the `switch` form |
| FormUpdateMap.ValueChangedHandler | src/Form/FormMap.ts:62-74 | agrees with the `switch` form's `ValueChanged` (a right-biased merge, then `ReValidate`) |
| FormUpdateMap.AcceptRequestHandler | src/Form/FormMap.ts:76-78 | agrees with the `switch` form's `AcceptRequest` |
| FormUpdateMap.AcceptHandler | src/Form/FormMap.ts:80-84 | agrees with the `switch` form's `Accept` |
| FormUpdateMap.CancelRequestHandler | src/Form/FormMap.ts:86-88 | agrees with the `switch` form's `CancelRequest` |
| FormUpdateMap.CancelHandler | src/Form/FormMap.ts:90-94 | agrees with the `switch` form's `Cancel` |
| FormUpdateMap.ValidateHandler | src/Form/FormMap.ts:96-106 | agrees with the `switch` form's `Validate` |
| FormUpdateMap.ValidatedHandler | src/Form/FormMap.ts:108-118 | agrees with the `switch` form's three-way `Validated` |
| FormUpdateMap.ReValidateHandler | src/Form/FormMap.ts:120-126 | agrees with the `switch` form's `ReValidate` |
| FormUpdateMap.UpdateMap | src/Form/FormMap.ts:61-127 | for every message, the update map does what the `switch` reducer does, so all of the `Form` properties hold for it |
| FormMap.UpdateMap | src/FormMap/FormMap.ts:107-173 | only `valueChanged` writes the values; a validation is started iff the message is `validate`, on the model as it stands and with its continuation; errors are written iff the message is `validate` (which clears them) or `validated` with errors (which shows them) |
| FormMap.FromFormToForm | src/FormMap/FormMap.ts:5-13 | renaming a message to the `switch` form's messages and back gives it back |
| FormMap.ToFormFromForm | src/FormMap/FormMap.ts:5-13 | renaming a `switch` form message to this map's messages and back gives it back |
| FormMap.InitMap | src/FormMap/FormMap.ts:99-105 | no errors, not validated, values from `initValues(props)` (the `switch` form's `init`) |
| FormMap.UpdateMapAgreesWithForm | src/FormMap/FormMap.ts:107-173 | message for message: the same partial model, the same hook calls, and the same command up to renaming, as the `switch` form |
| FormMap.UpdateMapKeepsFormGuarantees | src/FormMap/FormMap.ts:107-173 | `validated` never reverts and only `validate` sets it; only a clean `validated` with an `accept` continuation dispatches `accept`; hooks run only for `accept` and `cancel` |
| FormMap.AcceptChain | src/FormMap/FormMap.ts:122-164 | `acceptRequest` dispatches `validate(accept)`; that validates the model as it stands, passing `accept` on; `validated(errors, accept)` dispatches `accept` iff the errors are empty |
| LegacyForm.Init | src/LegacyForm/Form.ts:120-125 | only the form's own fields: no errors, not validated |
| LegacyForm.RunValidate | src/LegacyForm/Form.ts:100-106 | without a `validate` option the validation finds no errors |
| LegacyForm.Update | src/LegacyForm/Form.ts:127-168 | for every message: the consumer's part of the model is untouched; `validated` never reverts and only `Validate` writes it; `Accept` is dispatched only by `Validated([], Accept)`; `onAccept` is called exactly once, with `getData(model, props)`, for `Accept`, `onCancel` exactly once for `Cancel`, and nothing else is called |
| LegacyForm.RequestSteps | src/LegacyForm/Form.ts:129-145 | `AcceptRequest` and `CancelRequest` change nothing and dispatch `Validate(Accept)` and `Cancel`; `Accept` and `Cancel` change nothing and issue no command |
| LegacyForm.ValidationSteps | src/LegacyForm/Form.ts:147-159 | `Validate` returns the whole model with no errors and `validated` set, and validates the model as it was; `Validated` with errors returns the whole model with the errors replaced and no command; without errors it dispatches the continuation, if any |
| LegacyForm.ReValidateOnlyWhenValidated | src/LegacyForm/Form.ts:161-166 | `ReValidate` changes nothing and dispatches `Validate()` iff the model is validated |
| LegacyForm.StepDecreases | src/LegacyForm/Form.ts:127-168 | every message a command leads to is smaller in a well-founded measure |
| LegacyForm.Run | src/LegacyForm/Form.ts:127-168 | over a whole run of the host: the consumer's part of the model is untouched, a validated form stays validated, and at most one callback is made |
| LegacyForm.AcceptRequestRun | src/LegacyForm/Form.ts:129-159 | `AcceptRequest` validates the model as it stands; `onAccept` is called exactly once, with the data of the validated model, iff that found no errors; otherwise the errors are shown |
| LegacyForm.CancelRequestRun | src/LegacyForm/Form.ts:139-145 | `CancelRequest` calls `onCancel` exactly once and changes nothing |
| ListScreen.Init | src/ListScreen/ListScreen.ts:106-118 | no items, ascending, and the first sorter's key iff the sorter option is a non-empty array (otherwise `null`) |
| ListScreen.DataLoadedHandler | src/ListScreen/ListScreen.ts:120-122 | the items become the loaded array and `refresh` is dispatched |
| ListScreen.CurrentComparator | src/ListScreen/ListScreen.ts:125-131 | a plain comparison function is used whatever the key; for an array, the comparator of the sorter `getSorterByKey` finds for the current key, none for a `null`, empty or unknown key; none without a sorter option |
| ListScreen.RefreshHandler | src/ListScreen/ListScreen.ts:124-140 | no comparator: nothing changes; otherwise the items array is sorted in place into a permutation of the old items, ordered by the comparator when ascending and by the swapped comparator when descending (for a total preorder); no command |
| ListScreen.Sort | src/ListScreen/ListScreen.ts:134 | sorting in place gives a permutation, ordered by the comparator when it is a total preorder |
| ListScreen.InsertDown | src/ListScreen/ListScreen.ts:134 | one insertion pass permutes the items and extends the ordered prefix by one |
| ListScreen.AdjacentToSorted | src/ListScreen/ListScreen.ts:134 | for a transitive comparator, neighbours in order means every pair in order |
| ListScreen.SwappedTotalPreorder | src/ListScreen/ListScreen.ts:204 | swapping a total preorder's arguments gives a total preorder |
| ListScreen.SortDescending | src/ListScreen/ListScreen.ts:202-205 | a permutation in which every item compares at least equal to every later one (for a total preorder) |
| ListScreen.GetSorterByKey | src/ListScreen/ListScreen.ts:194-200 | nothing for a `null` or empty key or a non-array option; otherwise nothing iff no sorter has the key, else the first sorter with the key |
| ListScreen.SetSorterHandler | src/ListScreen/ListScreen.ts:142-162 | the current key changes nothing and calls no hook, and dispatches `toggleSortDirection` iff asked to; another key becomes current even if no sorter has it, the hooks are called, and `refresh` is dispatched |
| ListScreen.SetSorterReportsNamedSorter | src/ListScreen/ListScreen.ts:151-155 | `onSorterChanged` is called by `setSorter` only for a new, non-empty key of an array option, with the first sorter having that key and the unchanged direction |
| ListScreen.SetSortDirectionHandler | src/ListScreen/ListScreen.ts:164-170 | only the direction changes; `onUpdateSorting` gets the current key (or `""`) and the new direction; `refresh` is dispatched |
| ListScreen.Flip | src/ListScreen/ListScreen.ts:174 | the other direction is different |
| ListScreen.FlipInvolution | src/ListScreen/ListScreen.ts:174 | flipping twice gives the direction back |
| ListScreen.ToggleSortDirectionHandler | src/ListScreen/ListScreen.ts:172-185 | only the direction changes, to the other one; the hooks get the new direction (`onSorterChanged` only for a sorter the key names); `refresh` is dispatched |
| ListScreen.ToggleTwiceRestores | src/ListScreen/ListScreen.ts:172-185 | toggling the direction twice gives back the model toggled from |
| ListScreen.SetSortingHandler | src/ListScreen/ListScreen.ts:187-189 | exactly the key and the direction change, no hook is called, and `refresh` is dispatched |

## Left out

- Search.ToLowerCase: maps only the ASCII letters. JavaScript's `toLowerCase` also maps other Unicode letters, and can change a string's length; that is not modelled.
- ListScreen.Sort: an insertion sort stands for `Array.prototype.sort`. The result is a permutation for any comparator and ordered for a total preorder. `Array.prototype.sort` is stable since ECMAScript 2019, so tied items keep their input order; the insertion sort is stable too, but no contract states it. The order produced for an inconsistent comparator is implementation-defined in ECMAScript and is not modelled.
- ListScreen.SortDescending: always takes a comparator. The branch without one (`array.sort().reverse()`, the default string-coercing sort) cannot be reached from `refresh` and is not modelled.
- Promises: validators and `validate` return their awaited result directly. Async scheduling, rejection, and two validations racing are not modelled.
- The host framework is not part of the model: react-elmish's merging of partial models (`Apply`) and its running of commands (`Execute`, `Run`) are modelled as the library relies on them.
- Hooks and callbacks: only whether they are called and with what arguments is recorded; what they do is caller code.
- Form.Model: holds only `values`, `errors` and `validated`. The rest of the consumer's composite model, which the hooks also receive, is not modelled for these forms; it is in `LegacyForm.State`.
- Message sources: the `{ source: "Form" }` tag of the form messages is not modelled. The `Msg` factories are the datatype constructors.
- The `getError` members of the form objects delegate to `Validation.GetError` and are not modelled separately.
- Navigation (src/Navigation), the dependency-injection hook (src/ElmishDi), the test harnesses (src/Testing, src/Internal) and the barrel `index.ts` files are not part of this model. They are unfinished drafts, React plumbing, or re-exports.
- Not in the code, so not in the model:
  - the `reValidating` flag and `trimValues`;
  - an `onValidated` hook;
  - filter groups and `showAllItemsByDefault`;
  - keeping an initially active filter active;
  - the `modified`/`onCancelRequest` form API.
