# react-simple-di, modelled in Dafny

react-simple-di is a small dependency-injection layer for React. `injectDeps(context, actions)`
turns an application's action table (`{group: {name: fn}}`) into a bound table, where every
action gets the context as its first argument. It returns a provider enhancer. The provider
publishes `{context, actions}` to its subtree and renders the wrapped component with its own
props. `useDeps(mapper)` builds a consumer. The consumer reads the published pair, runs it
through the mapper (by default `{context: () => context, actions: () => actions}`) and
renders the wrapped component with its own props, overridden by the mapped ones. Each
enhancer gives its component a display name: `WithDeps(X)` or `UseDeps(X)`.

The project has four modules:

- `Values` (values.dfy). JavaScript values as a datatype: `undefined`, strings, objects,
  callable actions and zero-argument accessors. An action is an opaque original function plus
  the arguments already fixed by `Function.prototype.bind`. Binding an already bound function
  appends the new argument after the earlier ones. `BindTimes`, `BindGroupTimes` and
  `BindTable` are the specification of one or more binding passes.
- `Binding` (binding.dfy). The binding pass of `injectDeps` as imperative code over heap
  objects. A `GroupTable` object maps group names to `ActionGroup` objects. The pass rewrites
  each group object's actions in place, and the result table holds the very same group
  objects. A group object reachable under two names is bound once per name: the ghost
  `Multiplicity` counts those names. The module also has a copying pass, which is what the
  library's test of repeated injection expects.
- `Deps` (deps.dfy). The provider's child context and render, the default mapper, the
  consumer's props merge, and the display names, all as pure functions.
- `Scenarios` (scenarios.dfy). The library's usage scenarios, each stated as the text or
  value the consumer's component renders.

The library's test 'should let use inject actions multiple times'
(lib/__tests__/index.js:65-96) expects a second `injectDeps` over the same table to still
render `arunoda-susiripala`. The code binds the caller's group objects in place, so the
second construction binds every action a second time, and this also changes the table the
first provider already publishes. The model follows the code (see Findings).

## Model

| member | source | states |
|---|---|---|
| Values.Invoke | lib/index.js:12 | calling a bound function calls its original function with the bound arguments first, followed by exactly the caller's arguments |
| Values.Bind | lib/index.js:12 | `fn.bind(null, context)` keeps the original function and adds one fixed argument; calling the result with any arguments calls the original with `context` in front of them |
| Values.BindTimes | lib/index.js:12 | binding the same context `n` times keeps the original function and adds exactly `n` fixed arguments |
| Values.BindTimesPrefix | lib/index.js:12 | after `n` bindings, the arguments bound earlier stay in front and are followed by `n` copies of the context |
| Values.InvokeBindTimes | lib/index.js:12 | calling an action bound `n` times to the same context passes `n` copies of the context before the caller's arguments |
| Values.BindTimesAdd | lib/index.js:12 | binding accumulates rather than replacing: `i` bindings followed by `j` more are `i + j` bindings |
| Values.BindAfterBindTimes | lib/index.js:12 | one more `bind` of the same context extends an `n`-fold binding to an `n + 1`-fold one |
| Values.BindGroupTimes | lib/index.js:10-14 | binding a group keeps its action names, and each action keeps its original function and gains exactly `n` fixed arguments |
| Values.BindGroupTimesAdd | lib/index.js:10-14 | two passes over a group compose: `i` bindings then `j` bindings of every action equal `i + j` bindings |
| Values.BindTable | lib/index.js:5-17 | the bound table has the same group names as the input, and each group has the same action names |
| Values.InvokeBoundTable | lib/index.js:5-17 | each action of the bound table, called with any arguments, calls the application's original action with the context first |
| Values.TableValue | lib/index.js:29 | the published `actions` object has the table's group names as properties, each a group object whose properties are the table's action names, and `actions[group][name]` is that action |
| Binding.MultiplicityOfDistinct | lib/index.js:7-15 | when no group object is shared between names, the pass reaches each group object exactly once |
| Binding.BindGroup | lib/index.js:10-14 | the inner loop replaces, in place, every own action of the group object by its binding to the context, and keeps the action names |
| Binding.OccurrencesAreMultiplicity | lib/index.js:7-16 | visiting each group name once, in any order, reaches a group object once for every name that leads to it |
| Binding.ProgressDone | lib/index.js:7-17 | when the outer loop ends, the result table maps every group name to the input's own group object, and each group object has been reached once per name leading to it |
| Binding.BindAgain | lib/index.js:9-14 | handling a group name binds that group object's actions once more |
| Binding.BindNextGroup | lib/index.js:8-16 | one step of the outer loop binds the group object under the name and stores that same object in the result under the name |
| Binding.InjectDeps | lib/index.js:5-17 | with no action table, the result is empty and nothing is touched. Otherwise the result maps every group name to the caller's own group object, and each group object's actions are the original actions bound once for every name that reaches the object |
| Binding.InjectDepsUnshared | lib/index.js:5-17 | one `injectDeps` pass over a table whose group objects are not shared between names publishes exactly the once-bound table of the caller's actions |
| Binding.DistinctInjectionSnapshot | lib/index.js:5-17 | when group objects are not shared, one pass leaves exactly the once-bound table behind |
| Binding.InjectAgain | lib/index.js:12 | another `injectDeps` over a table already injected `n` times leaves every group object bound `n + 1` times as often as one pass binds it |
| Binding.InjectRepeatedly | lib/index.js:12 | `k` constructions from the same table leave every action with `k` times the context arguments of one construction |
| Binding.InjectTwice | lib/index.js:12 | two constructions from the same table return tables that share the caller's group objects, and every action is bound twice as often as one pass binds it |
| Binding.InjectDepsCopying | lib/index.js:5-17 | corrected pass: the result table and each of its group objects are fresh, the result's actions are exactly the once-bound table of the caller's actions, and no existing object is changed |
| Binding.InjectCopyingTwice | lib/index.js:5-17 | with the corrected pass, two constructions from the same table share no group object with each other or with the caller, and publish equal, once-bound tables |
| Deps.ChildContext | lib/index.js:26-31 | the provider publishes exactly the two properties `context` and `actions`: the context unchanged, and the bound table as an object from which every action can be read |
| Deps.RenderWithDeps | lib/index.js:33-35 | the provider renders the wrapped component with its own props, key for key |
| Deps.DefaultMapper | lib/index.js:43-46 | the default mapper yields exactly `context` and `actions` accessors, which return the received context and actions |
| Deps.MapperOrDefault | lib/index.js:48 | an omitted mapper behaves as the default mapper on every context and actions; a given mapper is used as is |
| Deps.MergeProps | lib/index.js:55-58 | the merged props have every key of either side; a mapped value wins a collision; an own-only key keeps its own value |
| Deps.Lookup | lib/index.js:52 | destructuring a property of the received payload gives its value, or `undefined` when the payload lacks it |
| Deps.RenderUseDeps | lib/index.js:51-60 | the consumer renders the wrapped component; for the mapper (or the default) applied to the payload's `context` and `actions`, the props have every key of either side, mapped props override own ones, and own props the mapper does not set pass through unchanged |
| Deps.ConsumerSeesProvider | lib/index.js:48-60 | a consumer below a provider renders the wrapped component with the mapper applied to exactly the provider's context and published actions, merged over its own props |
| Deps.DefaultMapperRoundTrip | lib/index.js:43-60 | without a mapper, the `context()` and `actions()` props return exactly the provider's context and bound table, and every other own prop is passed through |
| Deps.Wrap | lib/index.js:38 | the template `tag(inner)`: the tag, an opening parenthesis, exactly `inner`, then a closing parenthesis |
| Deps.Unwrap | lib/index.js:69 | a name unwraps exactly when it starts with `tag(` and ends with `)`, and the recovered inner name is exactly the text between them |
| Deps.UnwrapIsInverse | lib/index.js:38 | a display name has the form `tag(inner)` exactly when unwrapping it with that tag gives back `inner` |
| Deps.WithDepsName | lib/index.js:38 | the provider's display name is `WithDeps(` + inner name + `)`, from which the inner name can be recovered |
| Deps.UseDepsName | lib/index.js:69 | the consumer's display name is `UseDeps(` + inner name + `)`, from which the inner name can be recovered |
| Deps.DisplayNamesDistinguish | lib/index.js:69 | no provider display name equals a consumer display name, and each display name determines the wrapped component's name |
| Scenarios.ContextScenario | lib/__tests__/index.js:10-34 | a provider with only a context and a consumer mapping `c.name` render the name `arunoda` |
| Scenarios.GetNameOnceBound | lib/__tests__/index.js:36-63 | below a table bound once, `getName('susiripala')` renders `arunoda-susiripala` |
| Scenarios.ActionsScenario | lib/__tests__/index.js:36-63 | one `injectDeps` over `{default: {getFullName}}` and the mapper `a.default.getFullName` render `arunoda-susiripala` |
| Scenarios.GetNameTwiceBound | lib/__tests__/index.js:65-96 | below a table bound twice, `getName('susiripala')` renders `arunoda-[object Object]` |
| Scenarios.RepeatedInjectionScenario | lib/__tests__/index.js:65-96 | with two `injectDeps` calls over the same table, as written, the component renders `arunoda-[object Object]`, not the expected `arunoda-susiripala` |
| Scenarios.RepeatedCopyingScenario | lib/__tests__/index.js:65-96 | with the corrected pass, the same two constructions render `arunoda-susiripala` |
| Scenarios.DefaultMapperOnceBound | lib/__tests__/index.js:98-124 | with the default mapper, `actions().default.getFullName(context().name)` renders `arunoda-arunoda` below a once-bound table |
| Scenarios.DefaultMapperScenario | lib/__tests__/index.js:98-124 | one `injectDeps` and a consumer with no mapper render `arunoda-arunoda` |
| Scenarios.OwnPropsScenario | lib/__tests__/index.js:126-143 | with no mapper, the consumer's own prop `name` reaches the component unchanged |
| Scenarios.DisplayNameScenarios | lib/__tests__/index.js:165-181 | wrapping `TheLayout` and `TheComp` gives the names `WithDeps(TheLayout)` and `UseDeps(TheComp)` |

## Left out

- React itself is not modelled: component classes, `createClass`, JSX, the context transport
  between provider and consumer, and the `childContextTypes`/`contextTypes` declarations. A
  consumer is modelled as receiving the provider's published payload directly.
  Nested-provider shadowing is therefore not modelled.
- Copying static fields onto the enhanced component (`hoistStatics`) is not part of this
  model, so neither are the static-field usage scenarios. `getDisplayName` is not part of this
  model either: the wrapped component's name is a parameter.
- A consumer rendered with no provider above it receives React's context object for its
  declared `contextTypes`, where `context` and `actions` are `undefined`. The model covers
  this as a payload that lacks those keys: `Lookup` reads them as `undefined`, and the
  consumer's render itself does not fail.
- Mappers are total functions from context and actions to an object of props. A mapper
  that throws, which would make the consumer's render fail, is not modelled. Neither is a
  mapper that returns something other than a plain object.
- Action functions are opaque. An action records its original function's identity and its
  fixed arguments, and a call is the resulting invocation. What an application action
  computes is modelled only for the scenarios' `getFullName`. The receiver is not modelled
  either: `bind(null, context)` fixes `this` to `null` for every bound call, whereas an
  unbound action called as `actions.group.name(...)` would see its group object as `this`.
- The scenarios' `getFullName` reads the name of an `undefined` first argument as `undefined`, where
  JavaScript's destructuring would throw a `TypeError`; no scenario reaches that case.
- An action-table entry that is not a function would make `bind` throw. A group that is not
  a plain object would be enumerated differently. The model's types admit only functions in
  groups of own string-keyed properties, so it models neither case. Inherited enumerable
  properties are not modelled either; the `hasOwnProperty` checks skip them in the source.
- `for...in` enumeration order is not modelled. The loops pick the next name
  nondeterministically, so every proved property holds for any visiting order.
- In the scenarios, converting a function to text gives the placeholder `function` rather
  than the function's source text. No scenario renders a function.

## Findings

| source | as written | input that shows it | evidently intended | confidence | as-written member | corrected member |
|---|---|---|---|---|---|---|
| lib/index.js:12 | `injectDeps` overwrites each action of the caller's group objects with its binding and publishes those same objects, so every further `injectDeps` over the same table binds the context again, including into the table an earlier provider already publishes | the scenario at lib/__tests__/index.js:65-96: `injectDeps({name: 'arunoda'}, {default: {getFullName}})` twice, then `getName('susiripala')` calls `getFullName(context, context, 'susiripala')` and renders `arunoda-[object Object]`, where the scenario expects `arunoda-susiripala` | each construction binds its own copies of the actions and leaves the caller's table and earlier providers untouched, so every provider publishes the once-bound table | not executed | Scenarios.RepeatedInjectionScenario | Scenarios.RepeatedCopyingScenario |
