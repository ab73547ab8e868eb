/** The library's own usage scenarios: a provider built with `injectDeps` over a
    context `{name: 'arunoda'}` and an action table `{default: {getFullName}}`,
    and a consumer built with `useDeps` below it. Each scenario states the text
    the consumer's component ends up rendering. */
module Scenarios {
  import opened Values
  import opened Deps
  import opened Binding

  /** The context `{name: 'arunoda'}`. */
  function Arunoda(): Value {
    Obj(map["name" := Str("arunoda")])
  }

  /** The group of actions `{getFullName}` as the application writes it. */
  function SampleGroup(): Group {
    map["getFullName" := Plain("getFullName")]
  }

  /** JavaScript's conversion of a value inside a template literal. */
  function ToText(v: Value): string {
    match v
    case Undefined => "undefined"
    case Str(s) => s
    case Obj(_) => "[object Object]"
    case Fn(_) => "function"
    case Thunk(_) => "function"
  }

  /** The `i`-th argument of a call; a missing argument is undefined. */
  function Arg(args: seq<Value>, i: nat): Value {
    if i < |args| then args[i] else Undefined
  }

  /** The application action `getFullName({name}, surname)`, which renders
      `${name}-${surname}`. Destructuring an `undefined` first argument throws a
      `TypeError` in JavaScript; here it reads the name as `undefined` instead.
      No scenario calls it without the context as its first argument. */
  function FullName(args: seq<Value>): string {
    ToText(Field(Arg(args, 0), "name")) + "-" + ToText(Arg(args, 1))
  }

  /** Calling a prop with `args`: an action whose original function is
      `getFullName` runs it with its bound arguments first; anything else is
      outside these scenarios. */
  function CallProp(f: Value, args: seq<Value>): Option<string> {
    if f.Fn? && Invoke(f.action, args).target == "getFullName" then Some(FullName(Invoke(f.action, args).args)) else None
  }

  /** The mapper `c => ({name: c.name})`. */
  function NameMapper(context: Value, actions: Value): Props {
    map["name" := Field(context, "name")]
  }

  /** The mapper `(c, a) => ({getName: a.default.getFullName})`. */
  function GetNameMapper(context: Value, actions: Value): Props {
    map["getName" := Field(Field(actions, "default"), "getFullName")]
  }

  /** The table `{default: {getFullName}}` with `prefix` already bound. */
  function TableWith(prefix: seq<Value>): Table {
    map["default" := map["getFullName" := Action("getFullName", prefix)]]
  }

  /** Builds the application's table `{default: {getFullName}}` as objects. */
  method SampleTable() returns (input: GroupTable, group: ActionGroup)
    ensures fresh(input) && fresh(group)
    ensures input.groups == map["default" := group] && group.entries == SampleGroup()
  {
    group := new ActionGroup(SampleGroup());
    input := new GroupTable(map["default" := group]);
  }

  /** What `getName('susiripala')` renders below a provider publishing `table`,
      with the mapper `(c, a) => ({getName: a.default.getFullName})`. */
  function GetNameText(table: Table): Option<string> {
    var e := RenderUseDeps(Some(GetNameMapper), "Comp", ChildContext(Arunoda(), table), map[]);
    if "getName" in e.props then CallProp(e.props["getName"], [Str("susiripala")]) else None
  }

  lemma GetNameTextOf(prefix: seq<Value>)
    ensures GetNameText(TableWith(prefix)) == Some(FullName(prefix + [Str("susiripala")]))
  {
    var table := TableWith(prefix);
    ConsumerSeesProvider(Arunoda(), table, GetNameMapper, "Comp", map[]);
    assert Field(Field(TableValue(table), "default"), "getFullName") == Fn(Action("getFullName", prefix));
  }

  /** What the component renders with the default mapper below a provider
      publishing `table`: `props.actions().default.getFullName(props.context().name)`. */
  function DefaultMapperText(table: Table): Option<string> {
    var e := RenderUseDeps(None, "Comp", ChildContext(Arunoda(), table), map[]);
    if "actions" in e.props && e.props["actions"].Thunk? && "context" in e.props && e.props["context"].Thunk? then
      var actions, context := e.props["actions"].result, e.props["context"].result;
      CallProp(Field(Field(actions, "default"), "getFullName"), [Field(context, "name")])
    else None
  }

  lemma DefaultMapperTextOf(prefix: seq<Value>)
    ensures DefaultMapperText(TableWith(prefix)) == Some(FullName(prefix + [Str("arunoda")]))
  {
    var table := TableWith(prefix);
    DefaultMapperRoundTrip(Arunoda(), table, "Comp", map[]);
    assert Field(Field(TableValue(table), "default"), "getFullName") == Fn(Action("getFullName", prefix));
  }

  /** `getFullName` called with the context bound first: the name comes from the
      context and the surname is the next argument, whatever it is. */
  lemma FullNameOf(bound: seq<Value>, last: Value)
    requires 1 <= |bound| && bound[0] == Arunoda()
    ensures FullName(bound + [last]) == "arunoda-" + ToText(if |bound| == 1 then last else bound[1])
  {
    var args := bound + [last];
    assert Arg(args, 0) == Arunoda();
    assert Arg(args, 1) == if |bound| == 1 then last else bound[1];
  }

  /** Below a provider that bound the context once, `getName('susiripala')`
      renders the name followed by the surname. */
  lemma GetNameOnceBound()
    ensures GetNameText(TableWith([Arunoda()])) == Some("arunoda-susiripala")
  {
    assert "arunoda-" + "susiripala" == "arunoda-susiripala";
    GetNameTextOf([Arunoda()]);
    FullNameOf([Arunoda()], Str("susiripala"));
  }

  /** Below a provider whose table had the context bound twice, the surname slot
      receives the context object. */
  lemma GetNameTwiceBound()
    ensures GetNameText(TableWith([Arunoda(), Arunoda()])) == Some("arunoda-[object Object]")
  {
    assert "arunoda-" + "[object Object]" == "arunoda-[object Object]";
    GetNameTextOf([Arunoda(), Arunoda()]);
    FullNameOf([Arunoda(), Arunoda()], Str("susiripala"));
  }

  /** With the default mapper, `getFullName(context().name)` renders the name twice. */
  lemma DefaultMapperOnceBound()
    ensures DefaultMapperText(TableWith([Arunoda()])) == Some("arunoda-arunoda")
  {
    assert "arunoda-" + "arunoda" == "arunoda-arunoda";
    DefaultMapperTextOf([Arunoda()]);
    FullNameOf([Arunoda()], Str("arunoda"));
  }

  /** After one binding pass over the sample table, the published table is the
      sample group with the context bound `n` times. */
  lemma BoundSample(bound: Table, group: Group, n: nat)
    requires bound == map["default" := group]
    requires group == BindGroupTimes(SampleGroup(), Arunoda(), n)
    ensures bound == TableWith(Repeat(Arunoda(), n))
  {
    assert group == map["getFullName" := BindTimes(Plain("getFullName"), Arunoda(), n)];
    assert [] + Repeat(Arunoda(), n) == Repeat(Arunoda(), n);
  }

  /** Binding the sample table once yields the table with the context bound once. */
  lemma BindSampleOnce()
    ensures BindTable(map["default" := SampleGroup()], Arunoda()) == TableWith([Arunoda()])
  {
    BoundSample(BindTable(map["default" := SampleGroup()], Arunoda()), BindGroupTimes(SampleGroup(), Arunoda(), 1), 1);
    assert Repeat(Arunoda(), 1) == [Arunoda()];
  }

  /** Binding the sample group twice puts two copies of the context in front. */
  lemma BindSampleTwice()
    ensures map["default" := BindGroupTimes(SampleGroup(), Arunoda(), 2)] == TableWith([Arunoda(), Arunoda()])
  {
    BoundSample(map["default" := BindGroupTimes(SampleGroup(), Arunoda(), 2)], BindGroupTimes(SampleGroup(), Arunoda(), 2), 2);
    assert Repeat(Arunoda(), 2) == [Arunoda(), Arunoda()];
  }

  /** A provider with a context and no actions: a consumer mapping `c.name`
      renders the context's name. */
  method ContextScenario() returns (name: Value)
    ensures name == Str("arunoda")
  {
    var bound := InjectDeps(Arunoda(), null);
    var e := RenderUseDeps(Some(NameMapper), "Comp", ChildContext(Arunoda(), bound.Snapshot()), map[]);
    name := e.props["name"];
  }

  /** A provider with a context and actions: the consumer calls
      `getName('susiripala')` and the context arrives as the first argument. */
  method ActionsScenario() returns (text: Option<string>)
    ensures text == Some("arunoda-susiripala")
  {
    var input, group := SampleTable();
    assert input.Snapshot() == map["default" := SampleGroup()];
    BindSampleOnce();
    var bound := InjectDepsUnshared(Arunoda(), input);
    GetNameOnceBound();
    text := GetNameText(bound.Snapshot());
  }

  /** The same action table handed to `injectDeps` twice, the second provider
      being the one rendered: its `getFullName` has the context bound twice, so
      the surname slot receives the context object instead of 'susiripala'. */
  method RepeatedInjectionScenario() returns (text: Option<string>)
    ensures text == Some("arunoda-[object Object]")
    ensures text != Some("arunoda-susiripala")
  {
    var input, group := SampleTable();
    BindSampleTwice();
    var first, second := InjectTwice(Arunoda(), input);
    MultiplicityOfDistinct(input.groups, "default");
    assert group.entries == BindGroupTimes(SampleGroup(), Arunoda(), 2);
    assert second.Snapshot() == TableWith([Arunoda(), Arunoda()]);
    GetNameTwiceBound();
    text := GetNameText(second.Snapshot());
  }

  /** The same scenario with the copying binding: the second provider's
      `getFullName` has the context bound once and renders as intended. */
  method RepeatedCopyingScenario() returns (text: Option<string>)
    ensures text == Some("arunoda-susiripala")
  {
    var input, group := SampleTable();
    assert input.Snapshot() == map["default" := SampleGroup()];
    BindSampleOnce();
    var first, second := InjectCopyingTwice(Arunoda(), input);
    GetNameOnceBound();
    text := GetNameText(second.Snapshot());
  }

  /** No mapper: the component reads `props.actions().default.getFullName` and
      calls it with `props.context().name`. */
  method DefaultMapperScenario() returns (text: Option<string>)
    ensures text == Some("arunoda-arunoda")
  {
    var input, group := SampleTable();
    assert input.Snapshot() == map["default" := SampleGroup()];
    BindSampleOnce();
    var bound := InjectDepsUnshared(Arunoda(), input);
    DefaultMapperOnceBound();
    text := DefaultMapperText(bound.Snapshot());
  }

  /** No mapper and an own prop `name`: the own prop reaches the component. */
  method OwnPropsScenario() returns (name: Value)
    ensures name == Str("arunoda")
  {
    var bound := InjectDeps(Obj(map[]), null);
    var e := RenderUseDeps(None, "Comp", ChildContext(Obj(map[]), bound.Snapshot()), map["name" := Str("arunoda")]);
    name := e.props["name"];
  }

  /** The display names of a wrapped `TheLayout` and a wrapped `TheComp`. */
  lemma DisplayNameScenarios()
    ensures WithDepsName("TheLayout") == "WithDeps(TheLayout)"
    ensures UseDepsName("TheComp") == "UseDeps(TheComp)"
  {
  }
}
