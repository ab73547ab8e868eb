/** Values handled by the dependency-injection layer: the JavaScript values that
    flow through contexts, props and action tables, the actions themselves, and
    the partial application performed by `Function.prototype.bind`. */
module Values {

  datatype Option<T> = None | Some(value: T)

  /** Identity of an original (unbound) action function, e.g. "getFullName". */
  type FunctionId = string

  /** The JavaScript values the model needs: plain data, objects (string-keyed
      property maps), callable actions and zero-argument accessors `() => v`. */
  datatype Value =
    | Undefined
    | Str(s: string)
    | Obj(fields: map<string, Value>)
    | Fn(action: Action)
    | Thunk(result: Value)

  /** An action: an opaque original function together with the arguments that
      `bind` has already fixed in front of the caller's arguments. */
  datatype Action = Action(original: FunctionId, prefix: seq<Value>)

  /** The call an action performs on its original function. */
  datatype Invocation = Invocation(target: FunctionId, args: seq<Value>)

  /** A group of actions keyed by action name, and a table of groups keyed by group name. */
  type Group = map<string, Action>
  type Table = map<string, Group>

  /** Calling an action with `args` calls its original with the bound prefix
      followed by `args`. */
  function Invoke(a: Action, args: seq<Value>): (r: Invocation)
    ensures r.target == a.original && |r.args| == |a.prefix| + |args|
    ensures r.args[..|a.prefix|] == a.prefix && r.args[|a.prefix|..] == args
  {
    Invocation(a.original, a.prefix + args)
  }

  /** An action as the application writes it: nothing bound yet. */
  function Plain(f: FunctionId): Action {
    Action(f, [])
  }

  /** `a.bind(null, context)`: a new action that passes `context` before the
      caller's arguments. Binding an already bound action adds one more argument
      after those bound earlier. */
  function Bind(a: Action, context: Value): (r: Action)
    ensures r.original == a.original && |r.prefix| == |a.prefix| + 1
    ensures forall xs :: Invoke(r, xs) == Invoke(a, [context] + xs)
  {
    Action(a.original, a.prefix + [context])
  }

  /** `n` copies of `v`. */
  function Repeat(v: Value, n: nat): (r: seq<Value>)
    ensures |r| == n
    ensures forall i :: 0 <= i < n ==> r[i] == v
  {
    if n == 0 then [] else [v] + Repeat(v, n - 1)
  }

  /** The action obtained by binding the same `context` `n` times in a row. */
  function BindTimes(a: Action, context: Value, n: nat): (r: Action)
    ensures r.original == a.original && |r.prefix| == |a.prefix| + n
  {
    Action(a.original, a.prefix + Repeat(context, n))
  }

  /** An action bound `n` times keeps the arguments bound earlier in front and
      adds `n` copies of the context after them. */
  lemma BindTimesPrefix(a: Action, context: Value, n: nat)
    ensures BindTimes(a, context, n).prefix[..|a.prefix|] == a.prefix
    ensures forall i :: |a.prefix| <= i < |a.prefix| + n ==> BindTimes(a, context, n).prefix[i] == context
  {
    var r := BindTimes(a, context, n);
    forall i | |a.prefix| <= i < |a.prefix| + n
      ensures r.prefix[i] == context
    {
      assert r.prefix[i] == Repeat(context, n)[i - |a.prefix|];
    }
  }

  /** Calling an action bound `n` times passes `n` copies of the context first. */
  lemma InvokeBindTimes(a: Action, context: Value, n: nat, xs: seq<Value>)
    ensures Invoke(BindTimes(a, context, n), xs) == Invoke(a, Repeat(context, n) + xs)
  {
    assert a.prefix + Repeat(context, n) + xs == a.prefix + (Repeat(context, n) + xs);
  }

  lemma {:induction false} RepeatAdd(v: Value, i: nat, j: nat)
    ensures Repeat(v, i) + Repeat(v, j) == Repeat(v, i + j)
  {
    var lhs, rhs := Repeat(v, i) + Repeat(v, j), Repeat(v, i + j);
    assert |lhs| == |rhs|;
    forall k | 0 <= k < i + j
      ensures lhs[k] == rhs[k]
    {
      if k < i { assert lhs[k] == Repeat(v, i)[k]; } else { assert lhs[k] == Repeat(v, j)[k - i]; }
    }
  }

  /** Binding `context` `i` times and then `j` more times is binding it `i + j` times. */
  lemma {:induction false} BindTimesAdd(a: Action, context: Value, i: nat, j: nat)
    ensures BindTimes(BindTimes(a, context, i), context, j) == BindTimes(a, context, i + j)
  {
    RepeatAdd(context, i, j);
    assert a.prefix + Repeat(context, i) + Repeat(context, j) == a.prefix + (Repeat(context, i) + Repeat(context, j));
  }

  /** One more `bind` of the same context extends the repeated binding by one. */
  lemma {:induction false} BindAfterBindTimes(a: Action, context: Value, n: nat)
    ensures Bind(BindTimes(a, context, n), context) == BindTimes(a, context, n + 1)
  {
    BindTimesAdd(a, context, n, 1);
    assert Repeat(context, 1) == [context];
  }

  /** Every action of a group bound `n` times to `context`; action names are kept. */
  function BindGroupTimes(group: Group, context: Value, n: nat): (r: Group)
    ensures r.Keys == group.Keys
    ensures forall name :: name in group ==>
      r[name].original == group[name].original && |r[name].prefix| == |group[name].prefix| + n
  {
    map name | name in group :: BindTimes(group[name], context, n)
  }

  lemma {:induction false} BindGroupTimesAdd(group: Group, context: Value, i: nat, j: nat)
    ensures BindGroupTimes(BindGroupTimes(group, context, i), context, j) == BindGroupTimes(group, context, i + j)
  {
    var lhs := BindGroupTimes(BindGroupTimes(group, context, i), context, j);
    var rhs := BindGroupTimes(group, context, i + j);
    forall name | name in group
      ensures lhs[name] == rhs[name]
    {
      BindTimesAdd(group[name], context, i, j);
    }
  }

  lemma BindGroupTimesZero(group: Group, context: Value)
    ensures BindGroupTimes(group, context, 0) == group
  {
    forall name | name in group
      ensures BindTimes(group[name], context, 0) == group[name]
    {
      assert group[name].prefix + Repeat(context, 0) == group[name].prefix;
    }
  }

  /** The bound action table as injected once: same group names, same action
      names, each action called with `context` before the caller's arguments. */
  function BindTable(table: Table, context: Value): (r: Table)
    ensures r.Keys == table.Keys
    ensures forall key :: key in table ==> r[key].Keys == table[key].Keys
  {
    map key | key in table :: BindGroupTimes(table[key], context, 1)
  }

  /** Calling an action of the bound table calls the original action with the
      context before the caller's arguments. */
  lemma InvokeBoundTable(table: Table, context: Value, key: string, name: string, xs: seq<Value>)
    requires key in table && name in table[key]
    ensures Invoke(BindTable(table, context)[key][name], xs) == Invoke(table[key][name], [context] + xs)
  {
    InvokeBindTimes(table[key][name], context, 1, xs);
    assert Repeat(context, 1) == [context];
  }

  /** JavaScript property access `v[k]`; a missing property reads as undefined. */
  function Field(v: Value, k: string): Value {
    if v.Obj? && k in v.fields then v.fields[k] else Undefined
  }

  /** An action table seen as the JavaScript object `{group: {name: fn}}`. */
  function TableValue(table: Table): (v: Value)
    ensures v.Obj? && v.fields.Keys == table.Keys
    ensures forall key :: key in table ==> Field(v, key).Obj? && Field(v, key).fields.Keys == table[key].Keys
    ensures forall key, name :: key in table && name in table[key] ==>
      Field(Field(v, key), name) == Fn(table[key][name])
  {
    Obj(map key | key in table :: Obj(map name | name in table[key] :: Fn(table[key][name])))
  }
}
