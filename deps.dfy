/** The provider and consumer sides of the library, as pure functions: what a
    provider publishes to its subtree, what it renders, how a consumer projects
    the published context and actions into its own props, and the display names
    of the wrapped components. */
module Deps {
  import opened Values

  /** A component's props, or any plain JavaScript object keyed by strings. */
  type Props = map<string, Value>

  /** `(context, actions) => mappedProps`. */
  type Mapper = (Value, Value) -> Props

  /** A rendered element: which component is rendered and with which props. */
  datatype Element = Element(component: string, props: Props)

  /** The object a provider publishes to its subtree: exactly `{context, actions}`. */
  function ChildContext(context: Value, actions: Table): (payload: Props)
    ensures payload.Keys == {"context", "actions"}
    ensures payload["context"] == context
    ensures payload["actions"].Obj? && payload["actions"].fields.Keys == actions.Keys
    ensures forall key, name :: key in actions && name in actions[key] ==>
      Field(Field(payload["actions"], key), name) == Fn(actions[key][name])
  {
    map["context" := context, "actions" := TableValue(actions)]
  }

  /** The provider renders the wrapped component with its own props, key for key. */
  function RenderWithDeps(wrapped: string, own: Props): (e: Element)
    ensures e.component == wrapped
    ensures e.props.Keys == own.Keys && forall k :: k in own ==> e.props[k] == own[k]
  {
    Element(wrapped, own)
  }

  /** The mapper used when none is given: accessors for the context and the actions. */
  function DefaultMapper(context: Value, actions: Value): (mapped: Props)
    ensures mapped.Keys == {"context", "actions"}
    ensures mapped["context"].Thunk? && mapped["context"].result == context
    ensures mapped["actions"].Thunk? && mapped["actions"].result == actions
  {
    map["context" := Thunk(context), "actions" := Thunk(actions)]
  }

  /** `useDeps(mapper = defaultMapper)`: an omitted mapper is the default one. */
  function MapperOrDefault(mapper: Option<Mapper>): (m: Mapper)
    ensures mapper.Some? ==> m == mapper.value
    ensures mapper.None? ==> forall context, actions :: m(context, actions) == DefaultMapper(context, actions)
  {
    match mapper
    case Some(m) => m
    case None => DefaultMapper
  }

  /** `{...own, ...mapped}`: every key of either side, the mapped value winning on
      a collision and an own-only key keeping its own value. */
  function MergeProps(own: Props, mapped: Props): (merged: Props)
    ensures merged.Keys == own.Keys + mapped.Keys
    ensures forall k :: k in mapped ==> merged[k] == mapped[k]
    ensures forall k :: k in own && k !in mapped ==> merged[k] == own[k]
  {
    own + mapped
  }

  /** Reading a property of the received payload, as `const {context, actions} =
      this.context` does: a missing property reads as undefined. */
  function Lookup(payload: Props, key: string): (v: Value)
    ensures key in payload ==> v == payload[key]
    ensures key !in payload ==> v == Undefined
  {
    if key in payload then payload[key] else Undefined
  }

  /** The consumer's render: project the payload through the mapper and merge the
      result over the consumer's own props. Own props the mapper does not set reach
      the wrapped component unchanged; props the mapper sets override own props of
      the same name. */
  function RenderUseDeps(mapper: Option<Mapper>, wrapped: string, payload: Props, own: Props): (e: Element)
    ensures e.component == wrapped
    ensures var mapped := MapperOrDefault(mapper)(Lookup(payload, "context"), Lookup(payload, "actions"));
            && e.props.Keys == own.Keys + mapped.Keys
            && (forall k :: k in mapped ==> e.props[k] == mapped[k])
            && (forall k :: k in own && k !in mapped ==> e.props[k] == own[k])
  {
    var mapped := MapperOrDefault(mapper)(Lookup(payload, "context"), Lookup(payload, "actions"));
    Element(wrapped, MergeProps(own, mapped))
  }

  /** A consumer below a provider renders the mapper's projection of exactly the
      provider's context and action table, merged over its own props. */
  lemma ConsumerSeesProvider(context: Value, actions: Table, mapper: Mapper, wrapped: string, own: Props)
    ensures RenderUseDeps(Some(mapper), wrapped, ChildContext(context, actions), own)
         == Element(wrapped, MergeProps(own, mapper(context, TableValue(actions))))
  {
  }

  /** With no mapper, the wrapped component gets `context()` and `actions()`
      accessors returning exactly the provider's context and bound table, and
      every other own prop unchanged. */
  lemma DefaultMapperRoundTrip(context: Value, actions: Table, wrapped: string, own: Props)
    ensures var e := RenderUseDeps(None, wrapped, ChildContext(context, actions), own);
            && e.props.Keys == own.Keys + {"context", "actions"}
            && e.props["context"] == Thunk(context)
            && e.props["actions"] == Thunk(TableValue(actions))
            && forall k :: k in own && k != "context" && k != "actions" ==> e.props[k] == own[k]
  {
  }

  /** `tag(inner)`. */
  function Wrap(tag: string, inner: string): (w: string)
    ensures |w| == |tag| + |inner| + 2
    ensures w[..|tag|] == tag && w[|tag|] == '(' && w[|w| - 1] == ')'
    ensures w[|tag| + 1..|w| - 1] == inner
  {
    tag + "(" + inner + ")"
  }

  /** Recovers `inner` from a name of the form `tag(inner)`. */
  function Unwrap(tag: string, name: string): (r: Option<string>)
    ensures r.Some? ==> |name| == |tag| + |r.value| + 2 && name[..|tag|] == tag && name[|tag|] == '('
                        && name[|name| - 1] == ')' && name[|tag| + 1..|name| - 1] == r.value
    ensures r.None? ==> |name| < |tag| + 2 || name[..|tag| + 1] != tag + "(" || name[|name| - 1] != ')'
  {
    var n := |tag| + 1;
    if |name| >= n + 1 && name[..n] == tag + "(" && name[|name| - 1] == ')'
    then Some(name[n..|name| - 1])
    else None
  }

  /** `Wrap` and `Unwrap` are inverse: a name is `tag(inner)` exactly when
      unwrapping it with that tag yields `inner`. */
  lemma {:induction false} UnwrapIsInverse(tag: string, inner: string, name: string)
    ensures Unwrap(tag, name) == Some(inner) <==> name == Wrap(tag, inner)
  {
    var n := |tag| + 1;
    var w := Wrap(tag, inner);
    assert w[..n] == tag + "(" && w[n..|w| - 1] == inner && w[|w| - 1] == ')';
    if Unwrap(tag, name) == Some(inner) {
      assert name == name[..n] + name[n..|name| - 1] + [name[|name| - 1]];
    }
  }

  /** The provider's display name. */
  function WithDepsName(inner: string): (name: string)
    ensures Unwrap("WithDeps", name) == Some(inner)
    ensures |name| == |inner| + 10
  {
    UnwrapIsInverse("WithDeps", inner, Wrap("WithDeps", inner));
    Wrap("WithDeps", inner)
  }

  /** The consumer's display name. */
  function UseDepsName(inner: string): (name: string)
    ensures Unwrap("UseDeps", name) == Some(inner)
    ensures |name| == |inner| + 9
  {
    UnwrapIsInverse("UseDeps", inner, Wrap("UseDeps", inner));
    Wrap("UseDeps", inner)
  }

  /** A provider's display name never equals a consumer's, and each determines
      the wrapped name. */
  lemma DisplayNamesDistinguish(a: string, b: string)
    ensures WithDepsName(a) != UseDepsName(b)
    ensures WithDepsName(a) == WithDepsName(b) ==> a == b
    ensures UseDepsName(a) == UseDepsName(b) ==> a == b
  {
    assert WithDepsName(a)[0] == 'W' && UseDepsName(b)[0] == 'U';
  }
}
