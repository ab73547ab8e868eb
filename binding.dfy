/** The action-binding pass of `injectDeps`: a table object maps group names to
    group objects, and every group object's actions are replaced, in place, by
    actions bound to the context. The resulting table is a fresh object whose
    entries are the very same group objects. */
module Binding {
  import opened Values

  /** A JavaScript object holding the actions of one group. */
  class ActionGroup {
    var entries: Group

    constructor (entries: Group)
      ensures this.entries == entries
    {
      this.entries := entries;
    }
  }

  /** A JavaScript object mapping group names to group objects. */
  class GroupTable {
    var groups: map<string, ActionGroup>

    constructor (groups: map<string, ActionGroup>)
      ensures this.groups == groups
    {
      this.groups := groups;
    }

    /** The actions currently reachable through this table. */
    function Snapshot(): (t: Table)
      reads this, groups.Values
    {
      map key | key in groups :: groups[key].entries
    }
  }

  /** No group object is reachable under two different group names. */
  ghost predicate DistinctGroups(groups: map<string, ActionGroup>) {
    forall k1, k2 :: k1 in groups && k2 in groups && groups[k1] == groups[k2] ==> k1 == k2
  }

  /** How many of the group names in `keys` lead to the group object `g`: the
      number of times one binding pass over those names binds `g`'s actions. */
  ghost function Multiplicity(groups: map<string, ActionGroup>, keys: set<string>, g: ActionGroup): nat {
    |set key | key in keys && key in groups && groups[key] == g|
  }

  lemma MultiplicityStep(groups: map<string, ActionGroup>, keys: set<string>, key: string, g: ActionGroup)
    requires key in groups && key !in keys
    ensures Multiplicity(groups, keys + {key}, g) ==
            Multiplicity(groups, keys, g) + (if groups[key] == g then 1 else 0)
  {
    var before := set k | k in keys && k in groups && groups[k] == g;
    var after := set k | k in keys + {key} && k in groups && groups[k] == g;
    if groups[key] == g {
      assert after == before + {key};
    } else {
      assert after == before;
    }
  }

  /** With distinct group objects, each group is reached under exactly one name. */
  lemma MultiplicityOfDistinct(groups: map<string, ActionGroup>, key: string)
    requires DistinctGroups(groups) && key in groups
    ensures Multiplicity(groups, groups.Keys, groups[key]) == 1
  {
    var s := set k | k in groups.Keys && k in groups && groups[k] == groups[key];
    assert s == {key};
  }

  /** The inner loop: every own action of `group` is replaced by its binding to
      `context`; the action names stay the same. */
  method BindGroup(group: ActionGroup, context: Value)
    modifies group
    ensures group.entries == BindGroupTimes(old(group.entries), context, 1)
  {
    var names := group.entries.Keys;
    while names != {}
      invariant names <= group.entries.Keys == old(group.entries).Keys
      invariant forall name :: name in group.entries ==>
        group.entries[name] == if name in names then old(group.entries)[name] else Bind(old(group.entries)[name], context)
      decreases names
    {
      var name :| name in names;
      group.entries := group.entries[name := Bind(group.entries[name], context)];
      names := names - {name};
    }
    forall name | name in group.entries
      ensures group.entries[name] == BindTimes(old(group.entries)[name], context, 1)
    {
      BindAfterBindTimes(old(group.entries)[name], context, 0);
    }
  }

  /** Entries of every group object reached through `groups`. */
  ghost function EntriesOf(groups: map<string, ActionGroup>): (m: map<ActionGroup, Group>)
    reads groups.Values
    ensures m.Keys == groups.Values
  {
    map g | g in groups.Values :: g.entries
  }

  /** How many of the names in `visited` lead to `g`. */
  ghost function Occurrences(visited: seq<string>, groups: map<string, ActionGroup>, g: ActionGroup): nat {
    if visited == [] then 0
    else (if visited[0] in groups && groups[visited[0]] == g then 1 else 0) + Occurrences(visited[1..], groups, g)
  }

  /** Visiting each name once, in any order, binds `g` once per name leading to it. */
  lemma {:induction false} OccurrencesAreMultiplicity(visited: seq<string>, groups: map<string, ActionGroup>, g: ActionGroup)
    requires forall i :: 0 <= i < |visited| ==> visited[i] in groups
    requires forall i, j :: 0 <= i < j < |visited| ==> visited[i] != visited[j]
    ensures Occurrences(visited, groups, g) == Multiplicity(groups, (set k | k in visited), g)
  {
    if visited == [] {
      assert (set k | k in visited) == {};
    } else {
      var first, rest := visited[0], visited[1..];
      OccurrencesAreMultiplicity(rest, groups, g);
      assert (set k | k in visited) == (set k | k in rest) + {first};
      MultiplicityStep(groups, (set k | k in rest), first, g);
    }
  }

  /** Every group object in `initial` holds its initial actions bound `count[g]` times. */
  ghost predicate BoundCounted(initial: map<ActionGroup, Group>, count: map<ActionGroup, nat>, context: Value)
    reads initial.Keys
  {
    count.Keys == initial.Keys &&
    forall g :: g in initial ==> g.entries == BindGroupTimes(initial[g], context, count[g])
  }

  /** `count` records, for each group object, how many of the names visited so
      far lead to it. */
  ghost predicate CountsVisits(groups: map<string, ActionGroup>, visited: seq<string>, count: map<ActionGroup, nat>) {
    forall g :: g in count ==> count[g] == Occurrences(visited, groups, g)
  }

  lemma CountsVisitStep(groups: map<string, ActionGroup>, visited: seq<string>, count: map<ActionGroup, nat>, key: string)
    requires key in groups && groups[key] in count
    requires CountsVisits(groups, visited, count)
    ensures CountsVisits(groups, [key] + visited, count[groups[key] := count[groups[key]] + 1])
  {
    assert ([key] + visited)[1..] == visited;
  }

  /** The bookkeeping of the outer loop: `visited` lists, without repetition,
      the names already handled, `todo` holds the rest, `actions` maps each
      handled name to its group object, and `count` says how often each group
      object has been reached. */
  ghost predicate Progress(groups: map<string, ActionGroup>, todo: set<string>, visited: seq<string>,
                           actions: map<string, ActionGroup>, count: map<ActionGroup, nat>) {
    && todo <= groups.Keys
    && (forall k :: k in visited <==> k in groups && k !in todo)
    && (forall i, j :: 0 <= i < j < |visited| ==> visited[i] != visited[j])
    && actions.Keys == groups.Keys - todo
    && (forall key :: key in actions ==> actions[key] == groups[key])
    && CountsVisits(groups, visited, count)
  }

  lemma ProgressStart(groups: map<string, ActionGroup>, count: map<ActionGroup, nat>)
    requires forall g :: g in count ==> count[g] == 0
    ensures Progress(groups, groups.Keys, [], map[], count)
  {
  }

  lemma ProgressStep(groups: map<string, ActionGroup>, todo: set<string>, visited: seq<string>,
                     actions: map<string, ActionGroup>, count: map<ActionGroup, nat>, key: string)
    requires Progress(groups, todo, visited, actions, count)
    requires key in todo && groups[key] in count
    ensures Progress(groups, todo - {key}, [key] + visited, actions[key := groups[key]],
                     count[groups[key] := count[groups[key]] + 1])
  {
    CountsVisitStep(groups, visited, count, key);
  }

  /** Once every name has been visited exactly once, the result holds every
      group object under its own name, and each group object has been reached
      once per name leading to it, whatever the visiting order. */
  lemma ProgressDone(groups: map<string, ActionGroup>, visited: seq<string>,
                     actions: map<string, ActionGroup>, count: map<ActionGroup, nat>)
    requires Progress(groups, {}, visited, actions, count)
    ensures actions == groups
    ensures forall g :: g in count ==> count[g] == Multiplicity(groups, groups.Keys, g)
  {
    assert (set k | k in visited) == groups.Keys;
    forall g | g in count
      ensures count[g] == Multiplicity(groups, groups.Keys, g)
    {
      OccurrencesAreMultiplicity(visited, groups, g);
    }
  }

  /** The group object `group` gets its actions bound once more. */
  method BindAgain(group: ActionGroup, ghost initial: map<ActionGroup, Group>,
                   ghost count: map<ActionGroup, nat>, context: Value)
    requires group in initial
    requires BoundCounted(initial, count, context)
    modifies group
    ensures BoundCounted(initial, count[group := count[group] + 1], context)
  {
    BindGroup(group, context);
    BindGroupTimesAdd(initial[group], context, count[group], 1);
  }

  /** One step of the outer loop: the group object under `key` gets its actions
      bound once more and is recorded in the result under `key`. */
  method BindNextGroup(groups: map<string, ActionGroup>, context: Value, key: string,
                       todo: set<string>, ghost visited: seq<string>, actions: map<string, ActionGroup>,
                       ghost initial: map<ActionGroup, Group>, ghost count: map<ActionGroup, nat>)
    returns (todo': set<string>, ghost visited': seq<string>, actions': map<string, ActionGroup>,
             ghost count': map<ActionGroup, nat>)
    requires key in todo && initial.Keys == groups.Values
    requires Progress(groups, todo, visited, actions, count)
    requires BoundCounted(initial, count, context)
    modifies groups[key]
    ensures todo' == todo - {key} && todo' < todo
    ensures visited' == [key] + visited
    ensures actions' == actions[key := groups[key]]
    ensures Progress(groups, todo', visited', actions', count')
    ensures BoundCounted(initial, count', context)
  {
    var group := groups[key];
    BindAgain(group, initial, count, context);
    ProgressStep(groups, todo, visited, actions, count, key);
    todo', visited', actions' := todo - {key}, [key] + visited, actions[key := group];
    count' := count[group := count[group] + 1];
  }

  /** Before the first step, every group object is bound zero times. */
  lemma BoundZeroTimes(initial: map<ActionGroup, Group>, context: Value)
    requires forall g :: g in initial ==> initial[g] == g.entries
    ensures BoundCounted(initial, map g | g in initial :: 0, context)
  {
    forall g | g in initial
      ensures g.entries == BindGroupTimes(initial[g], context, 0)
    {
      BindGroupTimesZero(g.entries, context);
    }
  }

  /** `injectDeps`'s binding pass. An absent table (`input == null`) yields an
      empty result and touches nothing. Otherwise the result holds the input's
      own group objects under the same names, and each group object has been
      bound once for every name that leads to it. */
  method InjectDeps(context: Value, input: GroupTable?) returns (bound: GroupTable)
    modifies if input == null then {} else input.groups.Values
    ensures fresh(bound)
    ensures input == null ==> bound.groups == map[]
    ensures input != null ==> bound.groups == input.groups && input.groups == old(input.groups)
    ensures input != null ==> forall g :: g in input.groups.Values ==>
      g.entries == BindGroupTimes(old(g.entries), context, Multiplicity(input.groups, input.groups.Keys, g))
  {
    if input == null {
      bound := new GroupTable(map[]);
      return;
    }
    var groups := input.groups;
    ghost var initial := EntriesOf(groups);
    ghost var count: map<ActionGroup, nat> := map g | g in initial :: 0;
    ghost var visited: seq<string> := [];
    BoundZeroTimes(initial, context);
    var actions: map<string, ActionGroup> := map[];
    var todo := groups.Keys;
    ProgressStart(groups, count);
    while todo != {}
      invariant Progress(groups, todo, visited, actions, count)
      invariant BoundCounted(initial, count, context)
      decreases todo
    {
      var key :| key in todo;
      todo, visited, actions, count := BindNextGroup(groups, context, key, todo, visited, actions, initial, count);
    }
    ProgressDone(groups, visited, actions, count);
    bound := new GroupTable(actions);
  }

  /** On a table whose group objects are distinct, one `injectDeps` pass leaves
      exactly the once-bound table behind. */
  lemma {:induction false} DistinctInjectionSnapshot(groups: map<string, ActionGroup>, before: Table, after: Table, context: Value)
    requires DistinctGroups(groups) && before.Keys == groups.Keys == after.Keys
    requires forall key :: key in groups ==>
      after[key] == BindGroupTimes(before[key], context, Multiplicity(groups, groups.Keys, groups[key]))
    ensures after == BindTable(before, context)
  {
    forall key | key in groups
      ensures after[key] == BindTable(before, context)[key]
    {
      MultiplicityOfDistinct(groups, key);
    }
  }

  /** One `injectDeps` pass over a table whose group objects are not shared
      between names publishes exactly the once-bound table of the caller's actions. */
  method InjectDepsUnshared(context: Value, input: GroupTable) returns (bound: GroupTable)
    requires DistinctGroups(input.groups)
    modifies input.groups.Values
    ensures bound.groups == input.groups
    ensures bound.Snapshot() == BindTable(old(input.Snapshot()), context)
  {
    ghost var before := input.Snapshot();
    bound := InjectDeps(context, input);
    ghost var after := bound.Snapshot();
    forall key | key in input.groups
      ensures after[key] == BindGroupTimes(before[key], context, Multiplicity(input.groups, input.groups.Keys, input.groups[key]))
    {
      assert input.groups[key] in input.groups.Values;
    }
    DistinctInjectionSnapshot(input.groups, before, after, context);
  }

  /** Every group object reached through `groups` holds its `original` actions
      bound as often as `n` binding passes over `groups` bind it. */
  ghost predicate InjectedTimes(groups: map<string, ActionGroup>, original: map<ActionGroup, Group>, context: Value, n: nat)
    reads groups.Values
  {
    original.Keys == groups.Values &&
    forall g :: g in groups.Values ==>
      g.entries == BindGroupTimes(original[g], context, n * Multiplicity(groups, groups.Keys, g))
  }

  /** One more `injectDeps` pass over a table already injected `n` times. */
  method InjectAgain(context: Value, input: GroupTable, ghost original: map<ActionGroup, Group>, ghost n: nat)
    returns (bound: GroupTable)
    requires InjectedTimes(input.groups, original, context, n)
    modifies input.groups.Values
    ensures bound.groups == input.groups && input.groups == old(input.groups)
    ensures InjectedTimes(input.groups, original, context, n + 1)
  {
    bound := InjectDeps(context, input);
    forall g | g in input.groups.Values
      ensures g.entries == BindGroupTimes(original[g], context, (n + 1) * Multiplicity(input.groups, input.groups.Keys, g))
    {
      var m := Multiplicity(input.groups, input.groups.Keys, g);
      BindGroupTimesAdd(original[g], context, n * m, m);
      assert n * m + m == (n + 1) * m;
    }
  }

  /** `injectDeps` applied `k` times to the same table: every group object's
      actions carry `k` times as many copies of the context as one pass adds. */
  method InjectRepeatedly(context: Value, input: GroupTable, k: nat) returns (bound: GroupTable)
    requires k >= 1
    modifies input.groups.Values
    ensures bound.groups == input.groups && input.groups == old(input.groups)
    ensures forall g :: g in input.groups.Values ==>
      g.entries == BindGroupTimes(old(g.entries), context, k * Multiplicity(input.groups, input.groups.Keys, g))
  {
    ghost var original := EntriesOf(input.groups);
    bound := InjectDeps(context, input);
    var i := 1;
    while i < k
      invariant 1 <= i <= k
      invariant bound.groups == input.groups
      invariant InjectedTimes(input.groups, original, context, i)
    {
      bound := InjectAgain(context, input, original, i);
      i := i + 1;
    }
  }

  /** Two `injectDeps` calls on the same table, as a second provider built from
      the same actions does: the first result shares its group objects with the
      second, so the table the first provider publishes is bound twice as well. */
  method InjectTwice(context: Value, input: GroupTable) returns (first: GroupTable, second: GroupTable)
    modifies input.groups.Values
    ensures first.groups == second.groups == input.groups
    ensures forall g :: g in input.groups.Values ==>
      g.entries == BindGroupTimes(old(g.entries), context, 2 * Multiplicity(input.groups, input.groups.Keys, g))
  {
    first := InjectDeps(context, input);
    ghost var between := map g | g in input.groups.Values :: g.entries;
    second := InjectDeps(context, input);
    forall g | g in input.groups.Values
      ensures g.entries == BindGroupTimes(old(g.entries), context, 2 * Multiplicity(input.groups, input.groups.Keys, g))
    {
      var m := Multiplicity(input.groups, input.groups.Keys, g);
      assert between[g] == BindGroupTimes(old(g.entries), context, m);
      BindGroupTimesAdd(old(g.entries), context, m, m);
    }
  }

  /** The binding the library's test of repeated injection expects: the caller's
      group objects are left as they are and the result holds fresh group objects
      with the bound actions. */
  method InjectDepsCopying(context: Value, input: GroupTable?) returns (bound: GroupTable)
    ensures fresh(bound) && forall key :: key in bound.groups ==> fresh(bound.groups[key])
    ensures bound.Snapshot() == BindTable(if input == null then map[] else input.Snapshot(), context)
  {
    bound := new GroupTable(map[]);
    if input == null {
      return;
    }
    var todo := input.groups.Keys;
    while todo != {}
      invariant todo <= input.groups.Keys
      invariant fresh(bound) && forall key :: key in bound.groups ==> fresh(bound.groups[key])
      invariant bound.groups.Keys == input.groups.Keys - todo
      invariant forall key :: key in bound.groups ==>
        bound.groups[key].entries == BindGroupTimes(input.groups[key].entries, context, 1)
      decreases todo
    {
      var key :| key in todo;
      var copy := new ActionGroup(BindGroupTimes(input.groups[key].entries, context, 1));
      bound.groups := bound.groups[key := copy];
      todo := todo - {key};
    }
  }

  /** With the copying binding, building a second provider from the same table
      leaves the first provider's table alone and yields the same bound table:
      the two providers share no group object with each other or with the caller. */
  method InjectCopyingTwice(context: Value, input: GroupTable?) returns (first: GroupTable, second: GroupTable)
    ensures forall k1, k2 :: k1 in first.groups && k2 in second.groups ==> first.groups[k1] != second.groups[k2]
    ensures input != null ==> forall k1, k2 :: k1 in input.groups && k2 in first.groups ==> input.groups[k1] != first.groups[k2]
    ensures input != null ==> forall k1, k2 :: k1 in input.groups && k2 in second.groups ==> input.groups[k1] != second.groups[k2]
    ensures first.Snapshot() == second.Snapshot()
    ensures first.Snapshot() == BindTable(if input == null then map[] else input.Snapshot(), context)
  {
    ghost var caller := if input == null then map[] else input.Snapshot();
    first := InjectDepsCopying(context, input);
    assert first.Snapshot() == BindTable(caller, context);
    second := InjectDepsCopying(context, input);
    assert second.Snapshot() == BindTable(caller, context);
    assert first.Snapshot() == BindTable(caller, context);
  }
}
