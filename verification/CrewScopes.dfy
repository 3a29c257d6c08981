/** Execution scopes of concurrent kickoffs: _ACTIVE_OPS, _TASK_SCOPE, _bind and _unbind of
    kazenai/integrations/crewai.py. A context is a task or thread; it starts with the scope of the context that
    spawned it, and its own kickoffs nest. */
module CrewScopes {
  import opened Wrappers

  /** A scope object: no two kickoffs have the same. */
  datatype Scope = Scope(id: nat, crew: nat)

  /** The scope inherited at the start, and the scopes of the kickoffs running here, innermost last. */
  datatype Context = Context(inherited: Option<Scope>, running: seq<Scope>)

  /** stacks is _ACTIVE_OPS; issued holds the ids of all scopes ever made. */
  datatype State = State(stacks: map<nat, seq<Scope>>, contexts: map<nat, Context>, issued: set<nat>)

  datatype Step =
    | Spawn(parent: nat, child: nat)
    | Bind(ctx: nat, crew: nat, id: nat)
    | Unbind(ctx: nat)

  const START := State(map[], map[0 := Context(None, [])], {})

  /** The context variable's value. */
  function Current(c: Context): Option<Scope> {
    if c.running == [] then c.inherited else Some(c.running[|c.running| - 1])
  }

  function StackOf(stacks: map<nat, seq<Scope>>, crew: nat): seq<Scope> { if crew in stacks then stacks[crew] else [] }

  /** list.remove: the first occurrence goes. */
  function Remove(s: seq<Scope>, x: Scope): seq<Scope> {
    if s == [] then [] else if s[0] == x then s[1..] else [s[0]] + Remove(s[1..], x)
  }

  function Stored(stacks: map<nat, seq<Scope>>, crew: nat, stack: seq<Scope>): map<nat, seq<Scope>> {
    if stack == [] then stacks - {crew} else stacks[crew := stack]
  }

  /** What unbind does to the stacks: its own scope, if the context is still in a kickoff of that crew and the
      stack has it, else the top of the crew's stack. */
  function Unbound(stacks: map<nat, seq<Scope>>, crew: nat, current: Option<Scope>): map<nat, seq<Scope>> {
    var stack := StackOf(stacks, crew);
    if stack == [] then stacks
    else if current.Some? && current.value.crew == crew && current.value in stack then Stored(stacks, crew, Remove(stack, current.value))
    else Stored(stacks, crew, stack[..|stack| - 1])
  }

  /** A kickoff ends in the context it began in, innermost first; a scope is a new object. */
  predicate Enabled(s: State, step: Step) {
    match step
    case Spawn(parent, child) => parent in s.contexts && child !in s.contexts
    case Bind(ctx, _, id) => ctx in s.contexts && id !in s.issued
    case Unbind(ctx) => ctx in s.contexts && s.contexts[ctx].running != []
  }

  function Next(s: State, step: Step): State
    requires Enabled(s, step)
  {
    match step
    case Spawn(parent, child) => s.(contexts := s.contexts[child := Context(Current(s.contexts[parent]), [])])
    case Bind(ctx, crew, id) =>
      var scope := Scope(id, crew);
      var c := s.contexts[ctx];
      State(s.stacks[crew := StackOf(s.stacks, crew) + [scope]], s.contexts[ctx := c.(running := c.running + [scope])], s.issued + {id})
    case Unbind(ctx) =>
      var c := s.contexts[ctx];
      var mine := c.running[|c.running| - 1];
      s.(stacks := Unbound(s.stacks, mine.crew, Current(c)),
         contexts := s.contexts[ctx := c.(running := c.running[..|c.running| - 1])])
  }

  predicate RunningIn(s: State, ctx: nat, x: Scope) { ctx in s.contexts && x in s.contexts[ctx].running }

  ghost predicate Running(s: State, x: Scope) { exists ctx :: RunningIn(s, ctx, x) }

  predicate OnStack(s: State, x: Scope) { x in StackOf(s.stacks, x.crew) }

  ghost predicate NoRepeats(xs: seq<Scope>) { forall i, j :: 0 <= i < j < |xs| ==> xs[i] != xs[j] }

  /** Every crew's stack holds exactly the scopes of its running kickoffs, each once, and no empty stack stays. */
  ghost predicate Exact(s: State) {
    && (forall x: Scope :: OnStack(s, x) <==> Running(s, x))
    && (forall crew <- s.stacks :: s.stacks[crew] != [] && NoRepeats(s.stacks[crew]))
    && (forall crew <- s.stacks, x <- s.stacks[crew] :: x.crew == crew)
  }

  /** A scope runs in one context, once; ids are never given twice. */
  ghost predicate Apart(s: State) {
    && (forall ctx <- s.contexts :: NoRepeats(s.contexts[ctx].running))
    && (forall a, b, x :: RunningIn(s, a, x) && RunningIn(s, b, x) ==> a == b)
    && (forall ctx, x :: RunningIn(s, ctx, x) ==> x.id in s.issued)
  }

  lemma {:induction false} RemoveTakesOne(s: seq<Scope>, x: Scope)
    requires NoRepeats(s)
    ensures NoRepeats(Remove(s, x)) && forall y :: y in Remove(s, x) <==> y in s && y != x
  {
    if s != [] {
      var rest := s[1..];
      assert forall i, j :: 0 <= i < j < |rest| ==> rest[i] == s[i + 1] && rest[j] == s[j + 1];
      RemoveTakesOne(rest, x);
      assert s == [s[0]] + rest;
      assert s[0] !in rest;
      if s[0] != x { assert Remove(s, x) == [s[0]] + Remove(rest, x); }
    }
  }

  // ------------------------------------------------------------------ steps

  lemma SpawnKeeps(s: State, parent: nat, child: nat)
    requires Exact(s) && Apart(s) && Enabled(s, Spawn(parent, child))
    ensures Exact(Next(s, Spawn(parent, child))) && Apart(Next(s, Spawn(parent, child)))
  {
    var t := Next(s, Spawn(parent, child));
    forall ctx, x | true ensures RunningIn(t, ctx, x) <==> RunningIn(s, ctx, x) {
    }
    forall x: Scope | true ensures OnStack(t, x) <==> Running(t, x) {
      assert OnStack(s, x) <==> Running(s, x);
      if Running(s, x) { var c :| RunningIn(s, c, x); assert RunningIn(t, c, x); }
      if Running(t, x) { var c :| RunningIn(t, c, x); assert RunningIn(s, c, x); }
    }
  }

  lemma BindApart(s: State, ctx: nat, crew: nat, id: nat)
    requires Apart(s) && Enabled(s, Bind(ctx, crew, id))
    ensures Apart(Next(s, Bind(ctx, crew, id)))
    ensures forall c, x :: RunningIn(Next(s, Bind(ctx, crew, id)), c, x) <==> RunningIn(s, c, x) || (c == ctx && x == Scope(id, crew))
  {
    var t, mine := Next(s, Bind(ctx, crew, id)), Scope(id, crew);
    forall c, x | true ensures RunningIn(t, c, x) <==> RunningIn(s, c, x) || (c == ctx && x == mine) {
    }
    assert forall c :: !RunningIn(s, c, mine);
    assert mine !in s.contexts[ctx].running by { assert !RunningIn(s, ctx, mine); }
  }

  lemma BindKeeps(s: State, ctx: nat, crew: nat, id: nat)
    requires Exact(s) && Apart(s) && Enabled(s, Bind(ctx, crew, id))
    ensures Exact(Next(s, Bind(ctx, crew, id))) && Apart(Next(s, Bind(ctx, crew, id)))
  {
    BindApart(s, ctx, crew, id);
    var t, mine := Next(s, Bind(ctx, crew, id)), Scope(id, crew);
    assert !OnStack(s, mine) by {
      assert forall c :: !RunningIn(s, c, mine);
      assert !Running(s, mine);
    }
    forall x: Scope | true ensures OnStack(t, x) <==> Running(t, x) {
      assert OnStack(s, x) <==> Running(s, x);
      assert OnStack(t, x) <==> OnStack(s, x) || x == mine;
      if Running(t, x) { var c :| RunningIn(t, c, x); }
      if Running(s, x) { var c :| RunningIn(s, c, x); assert RunningIn(t, c, x); }
      if x == mine { assert RunningIn(t, ctx, x); }
    }
    forall x | x in t.stacks[crew] ensures x.crew == crew {
      assert x in StackOf(s.stacks, crew) || x == mine;
    }
  }

  lemma UnbindApart(s: State, ctx: nat)
    requires Apart(s) && Enabled(s, Unbind(ctx))
    ensures Apart(Next(s, Unbind(ctx)))
    ensures var mine := s.contexts[ctx].running[|s.contexts[ctx].running| - 1];
            forall c, x :: RunningIn(Next(s, Unbind(ctx)), c, x) <==> RunningIn(s, c, x) && x != mine
  {
    var t, r := Next(s, Unbind(ctx)), s.contexts[ctx].running;
    var mine := r[|r| - 1];
    assert r == r[..|r| - 1] + [mine] && mine !in r[..|r| - 1];
    assert RunningIn(s, ctx, mine);
    forall c, x | true ensures RunningIn(t, c, x) <==> RunningIn(s, c, x) && x != mine {
      if c != ctx && RunningIn(s, c, x) { assert x == mine ==> c == ctx; }
    }
  }

  /** An unbind takes exactly its own scope off its crew's stack, wherever it stands there, and touches no other
      crew's. */
  lemma UnbindRemovesItsOwn(s: State, ctx: nat)
    requires Exact(s) && Apart(s) && Enabled(s, Unbind(ctx))
    ensures var mine := s.contexts[ctx].running[|s.contexts[ctx].running| - 1];
            var t := Next(s, Unbind(ctx));
            && OnStack(s, mine) && t.stacks == Stored(s.stacks, mine.crew, Remove(s.stacks[mine.crew], mine))
            && forall x: Scope :: OnStack(t, x) <==> OnStack(s, x) && x != mine
  {
    var r := s.contexts[ctx].running;
    var mine := r[|r| - 1];
    assert RunningIn(s, ctx, mine) && Running(s, mine) && OnStack(s, mine);
    RemoveTakesOne(s.stacks[mine.crew], mine);
  }

  lemma UnbindKeeps(s: State, ctx: nat)
    requires Exact(s) && Apart(s) && Enabled(s, Unbind(ctx))
    ensures Exact(Next(s, Unbind(ctx))) && Apart(Next(s, Unbind(ctx)))
  {
    UnbindApart(s, ctx);
    UnbindRemovesItsOwn(s, ctx);
    var t := Next(s, Unbind(ctx));
    var mine := s.contexts[ctx].running[|s.contexts[ctx].running| - 1];
    forall x: Scope | true ensures OnStack(t, x) <==> Running(t, x) {
      assert OnStack(s, x) <==> Running(s, x);
      if Running(t, x) { var c :| RunningIn(t, c, x); assert RunningIn(s, c, x); }
      if Running(s, x) && x != mine { var c :| RunningIn(s, c, x); assert RunningIn(t, c, x); }
    }
    RemoveTakesOne(s.stacks[mine.crew], mine);
  }

  // ------------------------------------------------------------------ runs

  predicate Moves(states: seq<State>, steps: seq<Step>, i: nat)
    requires i < |steps| < |states|
  {
    Enabled(states[i], steps[i]) && states[i + 1] == Next(states[i], steps[i])
  }

  predicate IsRun(states: seq<State>, steps: seq<Step>) {
    && |states| == |steps| + 1 && states[0] == START
    && forall i :: 0 <= i < |steps| ==> Moves(states, steps, i)
  }

  /** However kickoffs nest and overlap, every crew's stack holds exactly its running scopes. */
  lemma {:induction false} StacksHoldTheRunningScopes(states: seq<State>, steps: seq<Step>, n: nat)
    requires IsRun(states, steps) && n < |states|
    ensures Exact(states[n]) && Apart(states[n])
  {
    if n == 0 {
      forall x: Scope | true ensures !OnStack(START, x) && !Running(START, x) {
      }
    } else {
      StacksHoldTheRunningScopes(states, steps, n - 1);
      assert Moves(states, steps, n - 1);
      match steps[n - 1]
      case Spawn(parent, child) => SpawnKeeps(states[n - 1], parent, child);
      case Bind(ctx, crew, id) => BindKeeps(states[n - 1], ctx, crew, id);
      case Unbind(ctx) => UnbindKeeps(states[n - 1], ctx);
    }
  }

  lemma FirstIsOnStack(s: State)
    requires Exact(s)
    ensures forall crew <- s.stacks :: s.stacks[crew] != [] && OnStack(s, s.stacks[crew][0])
  {
    forall crew | crew in s.stacks ensures s.stacks[crew] != [] && OnStack(s, s.stacks[crew][0]) {
      assert s.stacks[crew][0] in s.stacks[crew];
    }
  }

  /** Once nothing is running, nothing is left behind. */
  lemma NothingIsLeft(states: seq<State>, steps: seq<Step>, n: nat)
    requires IsRun(states, steps) && n < |states|
    requires forall ctx <- states[n].contexts :: states[n].contexts[ctx].running == []
    ensures states[n].stacks == map[]
  {
    StacksHoldTheRunningScopes(states, steps, n);
    var s := states[n];
    FirstIsOnStack(s);
    assert forall x: Scope, ctx :: !RunningIn(s, ctx, x);
    assert forall x: Scope :: !Running(s, x);
    assert s.stacks.Keys == {};
  }

  predicate IsLast(stack: seq<Scope>, x: Scope) { stack != [] && stack[|stack| - 1] == x }

  /** The scope an event of a crew is put down to: the context's, if it is of that crew, else the crew's latest. */
  function OpFor(s: State, ctx: nat, crew: nat): Option<Scope>
    requires ctx in s.contexts
  {
    var here := Current(s.contexts[ctx]);
    var stack := StackOf(s.stacks, crew);
    if here.Some? && here.value.crew == crew then here else if stack != [] then Some(stack[|stack| - 1]) else None
  }

  /** Never another crew's; inside a kickoff of the crew, that kickoff's own, the innermost one; in a task spawned
      there, the spawning one's; elsewhere the one begun last of those that run; and none only if none runs. */
  lemma EventsStayWithTheirCrew(states: seq<State>, steps: seq<Step>, n: nat, ctx: nat, crew: nat)
    requires IsRun(states, steps) && n < |states| && ctx in states[n].contexts
    ensures var op := OpFor(states[n], ctx, crew);
            && (op.Some? ==> op.value.crew == crew)
            && (op.None? ==> forall x: Scope :: Running(states[n], x) ==> x.crew != crew)
            && (op.Some? ==> op == states[n].contexts[ctx].inherited || Running(states[n], op.value))
            && (var c := states[n].contexts[ctx];
                && (c.running != [] && c.running[|c.running| - 1].crew == crew ==> op == Some(c.running[|c.running| - 1]))
                && (c.running == [] && c.inherited.Some? && c.inherited.value.crew == crew ==> op == c.inherited))
            && (op.Some? && op != Current(states[n].contexts[ctx]) ==>
                  IsLast(StackOf(states[n].stacks, crew), op.value))
  {
    StacksHoldTheRunningScopes(states, steps, n);
    var s := states[n];
    var op := OpFor(s, ctx, crew);
    if op.Some? {
      var c := s.contexts[ctx];
      if c.running != [] && op == Some(c.running[|c.running| - 1]) {
        assert RunningIn(s, ctx, op.value);
      } else if op != c.inherited {
        assert op.value in s.stacks[crew] && OnStack(s, op.value);
      }
    } else {
      forall x: Scope | Running(s, x) ensures x.crew != crew {
        assert OnStack(s, x);
      }
    }
  }

  /** The events of a spawned task go where those of the context that spawned it go. */
  lemma SpawnedTasksInherit(s: State, parent: nat, child: nat, crew: nat)
    requires Enabled(s, Spawn(parent, child))
    ensures var t := Next(s, Spawn(parent, child));
            && child in t.contexts && OpFor(t, child, crew) == OpFor(s, parent, crew)
            && t.stacks == s.stacks && forall ctx <- s.contexts :: t.contexts[ctx] == s.contexts[ctx]
  {
  }

  /** The process-wide stacks, changed in place. */
  class ActiveOps {
    var stacks: map<nat, seq<Scope>>

    constructor ()
      ensures stacks == map[]
    {
      stacks := map[];
    }

    method Bind(crew: nat, id: nat) returns (scope: Scope)
      modifies this
      ensures scope == Scope(id, crew)
      ensures stacks == old(stacks)[crew := StackOf(old(stacks), crew) + [scope]]
    {
      scope := Scope(id, crew);
      stacks := stacks[crew := (if crew in stacks then stacks[crew] else []) + [scope]];
    }

    /** current is the context's scope before its variable is reset. */
    method Unbind(crew: nat, current: Option<Scope>)
      modifies this
      ensures stacks == Unbound(old(stacks), crew, current)
    {
      var scope := current;
      if scope.Some? && scope.value.crew != crew {
        scope := None;
      }
      var stack := if crew in stacks then stacks[crew] else [];
      if stack == [] {
        return;
      }
      if scope.Some? && scope.value in stack {
        stack := Remove(stack, scope.value);
      } else {
        stack := stack[..|stack| - 1];
      }
      if stack == [] {
        stacks := stacks - {crew};
      } else {
        stacks := stacks[crew := stack];
      }
    }
  }
}
