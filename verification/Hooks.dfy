/** One hook at a time, the newest event wins: HookRunner of src/hooks.cpp.

    What fork() and waitpid() answer are inputs. `attempts` is a history of the spawns
    tried; the source keeps no such list.
 */
module Hooks {
  import opened Machine

  datatype Hook = Hook(command: string, event: string, context: string)

  datatype Child = Child(pid: nat, hook: Hook)

  datatype Runner = Runner(running: seq<Child>, pending: Option<Hook>, attempts: seq<Hook>)

  /** `fork` is the child's pid, if the fork succeeds; `gone` the pids waitpid() reaps or
      cannot find. */
  datatype Op =
    | Submit(hook: Hook, fork: Option<nat>)
    | Poll(gone: set<nat>, fork: Option<nat>)
    | Flush(fork: Option<nat>)

  const IDLE := Runner([], None, [])

  // ------------------------------------------------------------------- steps

  function Spawn(r: Runner, h: Hook, fork: Option<nat>): Runner {
    Runner(if fork.Some? then r.running + [Child(fork.value, h)] else r.running, r.pending, r.attempts + [h])
  }

  /** The slot is emptied before the spawn. */
  function SpawnPending(r: Runner, fork: Option<nat>): Runner
    requires r.pending.Some?
  {
    Spawn(r.(pending := None), r.pending.value, fork)
  }

  /** The children that have not gone, in order. */
  function Survivors(running: seq<Child>, gone: set<nat>): seq<Child>
    decreases |running|
  {
    if running == [] then []
    else
      var n := |running| - 1;
      Survivors(running[..n], gone) + (if running[n].pid in gone then [] else [running[n]])
  }

  lemma SurvivorsOfOneMore(running: seq<Child>, gone: set<nat>, k: nat)
    requires k < |running|
    ensures Survivors(running[..k + 1], gone) ==
            Survivors(running[..k], gone) + (if running[k].pid in gone then [] else [running[k]])
  {
    assert running[..k + 1][..k] == running[..k];
  }

  /** Whether a child goes is its own affair, and those left stay in order. */
  lemma {:induction false} EachChildForItself(a: seq<Child>, c: Child, b: seq<Child>, gone: set<nat>)
    ensures Survivors(a + [c] + b, gone) ==
            Survivors(a, gone) + (if c.pid in gone then [] else [c]) + Survivors(b, gone)
    decreases |b|
  {
    var all := a + [c] + b;
    if b == [] {
      assert all[..|all| - 1] == a;
    } else {
      var front := b[..|b| - 1];
      assert all[..|all| - 1] == a + [c] + front;
      EachChildForItself(a, c, front, gone);
    }
  }

  lemma RemoveMiddle(a: seq<Child>, c: Child, b: seq<Child>)
    ensures var all := a + ([c] + b);
            all[..|a|] == a && all[|a|] == c && all[|a| + 1..] == b && all == (a + [c]) + b
  {
  }

  function Apply(r: Runner, op: Op): Runner {
    match op
    case Submit(h, fork) => if r.running != [] then r.(pending := Some(h)) else Spawn(r, h, fork)
    case Poll(gone, fork) =>
      var reaped := r.(running := Survivors(r.running, gone));
      if reaped.running == [] && reaped.pending.Some? then SpawnPending(reaped, fork) else reaped
    case Flush(fork) => if r.pending.Some? then SpawnPending(r, fork) else r
  }

  class HookRunner {
    var running: seq<Child>
    var pending: Option<Hook>
    ghost var attempts: seq<Hook>

    ghost function Value(): Runner
      reads this
    {
      Runner(running, pending, attempts)
    }

    constructor ()
      ensures Value() == IDLE
    {
      running, pending, attempts := [], None, [];
    }

    method Run(hook: Hook, fork: Option<nat>)
      modifies this
      ensures Value() == Apply(old(Value()), Submit(hook, fork))
    {
      if running != [] {
        pending := Some(hook);
        return;
      }
      SpawnHook(hook, fork);
    }

    method PollChildren(gone: set<nat>, fork: Option<nat>)
      modifies this
      ensures Value() == Apply(old(Value()), Poll(gone, fork))
    {
      Reap(gone);
      if running == [] && pending.Some? {
        SpawnSlot(fork);
      }
    }

    method Reap(gone: set<nat>)
      modifies this`running
      ensures running == Survivors(old(running), gone)
    {
      var index, asked := 0, 0;
      ghost var was := running;
      ghost var kept: seq<Child> := [];
      while index < |running|
        invariant asked <= |was| && kept == Survivors(was[..asked], gone) && index == |kept|
        invariant running == kept + was[asked..]
      {
        hide Survivors;
        ghost var next, rest := was[asked], was[asked + 1..];
        assert was[asked..] == [next] + rest;
        RemoveMiddle(kept, next, rest);
        SurvivorsOfOneMore(was, gone, asked);
        if running[index].pid in gone {
          running := running[..index] + running[index + 1..];
          assert kept + [] == kept;
        } else {
          index := index + 1;
          kept := kept + [next];
        }
        asked := asked + 1;
      }
      assert was[..asked] == was;
    }

    method FlushPending(fork: Option<nat>)
      modifies this
      ensures Value() == Apply(old(Value()), Flush(fork))
    {
      if pending == None {
        return;
      }
      SpawnSlot(fork);
    }

    method SpawnSlot(fork: Option<nat>)
      requires pending.Some?
      modifies this
      ensures Value() == SpawnPending(old(Value()), fork)
    {
      var next := pending.value;
      pending := None;
      SpawnHook(next, fork);
    }

    method SpawnHook(hook: Hook, fork: Option<nat>)
      modifies this
      ensures Value() == Spawn(old(Value()), hook, fork)
    {
      attempts := attempts + [hook];
      if fork == None {
        return;
      }
      running := running + [Child(fork.value, hook)];
    }
  }

  // -------------------------------------------------------------- whole runs

  function Run(ops: seq<Op>): Runner
    decreases |ops|
  {
    if ops == [] then IDLE else Apply(Run(ops[..|ops| - 1]), ops[|ops| - 1])
  }

  /** The events submitted, in order. */
  function Events(ops: seq<Op>): seq<Hook>
    decreases |ops|
  {
    if ops == [] then []
    else
      var before := Events(ops[..|ops| - 1]);
      match ops[|ops| - 1]
      case Submit(h, _) => before + [h]
      case _ => before
  }

  predicate NoFlush(ops: seq<Op>) {
    forall k :: 0 <= k < |ops| ==> !ops[k].Flush?
  }

  /** `a` is `b` with some of its elements left out. */
  ghost predicate Within(a: seq<Hook>, b: seq<Hook>)
    decreases |b|
  {
    a == [] || (b != [] &&
      ((a[|a| - 1] == b[|b| - 1] && Within(a[..|a| - 1], b[..|b| - 1])) || Within(a, b[..|b| - 1])))
  }

  lemma {:induction false} WithinLonger(a: seq<Hook>, b: seq<Hook>, h: Hook)
    requires Within(a, b)
    ensures Within(a, b + [h]) && Within(a + [h], b + [h])
  {
    assert (b + [h])[..|b|] == b;
    assert (a + [h])[..|a|] == a;
  }

  lemma {:induction false} WithinShorter(a: seq<Hook>, h: Hook, b: seq<Hook>)
    requires Within(a + [h], b)
    ensures Within(a, b)
    decreases |b|
  {
    var front := b[..|b| - 1];
    assert (a + [h])[..|a|] == a;
    assert b == front + [b[|b| - 1]];
    if !Within(a, front) {
      WithinShorter(a, h, front);
    }
    WithinLonger(a, front, b[|b| - 1]);
  }

  /** Everything spawned or still to be. */
  function Planned(r: Runner): seq<Hook> {
    r.attempts + if r.pending.Some? then [r.pending.value] else []
  }

  /** What holds after any run: nothing is spawned out of order or twice, and the last thing
      planned is the last event. */
  ghost predicate InOrder(r: Runner, events: seq<Hook>) {
    && Within(Planned(r), events)
    && (events != [] ==> Planned(r) != [] && Planned(r)[|Planned(r)| - 1] == events[|events| - 1])
  }

  lemma SubmitStaysInOrder(r: Runner, h: Hook, fork: Option<nat>, events: seq<Hook>)
    requires InOrder(r, events)
    ensures InOrder(Apply(r, Submit(h, fork)), events + [h])
    requires r.pending.Some? ==> r.running != []
  {
    if r.pending.Some? {
      WithinShorter(r.attempts, r.pending.value, events);
    } else {
      assert Planned(r) == r.attempts;
    }
    WithinLonger(r.attempts, events, h);
    assert Planned(Apply(r, Submit(h, fork))) == r.attempts + [h];
  }

  lemma PlanSurvives(r: Runner, op: Op)
    requires !op.Submit?
    ensures Planned(Apply(r, op)) == Planned(r)
  {
  }

  /** The children the player has: forked, and not reported gone since. Kept from the forks and the
      answers of waitpid(), whatever the runner has noted of them. */
  function Children(ops: seq<Op>): seq<Child>
    decreases |ops|
  {
    if ops == [] then []
    else
      var before, op := ops[..|ops| - 1], ops[|ops| - 1];
      Unreaped(Children(before), op) + Forked(Run(before), Run(ops), op.fork)
  }

  function Unreaped(children: seq<Child>, op: Op): seq<Child> {
    if op.Poll? then Survivors(children, op.gone) else children
  }

  function Forked(r: Runner, r': Runner, fork: Option<nat>): seq<Child> {
    if |r'.attempts| > |r.attempts| && fork.Some? then [Child(fork.value, r'.attempts[|r'.attempts| - 1])] else []
  }

  lemma StepKnowsItsChildren(r: Runner, op: Op)
    ensures Apply(r, op).running == Unreaped(r.running, op) + Forked(r, Apply(r, op), op.fork)
  {
    hide Survivors;
  }

  /** The runner knows exactly its children, in the order they were forked: none is forgotten, and
      none is waited for that is not there. */
  lemma {:induction false} RunningAreTheChildren(ops: seq<Op>)
    ensures Run(ops).running == Children(ops)
    decreases |ops|
  {
    if ops != [] {
      hide Apply, Unreaped, Forked;
      RunningAreTheChildren(ops[..|ops| - 1]);
      StepKnowsItsChildren(Run(ops[..|ops| - 1]), ops[|ops| - 1]);
    }
  }

  /** Before any flush, and also after it: a pending hook waits for a running child, spawns keep
      the order of the events, and the newest event is what the hardware ends with. */
  lemma {:induction false} RunStaysInOrder(ops: seq<Op>)
    ensures InOrder(Run(ops), Events(ops))
    ensures Run(ops).pending.Some? ==> Children(ops) != []
    decreases |ops|
  {
    RunningAreTheChildren(ops);
    if ops != [] {
      var before, op := ops[..|ops| - 1], ops[|ops| - 1];
      RunStaysInOrder(before);
      RunningAreTheChildren(before);
      if op.Submit? {
        SubmitStaysInOrder(Run(before), op.hook, op.fork, Events(before));
      } else {
        PlanSurvives(Run(before), op);
      }
    }
  }

  lemma {:induction false} SurvivorsAreFewer(running: seq<Child>, gone: set<nat>)
    ensures |Survivors(running, gone)| <= |running|
    decreases |running|
  {
    if running != [] {
      SurvivorsAreFewer(running[..|running| - 1], gone);
    }
  }

  /** Two hooks never run side by side before the flush. */
  lemma {:induction false} OneHookAtATime(ops: seq<Op>)
    requires NoFlush(ops)
    ensures |Children(ops)| <= 1
    decreases |ops|
  {
    if ops != [] {
      var before := ops[..|ops| - 1];
      OneHookAtATime(before);
      RunningAreTheChildren(before);
      match ops[|ops| - 1]
      case Submit(_, _) =>
      case Poll(gone, _) => SurvivorsAreFewer(Children(before), gone);
    }
  }

  /** flush() gives ordering up for one hook, not for more. */
  lemma FlushRunsAtMostOneBeside(ops: seq<Op>, fork: Option<nat>)
    requires NoFlush(ops)
    ensures |Children(ops + [Flush(fork)])| <= 2
  {
    OneHookAtATime(ops);
    assert (ops + [Flush(fork)])[..|ops|] == ops;
  }

  /** A poll that finds every child gone, or a flush, leaves nothing waiting, so the last
      spawn attempted is the last event submitted. */
  lemma LastEventWins(ops: seq<Op>)
    requires Events(ops) != []
    requires Run(ops).pending == None
    ensures Run(ops).attempts != []
    ensures Run(ops).attempts[|Run(ops).attempts| - 1] == Events(ops)[|Events(ops)| - 1]
  {
    RunStaysInOrder(ops);
    assert Planned(Run(ops)) == Run(ops).attempts;
  }

  lemma DrainedMeansNothingPending(ops: seq<Op>, op: Op)
    requires op.Flush? || (op.Poll? && forall c :: c in Children(ops) ==> c.pid in op.gone)
    ensures Run(ops + [op]).pending == None
  {
    assert (ops + [op])[..|ops|] == ops;
    RunningAreTheChildren(ops);
    if op.Poll? {
      NoSurvivors(Children(ops), op.gone);
    }
  }

  lemma {:induction false} NoSurvivors(running: seq<Child>, gone: set<nat>)
    requires forall c :: c in running ==> c.pid in gone
    ensures Survivors(running, gone) == []
    decreases |running|
  {
    if running != [] {
      assert running[|running| - 1] in running;
      NoSurvivors(running[..|running| - 1], gone);
    }
  }
}
