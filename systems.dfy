/** The subsystem list (SystemManager).

    `use` registers a subsystem; `update(dt)` and `render()` walk a chain of
    nodes from `head` and call the matching hook of every subsystem that has
    one. A subsystem is an object whose only observable traits here are
    whether it has an `update` hook and whether it has a `render` hook; what
    the hooks do is outside the model, so a walk returns the calls it would
    make, in order.
 */
module Systems {

  /** A registered subsystem. Object identity matters: `use` hands back the
      very object it registered. */
  class System {
    const hasUpdate: bool
    const hasRender: bool

    constructor (hasUpdate: bool, hasRender: bool)
      ensures this.hasUpdate == hasUpdate && this.hasRender == hasRender
    {
      this.hasUpdate := hasUpdate;
      this.hasRender := hasRender;
    }
  }

  /** A constructor function passed to `use`, described by the hooks of the
      instance `new` builds from it. */
  datatype Factory = Factory(hasUpdate: bool, hasRender: bool)

  /** The argument of `use`, classified by its JavaScript `typeof`. */
  datatype Arg =
    | Primitive                // undefined, a boolean, number, string, symbol or bigint: neither "object" nor "function"
    | Null                     // `typeof null` is "object", so null passes the check
    | Instance(obj: System)    // an object
    | Constructor(make: Factory)  // a function

  /** What `use` returns: false, or the registered value (null for null). */
  datatype UseResult = Rejected | Registered(system: System?)

  /** A chain node `{ system, next }`. */
  class Node {
    const system: System?
    var next: Node?

    constructor (system: System?)
      ensures this.system == system && next == null
    {
      this.system := system;
      next := null;
    }
  }

  /** Which walk is under way: `update(dt)` or `render()`. */
  datatype Phase = UpdatePhase(dt: real) | RenderPhase

  /** One hook invocation: `target.update(dt)` or `target.render()`. */
  datatype Call = Call(target: System, phase: Phase)

  /** The outcome of a walk: the hooks called, in order, and whether it
      stopped on a null subsystem (reading a hook of null throws a
      TypeError, which ends the walk). */
  datatype Trace = Trace(calls: seq<Call>, faulted: bool)

  predicate HasHook(s: System, phase: Phase) {
    if phase.UpdatePhase? then s.hasUpdate else s.hasRender
  }

  /** The subsystems a run of calls is made on, in order. */
  function Targets(calls: seq<Call>): (targets: seq<System?>)
    ensures |targets| == |calls|
    ensures forall i :: 0 <= i < |calls| ==> targets[i] == calls[i].target
  {
    seq(|calls|, i requires 0 <= i < |calls| => calls[i].target)
  }

  /** The hooks a walk over `systems`, in this order, calls. */
  function Dispatch(systems: seq<System?>, phase: Phase): (t: Trace)
    ensures t.faulted <==> null in systems
    ensures |t.calls| <= |systems|
    ensures forall i :: 0 <= i < |t.calls| ==>
              t.calls[i].phase == phase && HasHook(t.calls[i].target, phase) && t.calls[i].target in systems
  {
    if systems == [] then Trace([], false)
    else if systems[0] == null then Trace([], true)
    else
      var rest := Dispatch(systems[1..], phase);
      var here := if HasHook(systems[0], phase) then [Call(systems[0], phase)] else [];
      assert forall i :: 0 <= i < |rest.calls| ==> rest.calls[i].target in systems by {
        forall i | 0 <= i < |rest.calls| ensures rest.calls[i].target in systems {
          assert rest.calls[i].target in systems[1..];
        }
      }
      Trace(here + rest.calls, rest.faulted)
  }

  /** The targets of two runs of calls are those of each run. */
  lemma TargetsAppend(a: seq<Call>, b: seq<Call>)
    ensures multiset(Targets(a + b)) == multiset(Targets(a)) + multiset(Targets(b))
  {
    assert Targets(a + b) == Targets(a) + Targets(b);
  }

  /** A subsystem is called at most once per occurrence in the walk: the
      calls, counted per target, never outnumber the subsystems. */
  lemma {:induction false} DispatchCallsOnce(systems: seq<System?>, phase: Phase)
    ensures multiset(Targets(Dispatch(systems, phase).calls)) <= multiset(systems)
  {
    if systems != [] && systems[0] != null {
      var here := if HasHook(systems[0], phase) then [Call(systems[0], phase)] else [];
      var rest := Dispatch(systems[1..], phase).calls;
      DispatchCallsOnce(systems[1..], phase);
      TargetsAppend(here, rest);
      assert multiset(Targets(here)) <= multiset{systems[0]};
      assert multiset(systems) == multiset{systems[0]} + multiset(systems[1..]) by {
        assert systems == [systems[0]] + systems[1..];
      }
    }
  }

  /** A walk over two runs of subsystems makes the first run's calls, then
      the second's: the order of the calls is the order of the chain. */
  lemma {:induction false} DispatchAppend(a: seq<System?>, b: seq<System?>, phase: Phase)
    requires null !in a
    ensures Dispatch(a + b, phase) == Trace(Dispatch(a, phase).calls + Dispatch(b, phase).calls, Dispatch(b, phase).faulted)
  {
    if a == [] {
      assert a + b == b;
    } else {
      assert (a + b)[0] == a[0];
      assert (a + b)[1..] == a[1..] + b;
      DispatchAppend(a[1..], b, phase);
    }
  }

  /** With no null in the way, every subsystem that has the hook is called
      (and, by the contract of `Dispatch`, no other is). */
  lemma {:induction false} DispatchExactly(systems: seq<System?>, phase: Phase)
    requires null !in systems
    ensures forall s: System :: s in systems && HasHook(s, phase) ==> Call(s, phase) in Dispatch(systems, phase).calls
  {
    if systems != [] {
      DispatchExactly(systems[1..], phase);
      forall s: System | s in systems && HasHook(s, phase)
        ensures Call(s, phase) in Dispatch(systems, phase).calls
      {
        if s != systems[0] {
          assert s in systems[1..];
        }
      }
    }
  }

  /** One more non-null subsystem adds its call, if it has the hook, at the
      end of the calls so far. */
  lemma DispatchStep(all: seq<System?>, i: int, phase: Phase)
    requires 0 <= i < |all| && null !in all[..i] && all[i] != null
    ensures null !in all[..i + 1]
    ensures Dispatch(all[..i + 1], phase).calls ==
              Dispatch(all[..i], phase).calls + (if HasHook(all[i], phase) then [Call(all[i], phase)] else [])
  {
    assert all[..i + 1] == all[..i] + [all[i]];
    DispatchAppend(all[..i], [all[i]], phase);
  }

  /** A null subsystem ends the walk: the calls are those made before it. */
  lemma DispatchStops(all: seq<System?>, i: int, phase: Phase)
    requires 0 <= i < |all| && null !in all[..i] && all[i] == null
    ensures Dispatch(all, phase) == Trace(Dispatch(all[..i], phase).calls, true)
  {
    assert all == all[..i] + all[i..];
    DispatchAppend(all[..i], all[i..], phase);
  }

  /** The subsystems held by a run of nodes. */
  function SystemsOf(nodes: seq<Node>): (systems: seq<System?>)
    ensures |systems| == |nodes|
    ensures forall i :: 0 <= i < |nodes| ==> systems[i] == nodes[i].system
  {
    seq(|nodes|, i requires 0 <= i < |nodes| => nodes[i].system)
  }

  /** `nodes` is the chain reached from `head` by following `next` until
      null. */
  ghost predicate IsChain(head: Node?, nodes: seq<Node>)
    reads set i | 0 <= i < |nodes| :: nodes[i]
  {
    && (if nodes == [] then head == null else head == nodes[0])
    && forall i :: 0 <= i < |nodes| ==> nodes[i].next == (if i + 1 < |nodes| then nodes[i + 1] else null)
  }

  lemma ChainNext(head: Node?, nodes: seq<Node>, i: int)
    requires IsChain(head, nodes) && 0 <= i < |nodes|
    ensures nodes[i].next == if i + 1 < |nodes| then nodes[i + 1] else null
  {
  }

  /** The loop of `update` and `render`: from `head`, follow `next` until
      null and call the phase's hook on every subsystem that has it. */
  method Walk(head: Node?, ghost nodes: seq<Node>, phase: Phase) returns (t: Trace)
    requires IsChain(head, nodes)
    ensures t == Dispatch(SystemsOf(nodes), phase)
  {
    ghost var all := SystemsOf(nodes);
    var calls: seq<Call> := [];
    var current := head;
    ghost var i := 0;
    while current != null
      invariant 0 <= i <= |nodes|
      invariant current == if i < |nodes| then nodes[i] else null
      invariant null !in all[..i]
      invariant calls == Dispatch(all[..i], phase).calls
      decreases |nodes| - i
    {
      assert current == nodes[i] && all[i] == current.system;
      if current.system == null {
        DispatchStops(all, i, phase);
        return Trace(calls, true);
      }
      DispatchStep(all, i, phase);
      if HasHook(current.system, phase) {
        calls := calls + [Call(current.system, phase)];
      }
      ChainNext(head, nodes, i);
      current := current.next;
      i := i + 1;
    }
    assert all[..i] == all;
    return Trace(calls, false);
  }

  /** The manager as the source writes it: `use` makes a node but links it
      only when the chain is empty, so only the first registered value is
      ever on the chain; `systems` is set up and never used. */
  class SystemManager {
    var systems: seq<System?>
    var head: Node?
    var count: int
    /** The nodes reached from `head`. */
    ghost var chain: seq<Node>
    /** Every value `use` accepted, in order. */
    ghost var registered: seq<System?>

    ghost predicate Valid()
      reads this, set i | 0 <= i < |chain| :: chain[i]
    {
      && IsChain(head, chain)
      && systems == []
      && count == |registered|
      && |chain| <= 1
      && (chain == [] <==> registered == [])
      && SystemsOf(chain) == registered[..|chain|]
    }

    constructor ()
      ensures Valid()
      ensures systems == [] && head == null && count == 0
      ensures chain == [] && registered == []
    {
      systems := [];
      head := null;
      count := 0;
      chain := [];
      registered := [];
    }

    /** `use(system)`: false for a primitive, leaving everything as it was;
        otherwise the object (or a new instance built by the constructor
        function, or null), with `count` one higher and `head` set if and
        only if this is the first registration. */
    method Use(arg: Arg) returns (r: UseResult)
      requires Valid()
      modifies this
      ensures Valid()
      ensures r.Rejected? <==> arg.Primitive?
      ensures arg.Null? ==> r == Registered(null)
      ensures arg.Instance? ==> r == Registered(arg.obj)
      ensures arg.Constructor? ==> r.Registered? && r.system != null && fresh(r.system)
      ensures arg.Constructor? ==> r.system.hasUpdate == arg.make.hasUpdate && r.system.hasRender == arg.make.hasRender
      ensures r.Rejected? ==> count == old(count) && registered == old(registered)
      ensures r.Registered? ==> count == old(count) + 1 && registered == old(registered) + [r.system]
      ensures r.Registered? && old(head) == null ==>
                head != null && fresh(head) && head.system == r.system && head.next == null && chain == [head]
      ensures r.Rejected? || old(head) != null ==> head == old(head) && chain == old(chain)
      ensures systems == old(systems)
    {
      if arg.Primitive? {
        return Rejected;
      }
      var system: System?;
      match arg {
        case Null => system := null;
        case Instance(obj) => system := obj;
        case Constructor(make) => system := new System(make.hasUpdate, make.hasRender);
      }
      var current := new Node(system);
      if head == null {
        head := current;
        chain := [current];
      }
      count := count + 1;
      registered := registered + [system];
      return Registered(system);
    }

    /** `update(dt)`: calls `update(dt)` on the first registered subsystem
        if it has that hook, and on no other; a null first registration
        makes the call throw. */
    method Update(dt: real) returns (t: Trace)
      requires Valid()
      ensures t == Dispatch(registered[..|chain|], UpdatePhase(dt))
      ensures t.faulted <==> registered != [] && registered[0] == null
      ensures t.calls == if registered != [] && registered[0] != null && registered[0].hasUpdate
                         then [Call(registered[0], UpdatePhase(dt))] else []
    {
      t := Walk(head, chain, UpdatePhase(dt));
    }

    /** `render()`: calls `render()` on the first registered subsystem if it
        has that hook, and on no other. */
    method Render() returns (t: Trace)
      requires Valid()
      ensures t == Dispatch(registered[..|chain|], RenderPhase)
      ensures t.faulted <==> registered != [] && registered[0] == null
      ensures t.calls == if registered != [] && registered[0] != null && registered[0].hasRender
                         then [Call(registered[0], RenderPhase)] else []
    {
      t := Walk(head, chain, RenderPhase);
    }
  }

  /** The four kinds of argument to `use`, in turn, on one manager: a
      primitive is refused and counts nothing; an object comes back as
      itself; a constructor function comes back as a new instance with the
      hooks it builds; null is admitted by the type check. */
  method UseResults(obj: System) returns (primitive: UseResult, instance: UseResult,
                                          built: UseResult, nothing: UseResult, count: int)
    ensures primitive == Rejected
    ensures instance == Registered(obj)
    ensures built.Registered? && built.system != null && built.system != obj
    ensures built.Registered? && built.system != null && !built.system.hasUpdate && built.system.hasRender
    ensures nothing == Registered(null)
    ensures count == 3
  {
    var manager := new SystemManager();
    primitive := manager.Use(Primitive);
    instance := manager.Use(Instance(obj));
    built := manager.Use(Constructor(Factory(false, true)));
    nothing := manager.Use(Null);
    count := manager.count;
  }

  /** Two subsystems, both with an `update` hook, registered one after the
      other: the count says two, but `update` calls only the first. */
  method SecondSystemSkipped(dt: real) returns (count: int, t: Trace, first: System, second: System)
    ensures count == 2 && first != second
    ensures first.hasUpdate && second.hasUpdate
    ensures t.calls == [Call(first, UpdatePhase(dt))]
    ensures Call(second, UpdatePhase(dt)) !in t.calls
  {
    first := new System(true, false);
    second := new System(true, false);
    var manager := new SystemManager();
    var _ := manager.Use(Instance(first));
    var _ := manager.Use(Instance(second));
    count := manager.count;
    t := manager.Update(dt);
  }

  /** The manager as evidently intended: a registration is appended at the
      end of the chain (through a `tail` pointer), so a walk visits every
      registered subsystem in registration order. */
  class OrderedSystemManager {
    var head: Node?
    var tail: Node?
    var count: int
    ghost var chain: seq<Node>
    ghost var registered: seq<System?>

    ghost predicate Valid()
      reads this, set i | 0 <= i < |chain| :: chain[i]
    {
      && IsChain(head, chain)
      && (forall i, j :: 0 <= i < j < |chain| ==> chain[i] != chain[j])
      && tail == (if chain == [] then null else chain[|chain| - 1])
      && count == |registered|
      && SystemsOf(chain) == registered
    }

    constructor ()
      ensures Valid()
      ensures head == null && count == 0 && chain == [] && registered == []
    {
      head := null;
      tail := null;
      count := 0;
      chain := [];
      registered := [];
    }

    /** `use(system)` with the missing link added: same results as
        `SystemManager.Use`, and every accepted value joins the end of the
        chain. */
    method Use(arg: Arg) returns (r: UseResult)
      requires Valid()
      modifies this, tail
      ensures Valid()
      ensures r.Rejected? <==> arg.Primitive?
      ensures arg.Null? ==> r == Registered(null)
      ensures arg.Instance? ==> r == Registered(arg.obj)
      ensures arg.Constructor? ==> r.Registered? && r.system != null && fresh(r.system)
      ensures arg.Constructor? ==> r.system.hasUpdate == arg.make.hasUpdate && r.system.hasRender == arg.make.hasRender
      ensures r.Rejected? ==> count == old(count) && registered == old(registered) && chain == old(chain)
      ensures r.Registered? ==> count == old(count) + 1 && registered == old(registered) + [r.system]
      ensures r.Registered? ==> |chain| == |old(chain)| + 1 && chain[..|old(chain)|] == old(chain)
      ensures r.Registered? ==> fresh(tail) && tail.system == r.system && tail.next == null
      ensures old(head) != null ==> head == old(head)
    {
      if arg.Primitive? {
        return Rejected;
      }
      var system: System?;
      match arg {
        case Null => system := null;
        case Instance(obj) => system := obj;
        case Constructor(make) => system := new System(make.hasUpdate, make.hasRender);
      }
      var current := new Node(system);
      if head == null {
        head := current;
      } else {
        tail.next := current;
      }
      tail := current;
      count := count + 1;
      chain := chain + [current];
      registered := registered + [system];
      return Registered(system);
    }

    /** `update(dt)`: one `update(dt)` call per registered subsystem that
        has the hook, in registration order. */
    method Update(dt: real) returns (t: Trace)
      requires Valid()
      ensures t == Dispatch(registered, UpdatePhase(dt))
    {
      t := Walk(head, chain, UpdatePhase(dt));
    }

    /** `render()`: one `render()` call per registered subsystem that has
        the hook, in registration order. */
    method Render() returns (t: Trace)
      requires Valid()
      ensures t == Dispatch(registered, RenderPhase)
    {
      t := Walk(head, chain, RenderPhase);
    }
  }

  /** The same two registrations as `SecondSystemSkipped`, on the corrected
      manager: both subsystems are updated, first then second. */
  method SecondSystemVisited(dt: real) returns (count: int, t: Trace, first: System, second: System)
    ensures count == 2 && first != second
    ensures first.hasUpdate && second.hasUpdate
    ensures t.calls == [Call(first, UpdatePhase(dt)), Call(second, UpdatePhase(dt))]
  {
    first := new System(true, false);
    second := new System(true, false);
    var manager := new OrderedSystemManager();
    var _ := manager.Use(Instance(first));
    var _ := manager.Use(Instance(second));
    count := manager.count;
    t := manager.Update(dt);
    assert manager.registered == [first as System?, second];
    DispatchAppend([first], [second], UpdatePhase(dt));
  }
}
