/**
 * A minimal hierarchical state-machine framework with the behaviour the
 * firmware's state tables rely on (the Zephyr SMF library itself is not part
 * of this model).
 *
 * A machine is a table (Chart) giving each state an optional parent, an
 * optional initial child, and entry, run and exit actions. A NULL action in a
 * C table is an action that does nothing: a run that neither sets a state nor
 * marks the event handled, or an entry/exit that leaves the object unchanged.
 *
 * One run step executes the current state's run action and, while the action
 * neither set a new state nor marked the event handled, the run action of each
 * ancestor in turn. Setting state T exits every state from the current one up
 * to, and not including, the least common ancestor of the current state and T,
 * then enters every state below that ancestor down to T, and then follows
 * initial children down to a state without one. The ancestor used is always a
 * proper ancestor of T, so a transition to the current state or to one of its
 * ancestors exits and re-enters T.
 *
 * The ancestor is taken between the current leaf and T. Zephyr's SMF takes
 * it from the state whose run action set T, which may be an ancestor of the
 * leaf. The two choices differ only in which ancestors of T are exited and
 * entered again on the way; they settle in the same state. In the tables of
 * this firmware no exit action does anything, and re-entering ancestors does
 * not change the object a transition leaves (`ObcFilling` and `RocketState`
 * ancestors have no entry action; `MainSm.ReenteringAncestors` shows the
 * target's entry overrides whatever its ancestors' entries did).
 */
module Smf {
  import opened Bytes

  /** What a run action decided. */
  datatype Outcome<S> = Propagate | Handled | Transition(target: S)

  /**
   * A state table. `depth` and `height` are ranks that show the parent chain
   * and the initial-child chain end; `WellFormed` states them.
   */
  datatype Chart<!S, !O> = Chart(
    parent: S -> Option<S>,
    initial: S -> Option<S>,
    depth: S -> nat,
    height: S -> nat,
    run: (S, O) -> Outcome<S>,
    entry: (S, O) -> O,
    exit: (S, O) -> O)

  ghost predicate WellFormed<S(!new), O>(c: Chart<S, O>) {
    (forall s :: c.parent(s).Some? ==> c.depth(c.parent(s).value) < c.depth(s))
    && (forall s :: c.initial(s).Some? ==> c.height(c.initial(s).value) < c.height(s))
    && (forall s :: c.initial(s).Some? ==> c.parent(c.initial(s).value) == Some(s))
  }

  /** The ancestors of `s` and `s` itself, outermost first. */
  function Path<S(==, !new), O>(c: Chart<S, O>, s: S): (p: seq<S>)
    requires WellFormed(c)
    ensures |p| >= 1 && p[|p| - 1] == s
    ensures c.parent(s).None? ==> p == [s]
    decreases c.depth(s)
  {
    match c.parent(s)
    case None => [s]
    case Some(q) => Path(c, q) + [s]
  }

  /** The initial children followed from `s`, outermost first (`s` excluded). */
  function InitialChain<S(==, !new), O>(c: Chart<S, O>, s: S): (chain: seq<S>)
    requires WellFormed(c)
    ensures c.initial(s).None? <==> chain == []
    decreases c.height(s)
  {
    match c.initial(s)
    case None => []
    case Some(i) => [i] + InitialChain(c, i)
  }

  /** The state a transition to `s` settles in: the end of its initial-child chain. */
  function Leaf<S(==, !new), O>(c: Chart<S, O>, s: S): S
    requires WellFormed(c)
  {
    var chain := InitialChain(c, s);
    if chain == [] then s else chain[|chain| - 1]
  }

  /** Settling always ends in a state without an initial child. */
  lemma {:induction false} LeafHasNoInitial<S(!new), O>(c: Chart<S, O>, s: S)
    requires WellFormed(c)
    ensures c.initial(Leaf(c, s)).None?
    decreases c.height(s)
  {
    match c.initial(s)
    case None =>
    case Some(i) =>
      LeafHasNoInitial(c, i);
      assert Leaf(c, s) == Leaf(c, i);
  }

  /** The target of a transition is an ancestor (or the state itself) of where it settles. */
  lemma {:induction false} LeafPathExtends<S(!new), O>(c: Chart<S, O>, s: S)
    requires WellFormed(c)
    ensures Path(c, Leaf(c, s)) == Path(c, s) + InitialChain(c, s)
    decreases c.height(s)
  {
    match c.initial(s)
    case None =>
    case Some(i) =>
      LeafPathExtends(c, i);
      assert Leaf(c, s) == Leaf(c, i);
      assert Path(c, i) == Path(c, s) + [i];
  }

  /** Length of the longest common prefix. */
  function CommonPrefix<S(==, !new)>(a: seq<S>, b: seq<S>): (k: nat)
    ensures k <= |a| && k <= |b|
    ensures a[..k] == b[..k]
    ensures k < |a| && k < |b| ==> a[k] != b[k]
  {
    if a == [] || b == [] || a[0] != b[0] then 0
    else
      var k := 1 + CommonPrefix(a[1..], b[1..]);
      assert a[..k] == [a[0]] + a[1..][..k - 1];
      assert b[..k] == [b[0]] + b[1..][..k - 1];
      k
  }

  /**
   * How many outermost states of both paths a transition from `cur` to `tgt`
   * leaves alone: the shared prefix, but never all of the target's path.
   */
  function Kept<S(==, !new), O>(c: Chart<S, O>, cur: S, tgt: S): (k: nat)
    requires WellFormed(c)
    ensures k < |Path(c, tgt)| && k <= |Path(c, cur)|
  {
    var k := CommonPrefix(Path(c, cur), Path(c, tgt));
    if k == |Path(c, tgt)| then k - 1 else k
  }

  function Reverse<S>(s: seq<S>): (r: seq<S>)
    ensures |r| == |s|
    ensures forall i :: 0 <= i < |s| ==> r[i] == s[|s| - 1 - i]
  {
    if s == [] then [] else Reverse(s[1..]) + [s[0]]
  }

  /** The states a transition exits, innermost first. */
  function Exits<S(==, !new), O>(c: Chart<S, O>, cur: S, tgt: S): seq<S>
    requires WellFormed(c)
  {
    Reverse(Path(c, cur)[Kept(c, cur, tgt)..])
  }

  /** The states a transition enters, outermost first, ending in the settled leaf. */
  function Entries<S(==, !new), O>(c: Chart<S, O>, cur: S, tgt: S): seq<S>
    requires WellFormed(c)
  {
    Path(c, tgt)[Kept(c, cur, tgt)..] + InitialChain(c, tgt)
  }

  /** Applies an action to each state of `ss` in order. */
  function Apply<S, O>(act: (S, O) -> O, ss: seq<S>, o: O): O
  {
    if ss == [] then o else act(ss[|ss| - 1], Apply(act, ss[..|ss| - 1], o))
  }

  /** Actions that leave the object alone leave it alone along any sequence of states. */
  lemma {:induction false} ApplyIdentity<S, O>(act: (S, O) -> O, ss: seq<S>, o: O)
    requires forall s, x :: act(s, x) == x
    ensures Apply(act, ss, o) == o
    decreases |ss|
  {
    if ss != [] {
      ApplyIdentity(act, ss[..|ss| - 1], o);
    }
  }

  /** Which run action decides the step, and what it decides. */
  function Dispatch<S(==, !new), O>(c: Chart<S, O>, s: S, o: O): Outcome<S>
    requires WellFormed(c)
    decreases c.depth(s)
  {
    var out := c.run(s, o);
    if out.Propagate? && c.parent(s).Some? then Dispatch(c, c.parent(s).value, o) else out
  }

  /** A transition: exit actions, entry actions, and the settled state. */
  function Transit<S(==, !new), O>(c: Chart<S, O>, cur: S, tgt: S, o: O): (S, O)
    requires WellFormed(c)
  {
    (Leaf(c, tgt), Apply(c.entry, Entries(c, cur, tgt), Apply(c.exit, Exits(c, cur, tgt), o)))
  }

  /** One run step from state `cur` with object `o`. */
  function Step<S(==, !new), O>(c: Chart<S, O>, cur: S, o: O): (S, O)
    requires WellFormed(c)
  {
    match Dispatch(c, cur, o)
    case Transition(t) => Transit(c, cur, t, o)
    case _ => (cur, o)
  }

  /** Setting the initial state: every state from the outermost ancestor down to the settled leaf is entered. */
  function Start<S(==, !new), O>(c: Chart<S, O>, s: S, o: O): (S, O)
    requires WellFormed(c)
  {
    (Leaf(c, s), Apply(c.entry, Path(c, s) + InitialChain(c, s), o))
  }

  // Small facts for the concrete state tables: each unfolds one definition.

  lemma DispatchOwn<S(!new), O>(c: Chart<S, O>, s: S, o: O)
    requires WellFormed(c) && !c.run(s, o).Propagate?
    ensures Dispatch(c, s, o) == c.run(s, o)
  {
  }

  lemma DispatchParent<S(!new), O>(c: Chart<S, O>, s: S, o: O)
    requires WellFormed(c) && c.run(s, o).Propagate? && c.parent(s).Some?
    ensures Dispatch(c, s, o) == Dispatch(c, c.parent(s).value, o)
  {
  }

  lemma DispatchTop<S(!new), O>(c: Chart<S, O>, s: S, o: O)
    requires WellFormed(c) && c.parent(s).None?
    ensures Dispatch(c, s, o) == c.run(s, o)
  {
  }

  lemma StepState<S(!new), O>(c: Chart<S, O>, cur: S, o: O)
    requires WellFormed(c)
    ensures Step(c, cur, o).0 == (if Dispatch(c, cur, o).Transition? then Leaf(c, Dispatch(c, cur, o).target) else cur)
    ensures !Dispatch(c, cur, o).Transition? ==> Step(c, cur, o).1 == o
  {
  }

  lemma LeafOfLeaf<S(!new), O>(c: Chart<S, O>, s: S)
    requires WellFormed(c) && c.initial(s).None?
    ensures Leaf(c, s) == s
  {
  }

  lemma LeafOfParent<S(!new), O>(c: Chart<S, O>, s: S)
    requires WellFormed(c) && c.initial(s).Some? && c.initial(c.initial(s).value).None?
    ensures Leaf(c, s) == c.initial(s).value
  {
    assert InitialChain(c, s) == [c.initial(s).value];
  }

  /** Starting in a top-level state without children enters just that state. */
  lemma StartSingle<S(!new), O>(c: Chart<S, O>, s: S, o: O)
    requires WellFormed(c) && c.parent(s).None? && c.initial(s).None?
    ensures Start(c, s, o) == (s, c.entry(s, o))
  {
    assert Path(c, s) + InitialChain(c, s) == [s];
    assert Apply(c.entry, [s], o) == c.entry(s, Apply(c.entry, [], o));
  }

  /** Every proper ancestor on a path is shallower than the state, so none of them is the state itself. */
  lemma {:induction false} PathAncestorsShallower<S(!new), O>(c: Chart<S, O>, s: S)
    requires WellFormed(c)
    ensures forall i :: 0 <= i < |Path(c, s)| - 1 ==> c.depth(Path(c, s)[i]) < c.depth(s)
    decreases c.depth(s)
  {
    match c.parent(s)
    case None =>
    case Some(q) =>
      PathAncestorsShallower(c, q);
      assert Path(c, s) == Path(c, q) + [s];
  }

  /** Applying along `a + b` is applying along `a`, then along `b`. */
  lemma {:induction false} ApplyAppend<S, O>(act: (S, O) -> O, a: seq<S>, b: seq<S>, o: O)
    ensures Apply(act, a + b, o) == Apply(act, b, Apply(act, a, o))
    decreases |b|
  {
    if b == [] {
      assert a + b == a;
    } else {
      assert (a + b)[..|a + b| - 1] == a + b[..|b| - 1];
      ApplyAppend(act, a, b[..|b| - 1], o);
    }
  }

  /** States whose action does nothing can be applied in any number without effect. */
  lemma {:induction false} ApplyIdentityOn<S, O>(act: (S, O) -> O, ss: seq<S>, o: O)
    requires forall s, x :: s in ss ==> act(s, x) == x
    ensures Apply(act, ss, o) == o
    decreases |ss|
  {
    if ss != [] {
      assert forall s :: s in ss[..|ss| - 1] ==> s in ss;
      ApplyIdentityOn(act, ss[..|ss| - 1], o);
    }
  }

  /**
   * When exit actions do nothing and no proper ancestor of the target has an
   * entry action, a transition's effect on the object is the target's entry
   * followed by the entries of its initial children.
   */
  lemma TransitEffect<S(!new), O>(c: Chart<S, O>, cur: S, tgt: S, o: O)
    requires WellFormed(c)
    requires forall s, x :: c.exit(s, x) == x
    requires forall s, x :: s in Path(c, tgt) && s != tgt ==> c.entry(s, x) == x
    ensures Transit(c, cur, tgt, o).1 == Apply(c.entry, InitialChain(c, tgt), c.entry(tgt, o))
  {
    var p := Path(c, tgt);
    var k := Kept(c, cur, tgt);
    var n := |p|;
    ApplyIdentity(c.exit, Exits(c, cur, tgt), o);
    ApplyAppend(c.entry, p[k..], InitialChain(c, tgt), o);
    PathSplitsAtTarget(c, tgt, k);
    ApplyAppend(c.entry, p[k..n - 1], [tgt], o);
    ProperAncestorsAreNotTarget(c, tgt, k);
    forall s, x | s in p[k..n - 1]
      ensures c.entry(s, x) == x
    {
      assert s in p && s != tgt;
    }
    ApplyIdentityOn(c.entry, p[k..n - 1], o);
  }

  /**
   * When exit actions do nothing and the target has no initial child, a
   * transition settles in the target, and the target's own entry action runs
   * last, after those of the ancestors the transition re-enters.
   */
  lemma TransitToLeaf<S(!new), O>(c: Chart<S, O>, cur: S, tgt: S, o: O)
    requires WellFormed(c) && c.initial(tgt).None?
    requires forall s, x :: c.exit(s, x) == x
    ensures Transit(c, cur, tgt, o) ==
      (tgt, c.entry(tgt, Apply(c.entry, Path(c, tgt)[Kept(c, cur, tgt)..|Path(c, tgt)| - 1], o)))
  {
    var p := Path(c, tgt);
    var k := Kept(c, cur, tgt);
    var n := |p|;
    EntriesOfLeaf(c, cur, tgt);
    ApplyIdentity(c.exit, Exits(c, cur, tgt), o);
    LeafOfLeaf(c, tgt);
    ApplyAppend(c.entry, p[k..n - 1], [tgt], o);
  }

  /** A transition to a state without an initial child enters the re-entered ancestors, then the state. */
  lemma EntriesOfLeaf<S(!new), O>(c: Chart<S, O>, cur: S, tgt: S)
    requires WellFormed(c) && c.initial(tgt).None?
    ensures Entries(c, cur, tgt) == Path(c, tgt)[Kept(c, cur, tgt)..|Path(c, tgt)| - 1] + [tgt]
  {
    var p := Path(c, tgt);
    var k := Kept(c, cur, tgt);
    assert InitialChain(c, tgt) == [];
    assert p[k..] + [] == p[k..];
    PathSplitsAtTarget(c, tgt, k);
  }

  /**
   * A transition to a leaf whose entry action ends in `r` whatever its
   * ancestors' entry actions did first ends in `r`.
   */
  lemma TransitToAbsorbingLeaf<S(!new), O>(c: Chart<S, O>, cur: S, tgt: S, o: O, r: O)
    requires WellFormed(c) && c.initial(tgt).None?
    requires forall s, x :: c.exit(s, x) == x
    requires forall ss :: c.entry(tgt, Apply(c.entry, ss, o)) == r
    ensures Transit(c, cur, tgt, o) == (tgt, r)
  {
    var p := Path(c, tgt);
    TransitToLeaf(c, cur, tgt, o);
    assert c.entry(tgt, Apply(c.entry, p[Kept(c, cur, tgt)..|p| - 1], o)) == r;
  }

  /**
   * A transition to a leaf directly below the top state re-enters at most the
   * top state before entering the leaf.
   */
  lemma TransitBelowTop<S(!new), O>(c: Chart<S, O>, cur: S, tgt: S, top: S, o: O)
    requires WellFormed(c) && c.initial(tgt).None?
    requires c.parent(tgt) == Some(top) && c.parent(top).None?
    requires forall s, x :: c.exit(s, x) == x
    ensures Transit(c, cur, tgt, o) == (tgt, c.entry(tgt, o))
         || Transit(c, cur, tgt, o) == (tgt, c.entry(tgt, c.entry(top, o)))
  {
    var p := Path(c, tgt);
    var k := Kept(c, cur, tgt);
    assert p == [top, tgt];
    TransitToLeaf(c, cur, tgt, o);
    if k == 0 {
      assert p[k..|p| - 1] == [top];
      assert Apply(c.entry, [top], o) == c.entry(top, Apply(c.entry, [], o));
    } else {
      assert p[k..|p| - 1] == [];
    }
  }

  /** The part of a path from index `k` on is its part before the target, then the target. */
  lemma PathSplitsAtTarget<S(!new), O>(c: Chart<S, O>, tgt: S, k: nat)
    requires WellFormed(c) && k < |Path(c, tgt)|
    ensures Path(c, tgt)[k..] == Path(c, tgt)[k..|Path(c, tgt)| - 1] + [tgt]
  {
    var p := Path(c, tgt);
    assert p[k..] == p[k..|p| - 1] + [p[|p| - 1]];
  }

  /** The states of a path before its last one are on the path and differ from its end. */
  lemma ProperAncestorsAreNotTarget<S(!new), O>(c: Chart<S, O>, tgt: S, k: nat)
    requires WellFormed(c) && k < |Path(c, tgt)|
    ensures forall s :: s in Path(c, tgt)[k..|Path(c, tgt)| - 1] ==> s in Path(c, tgt) && s != tgt
  {
    var p := Path(c, tgt);
    PathAncestorsShallower(c, tgt);
    forall s | s in p[k..|p| - 1]
      ensures s in p && s != tgt
    {
      var i :| k <= i < |p| - 1 && p[i] == s;
    }
  }

  /** With no entry and no exit actions a step never changes the object. */
  lemma StepKeepsObject<S(!new), O>(c: Chart<S, O>, cur: S, o: O)
    requires WellFormed(c)
    requires forall s, x :: c.entry(s, x) == x
    requires forall s, x :: c.exit(s, x) == x
    ensures Step(c, cur, o).1 == o
  {
    match Dispatch(c, cur, o)
    case Transition(t) =>
      ApplyIdentity(c.exit, Exits(c, cur, t), o);
      ApplyIdentity(c.entry, Entries(c, cur, t), o);
    case _ =>
  }

  /** A step that sets a state always settles in a state without an initial child. */
  lemma StepSettlesInLeaf<S(!new), O>(c: Chart<S, O>, cur: S, o: O)
    requires WellFormed(c) && c.initial(cur).None?
    ensures c.initial(Step(c, cur, o).0).None?
  {
    match Dispatch(c, cur, o)
    case Transition(t) => LeafHasNoInitial(c, t);
    case _ =>
  }

  /**
   * The state a step settles in lies below the requested target, reached by
   * the target's initial children.
   */
  lemma StepLandsBelowTarget<S(!new), O>(c: Chart<S, O>, cur: S, o: O)
    requires WellFormed(c) && Dispatch(c, cur, o).Transition?
    ensures Path(c, Step(c, cur, o).0) == Path(c, Dispatch(c, cur, o).target) + InitialChain(c, Dispatch(c, cur, o).target)
  {
    LeafPathExtends(c, Dispatch(c, cur, o).target);
  }

  /**
   * The runtime context of one machine: the current state and the object the
   * actions work on, updated in place by each step.
   */
  class Context<S(==, !new), O> {
    const chart: Chart<S, O>
    var current: S
    var obj: O

    constructor (c: Chart<S, O>, s: S, o: O)
      ensures chart == c && current == s && obj == o
    {
      chart := c;
      current := s;
      obj := o;
    }

    /** Runs `act` on each of `ss` in order, updating the object. */
    method ApplyAll(act: (S, O) -> O, ss: seq<S>)
      modifies this
      ensures obj == Apply(act, ss, old(obj)) && current == old(current)
    {
      var i := 0;
      while i < |ss|
        invariant 0 <= i <= |ss|
        invariant obj == Apply(act, ss[..i], old(obj)) && current == old(current)
      {
        assert ss[..i + 1][..i] == ss[..i];
        obj := act(ss[i], obj);
        i := i + 1;
      }
      assert ss[..|ss|] == ss;
    }

    /** `smf_set_initial`: enter the state's ancestors, the state and its initial children. */
    method SetInitial(s: S)
      requires WellFormed(chart)
      modifies this
      ensures (current, obj) == Start(chart, s, old(obj))
    {
      ApplyAll(chart.entry, Path(chart, s) + InitialChain(chart, s));
      current := Leaf(chart, s);
    }

    /** `smf_set_state` as called by a run action. */
    method SetState(tgt: S)
      requires WellFormed(chart)
      modifies this
      ensures (current, obj) == Transit(chart, old(current), tgt, old(obj))
    {
      var exits := Exits(chart, current, tgt);
      var entries := Entries(chart, current, tgt);
      ApplyAll(chart.exit, exits);
      ApplyAll(chart.entry, entries);
      current := Leaf(chart, tgt);
    }

    /** `smf_run_state`: run actions from the current state outward until one decides. */
    method RunState()
      requires WellFormed(chart)
      modifies this
      ensures (current, obj) == Step(chart, old(current), old(obj))
    {
      var s := current;
      var out := chart.run(s, obj);
      while out.Propagate? && chart.parent(s).Some?
        invariant out == chart.run(s, obj)
        invariant Dispatch(chart, current, obj) == Dispatch(chart, s, obj)
        decreases chart.depth(s)
      {
        s := chart.parent(s).value;
        out := chart.run(s, obj);
      }
      if out.Transition? {
        SetState(out.target);
      }
    }
  }
}
