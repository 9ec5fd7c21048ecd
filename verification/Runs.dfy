/** Transition systems with output, and what holds over all of their runs. */
module Runs {
  datatype Effect<+S, +O> = Effect(s: S, outputs: seq<O>)

  // A step is taken only when it is enabled.
  datatype System<!S(!new), !E(!new), !O(!new)> = System(enabled: (S, E) -> bool, step: (S, E) -> Effect<S, O>)

  predicate Possible<S(!new), E(!new), O(!new)>(m: System<S, E, O>, s: S, events: seq<E>)
    decreases events
  {
    events == [] || (m.enabled(s, events[0]) && Possible(m, m.step(s, events[0]).s, events[1..]))
  }

  // The last state of a run and all of its output.
  function After<S(!new), E(!new), O(!new)>(m: System<S, E, O>, s: S, events: seq<E>): Effect<S, O>
    decreases events
  {
    if events == [] then Effect(s, [])
    else
      var first := m.step(s, events[0]);
      var rest := After(m, first.s, events[1..]);
      Effect(rest.s, first.outputs + rest.outputs)
  }

  // Every step keeps the invariant.
  ghost predicate Keeps<S(!new), E(!new), O(!new)>(m: System<S, E, O>, inv: S -> bool) {
    forall s, e :: inv(s) && m.enabled(s, e) ==> inv(m.step(s, e).s)
  }

  lemma {:induction false} RunKeeps<S(!new), E(!new), O(!new)>(m: System<S, E, O>, inv: S -> bool, s: S, events: seq<E>)
    requires Keeps(m, inv) && inv(s) && Possible(m, s, events)
    ensures inv(After(m, s, events).s)
    decreases events
  {
    if events != [] { RunKeeps(m, inv, m.step(s, events[0]).s, events[1..]); }
  }

  // Two runs, one behind the other.
  lemma {:induction false} RunAppend<S(!new), E(!new), O(!new)>(m: System<S, E, O>, s: S, a: seq<E>, b: seq<E>)
    ensures Possible(m, s, a + b) <==> Possible(m, s, a) && Possible(m, After(m, s, a).s, b)
    ensures var first, rest := After(m, s, a), After(m, After(m, s, a).s, b);
      After(m, s, a + b) == Effect(rest.s, first.outputs + rest.outputs)
    decreases a
  {
    if a == [] {
      assert a + b == b;
      assert [] + After(m, s, b).outputs == After(m, s, b).outputs;
    } else {
      assert (a + b)[1..] == a[1..] + b;
      RunAppend(m, m.step(s, a[0]).s, a[1..], b);
      var first, more, rest := m.step(s, a[0]), After(m, m.step(s, a[0]).s, a[1..]), After(m, After(m, s, a).s, b);
      assert first.outputs + (more.outputs + rest.outputs) == (first.outputs + more.outputs) + rest.outputs;
    }
  }

  // A step, and a run behind it.
  lemma StepFirst<S(!new), E(!new), O(!new)>(m: System<S, E, O>, s: S, e: E, events: seq<E>)
    requires m.enabled(s, e) && Possible(m, m.step(s, e).s, events)
    ensures Possible(m, s, [e] + events)
    ensures var first, rest := m.step(s, e), After(m, m.step(s, e).s, events);
      After(m, s, [e] + events) == Effect(rest.s, first.outputs + rest.outputs)
  {
    assert ([e] + events)[1..] == events;
  }

  // A run, and a step behind it.
  lemma StepLast<S(!new), E(!new), O(!new)>(m: System<S, E, O>, s: S, events: seq<E>, e: E)
    requires Possible(m, s, events) && m.enabled(After(m, s, events).s, e)
    ensures Possible(m, s, events + [e])
    ensures var first, last := After(m, s, events), m.step(After(m, s, events).s, e);
      After(m, s, events + [e]) == Effect(last.s, first.outputs + last.outputs)
  {
    RunAppend(m, s, events, [e]);
    StepFirst(m, After(m, s, events).s, e, []);
    assert [e] + [] == [e];
    assert m.step(After(m, s, events).s, e).outputs + [] == m.step(After(m, s, events).s, e).outputs;
  }

  // What the steps of a system do to a thing that can be gone:
  // `gone` things stay gone and are silent, a closing output makes the thing gone and is the
  // last of its step, and once a state does not count, no later state does.
  ghost predicate Closable<S(!new), E(!new), O(!new)>(m: System<S, E, O>, inv: S -> bool, about: O -> bool, closes: O -> bool,
                                                      gone: S -> bool, counts: S -> bool)
  {
    && Keeps(m, inv)
    && (forall s, e :: inv(s) && m.enabled(s, e) && !counts(s) ==> !counts(m.step(s, e).s))
    && (forall s, e :: inv(s) && m.enabled(s, e) && gone(s) ==> GoneStep(m, about, gone, s, e))
    && (forall s, e, i | inv(s) && m.enabled(s, e) && counts(s) && 0 <= i < |m.step(s, e).outputs| ::
          about(m.step(s, e).outputs[i]) && closes(m.step(s, e).outputs[i]) ==> CloseStep(m, about, gone, s, e, i))
  }

  ghost predicate GoneStep<S(!new), E(!new), O(!new)>(m: System<S, E, O>, about: O -> bool, gone: S -> bool, s: S, e: E) {
    gone(m.step(s, e).s) && forall j :: 0 <= j < |m.step(s, e).outputs| ==> !about(m.step(s, e).outputs[j])
  }

  ghost predicate CloseStep<S(!new), E(!new), O(!new)>(m: System<S, E, O>, about: O -> bool, gone: S -> bool, s: S, e: E, i: nat) {
    gone(m.step(s, e).s) && forall j :: i < j < |m.step(s, e).outputs| ==> !about(m.step(s, e).outputs[j])
  }

  lemma {:induction false} GoneIsSilent<S(!new), E(!new), O(!new)>(m: System<S, E, O>, inv: S -> bool, about: O -> bool, closes: O -> bool,
                                               gone: S -> bool, counts: S -> bool, s: S, events: seq<E>, j: nat)
    requires Closable(m, inv, about, closes, gone, counts)
    requires inv(s) && gone(s) && Possible(m, s, events) && j < |After(m, s, events).outputs|
    ensures !about(After(m, s, events).outputs[j])
    decreases events
  {
    var e, n := events[0], |m.step(s, events[0]).outputs|;
    assert GoneStep(m, about, gone, s, e);
    if j >= n { GoneIsSilent(m, inv, about, closes, gone, counts, m.step(s, e).s, events[1..], j - n); }
  }

  lemma {:induction false} CountedBefore<S(!new), E(!new), O(!new)>(m: System<S, E, O>, inv: S -> bool, counts: S -> bool, s: S, events: seq<E>)
    requires Keeps(m, inv) && inv(s) && Possible(m, s, events) && counts(After(m, s, events).s)
    requires forall s, e :: inv(s) && m.enabled(s, e) && !counts(s) ==> !counts(m.step(s, e).s)
    ensures counts(s)
    decreases events
  {
    if events != [] { CountedBefore(m, inv, counts, m.step(s, events[0]).s, events[1..]); }
  }

  // Nothing comes behind a closing output.
  lemma {:induction false} ClosingIsFinal<S(!new), E(!new), O(!new)>(m: System<S, E, O>, inv: S -> bool, about: O -> bool, closes: O -> bool,
                                                 gone: S -> bool, counts: S -> bool, s: S, events: seq<E>, i: nat, j: nat)
    requires Closable(m, inv, about, closes, gone, counts)
    requires inv(s) && Possible(m, s, events) && counts(After(m, s, events).s) && i < j < |After(m, s, events).outputs|
    requires about(After(m, s, events).outputs[i]) && closes(After(m, s, events).outputs[i])
    ensures !about(After(m, s, events).outputs[j])
    decreases events
  {
    var e, now, t, rest := events[0], m.step(s, events[0]).outputs, m.step(s, events[0]).s, events[1..];
    CountedBefore(m, inv, counts, s, events);
    if i >= |now| {
      ClosingIsFinal(m, inv, about, closes, gone, counts, t, rest, i - |now|, j - |now|);
    } else {
      assert about(now[i]) && closes(now[i]);
      assert CloseStep(m, about, gone, s, e, i);
      if j >= |now| { GoneIsSilent(m, inv, about, closes, gone, counts, t, rest, j - |now|); }
    }
  }

  // ---------------------------------------------------------------- totals

  // What f finds in the output, in order.
  function Gathered<O(!new), X>(f: O -> seq<X>, outputs: seq<O>): seq<X> {
    if outputs == [] then [] else f(outputs[0]) + Gathered(f, outputs[1..])
  }

  lemma {:induction false} GatheredAppend<O(!new), X>(f: O -> seq<X>, a: seq<O>, b: seq<O>)
    ensures Gathered(f, a + b) == Gathered(f, a) + Gathered(f, b)
  {
    if a == [] {
      assert a + b == b;
    } else {
      GatheredAppend(f, a[1..], b);
      assert (a + b)[1..] == a[1..] + b;
    }
  }

  // What is found once, or twice, is found at one, or two, positions.
  lemma {:induction false} FoundTwice<O(!new), X>(f: O -> seq<X>, outputs: seq<O>) returns (i: nat, j: nat)
    requires forall o :: |f(o)| <= 1
    requires |Gathered(f, outputs)| == 2
    ensures i < j < |outputs| && f(outputs[i]) != [] && f(outputs[j]) != []
  {
    if f(outputs[0]) == [] {
      i, j := FoundTwice(f, outputs[1..]);
      i, j := i + 1, j + 1;
    } else {
      j := FoundOnce(f, outputs[1..]);
      i, j := 0, j + 1;
    }
  }

  lemma {:induction false} FoundOnce<O(!new), X>(f: O -> seq<X>, outputs: seq<O>) returns (i: nat)
    requires Gathered(f, outputs) != []
    ensures i < |outputs| && f(outputs[i]) != []
  {
    if f(outputs[0]) == [] {
      i := FoundOnce(f, outputs[1..]);
      i := i + 1;
    } else {
      i := 0;
    }
  }

  lemma {:induction false} NothingFound<O(!new), X>(f: O -> seq<X>, outputs: seq<O>)
    requires forall i :: 0 <= i < |outputs| ==> f(outputs[i]) == []
    ensures Gathered(f, outputs) == []
  {
    if outputs != [] { NothingFound(f, outputs[1..]); }
  }

  // What `take` finds in the steps of a run, in order.
  function Taken<S(!new), E(!new), O(!new), X>(m: System<S, E, O>, take: (S, E) -> seq<X>, s: S, events: seq<E>): seq<X>
    decreases events
  {
    if events == [] then [] else take(s, events[0]) + Taken(m, take, m.step(s, events[0]).s, events[1..])
  }

  // The state before step k of a run.
  function Before<S(!new), E(!new), O(!new)>(m: System<S, E, O>, s: S, events: seq<E>, k: nat): S
    requires k <= |events|
  {
    After(m, s, events[..k]).s
  }

  lemma EnabledBefore<S(!new), E(!new), O(!new)>(m: System<S, E, O>, s: S, events: seq<E>, k: nat)
    requires Possible(m, s, events) && k < |events|
    ensures m.enabled(Before(m, s, events, k), events[k])
  {
    assert events == events[..k] + events[k..];
    RunAppend(m, s, events[..k], events[k..]);
  }

  // The step that made output i of a run.
  function StepOf<S(!new), E(!new), O(!new)>(m: System<S, E, O>, s: S, events: seq<E>, i: nat): nat
    decreases events
  {
    if events == [] || i < |m.step(s, events[0]).outputs| then 0
    else 1 + StepOf(m, m.step(s, events[0]).s, events[1..], i - |m.step(s, events[0]).outputs|)
  }

  lemma BeforeLater<S(!new), E(!new), O(!new)>(m: System<S, E, O>, s: S, events: seq<E>, k: nat)
    requires events != [] && k < |events|
    ensures Before(m, s, events, k + 1) == Before(m, m.step(s, events[0]).s, events[1..], k)
  {
    assert events[..k + 1][0] == events[0] && events[..k + 1][1..] == events[1..][..k];
  }

  lemma {:induction false} StepMakes<S(!new), E(!new), O(!new)>(m: System<S, E, O>, s: S, events: seq<E>, i: nat) returns (k: nat)
    requires i < |After(m, s, events).outputs|
    ensures var a := StepOf(m, s, events, i);
      a < |events| && k < |m.step(Before(m, s, events, a), events[a]).outputs|
      && m.step(Before(m, s, events, a), events[a]).outputs[k] == After(m, s, events).outputs[i]
    decreases events
  {
    var now, t := m.step(s, events[0]).outputs, m.step(s, events[0]).s;
    if i < |now| {
      k := i;
      assert events[..0] == [];
    } else {
      k := StepMakes(m, t, events[1..], i - |now|);
      BeforeLater(m, s, events, StepOf(m, t, events[1..], i - |now|));
    }
  }

  lemma {:induction false} StepsInOrder<S(!new), E(!new), O(!new)>(m: System<S, E, O>, s: S, events: seq<E>, i: nat, j: nat)
    requires i <= j < |After(m, s, events).outputs|
    ensures StepOf(m, s, events, i) <= StepOf(m, s, events, j)
    decreases events
  {
    var now, t := m.step(s, events[0]).outputs, m.step(s, events[0]).s;
    if i >= |now| { StepsInOrder(m, t, events[1..], i - |now|, j - |now|); }
  }

  // What holds in the end and not at first begins to hold at some step.
  lemma {:induction false} BeginsToHold<S(!new), E(!new), O(!new)>(m: System<S, E, O>, p: S -> bool, s: S, events: seq<E>) returns (a: nat)
    requires !p(s) && p(After(m, s, events).s)
    ensures a < |events| && !p(Before(m, s, events, a)) && p(m.step(Before(m, s, events, a), events[a]).s)
    decreases events
  {
    var t := m.step(s, events[0]).s;
    if p(t) {
      a := 0;
      assert events[..0] == [];
    } else {
      a := BeginsToHold(m, p, t, events[1..]);
      BeforeLater(m, s, events, a);
      a := a + 1;
    }
  }

  // Every output of every step is among the outputs of the run.
  lemma {:induction false} MadeByStep<S(!new), E(!new), O(!new)>(m: System<S, E, O>, s: S, events: seq<E>, a: nat, k: nat) returns (i: nat)
    requires a < |events| && k < |m.step(Before(m, s, events, a), events[a]).outputs|
    ensures i < |After(m, s, events).outputs| && StepOf(m, s, events, i) == a
    ensures After(m, s, events).outputs[i] == m.step(Before(m, s, events, a), events[a]).outputs[k]
    decreases events
  {
    var now, t := m.step(s, events[0]).outputs, m.step(s, events[0]).s;
    if a == 0 {
      assert events[..0] == [];
      i := k;
    } else {
      BeforeLater(m, s, events, a - 1);
      i := MadeByStep(m, t, events[1..], a - 1, k);
      i := i + |now|;
    }
  }

  // The invariant holds before every step.
  lemma KeptBefore<S(!new), E(!new), O(!new)>(m: System<S, E, O>, inv: S -> bool, s: S, events: seq<E>, k: nat)
    requires Keeps(m, inv) && inv(s) && Possible(m, s, events) && k < |events|
    ensures inv(Before(m, s, events, k)) && m.enabled(Before(m, s, events, k), events[k])
  {
    EnabledBefore(m, s, events, k);
    assert events == events[..k] + events[k..];
    RunAppend(m, s, events[..k], events[k..]);
    RunKeeps(m, inv, s, events[..k]);
  }

  lemma BeforeNext<S(!new), E(!new), O(!new)>(m: System<S, E, O>, s: S, events: seq<E>, a: nat)
    requires Possible(m, s, events) && a < |events|
    ensures Before(m, s, events, a + 1) == m.step(Before(m, s, events, a), events[a]).s
  {
    EnabledBefore(m, s, events, a);
    assert events == events[..a] + events[a..] && events[..a + 1] == events[..a] + [events[a]];
    RunAppend(m, s, events[..a], events[a..]);
    StepLast(m, s, events[..a], events[a]);
  }

  // What every step keeps and some state has is there in the end.
  lemma KeptToEnd<S(!new), E(!new), O(!new)>(m: System<S, E, O>, inv: S -> bool, s: S, events: seq<E>, a: nat)
    requires Keeps(m, inv) && Possible(m, s, events) && a <= |events| && inv(Before(m, s, events, a))
    ensures inv(After(m, s, events).s)
  {
    assert events == events[..a] + events[a..];
    RunAppend(m, s, events[..a], events[a..]);
    RunKeeps(m, inv, Before(m, s, events, a), events[a..]);
  }

  // What counts in the end has counted before every step.
  lemma CountedAt<S(!new), E(!new), O(!new)>(m: System<S, E, O>, inv: S -> bool, counts: S -> bool, s: S, events: seq<E>, a: nat)
    requires Keeps(m, inv) && inv(s) && Possible(m, s, events) && counts(After(m, s, events).s) && a < |events|
    requires forall s, e :: inv(s) && m.enabled(s, e) && !counts(s) ==> !counts(m.step(s, e).s)
    ensures counts(Before(m, s, events, a))
  {
    KeptBefore(m, inv, s, events, a);
    assert events == events[..a] + events[a..];
    RunAppend(m, s, events[..a], events[a..]);
    CountedBefore(m, inv, counts, Before(m, s, events, a), events[a..]);
  }

  // What every step keeps and step a establishes holds before every later step.
  lemma KeptFrom<S(!new), E(!new), O(!new)>(m: System<S, E, O>, inv: S -> bool, s: S, events: seq<E>, a: nat, b: nat)
    requires Keeps(m, inv) && Possible(m, s, events) && a < b < |events|
    requires inv(m.step(Before(m, s, events, a), events[a]).s)
    ensures inv(Before(m, s, events, b))
  {
    var start, middle, rest := events[..a], events[a + 1..b], events[b..];
    assert events == start + ([events[a]] + (middle + rest)) && events[..b] == start + ([events[a]] + middle);
    assert ([events[a]] + (middle + rest))[1..] == middle + rest && ([events[a]] + middle)[1..] == middle;
    var t := After(m, s, start).s;
    RunAppend(m, s, start, [events[a]] + (middle + rest));
    RunAppend(m, s, start, [events[a]] + middle);
    RunAppend(m, m.step(t, events[a]).s, middle, rest);
    RunKeeps(m, inv, m.step(t, events[a]).s, middle);
  }

  // Step k is one in which x is taken.
  ghost predicate TakenAt<S(!new), E(!new), O(!new), X(!new)>(m: System<S, E, O>, take: (S, E) -> seq<X>, s: S, events: seq<E>, x: X, k: nat) {
    k < |events| && take(Before(m, s, events, k), events[k]) == [x]
  }

  lemma TakenLater<S(!new), E(!new), O(!new), X(!new)>(m: System<S, E, O>, take: (S, E) -> seq<X>, s: S, events: seq<E>, x: X, k: nat)
    requires events != []
    ensures TakenAt(m, take, s, events, x, k + 1) <==> TakenAt(m, take, m.step(s, events[0]).s, events[1..], x, k)
  {
    if k + 1 < |events| {
      assert events[..k + 1][0] == events[0] && events[..k + 1][1..] == events[1..][..k];
    }
  }

  lemma {:induction false} TakenSomewhere<S(!new), E(!new), O(!new), X(!new)>(m: System<S, E, O>, take: (S, E) -> seq<X>, s: S, events: seq<E>, x: X)
    requires forall s, e :: |take(s, e)| <= 1
    ensures x in Taken(m, take, s, events) <==> exists k: nat :: TakenAt(m, take, s, events, x, k)
    decreases events
  {
    if events != [] {
      var t, rest := m.step(s, events[0]).s, events[1..];
      TakenSomewhere(m, take, t, rest, x);
      if k: nat :| TakenAt(m, take, s, events, x, k) {
        if k > 0 { TakenLater(m, take, s, events, x, k - 1); }
      }
      if x in take(s, events[0]) { assert TakenAt(m, take, s, events, x, 0); }
      if k: nat :| TakenAt(m, take, t, rest, x, k) { TakenLater(m, take, s, events, x, k); }
    }
  }

  // x is taken, and y in a later step.
  ghost predicate TakenThen<S(!new), E(!new), O(!new), X(!new)>(m: System<S, E, O>, take: (S, E) -> seq<X>, s: S, events: seq<E>, x: X, y: X) {
    exists a: nat, b: nat :: a < b && TakenAt(m, take, s, events, x, a) && TakenAt(m, take, s, events, y, b)
  }

  lemma InTurn<X>(first: seq<X>, more: seq<X>, x: X, y: X)
    requires |first| <= 1 && first + more in [[], [x], [y], [x, y]] && x != y
    ensures more in [[], [x], [y], [x, y]]
    ensures if first == [] then first + more == more else (first + more == [x, y] <==> first == [x] && more == [y])
    ensures first != [] ==> x !in more && (y in more ==> first == [x])
  {
    if first == [] {
      assert first + more == more;
    } else {
      assert first == [first[0]] && (first + more)[0] == first[0] && (first + more)[1..] == more;
    }
  }

  // For things that are taken once at most, and in this order.
  lemma {:induction false} TakenInTurn<S(!new), E(!new), O(!new), X(!new)>(m: System<S, E, O>, take: (S, E) -> seq<X>, s: S, events: seq<E>, x: X, y: X)
    requires (forall s, e :: |take(s, e)| <= 1) && x != y
    requires Taken(m, take, s, events) in [[], [x], [y], [x, y]]
    ensures Taken(m, take, s, events) == [x, y] <==> TakenThen(m, take, s, events, x, y)
    decreases events
  {
    if events == [] { return; }
    var t, rest, first := m.step(s, events[0]).s, events[1..], take(s, events[0]);
    var more := Taken(m, take, t, rest);
    assert Taken(m, take, s, events) == first + more;
    InTurn(first, more, x, y);
    TakenInTurn(m, take, t, rest, x, y);
    TakenSomewhere(m, take, t, rest, y);
    if first + more == [x, y] {
      if first == [] {
        var a: nat, b: nat :| a < b && TakenAt(m, take, t, rest, x, a) && TakenAt(m, take, t, rest, y, b);
        TakenLater(m, take, s, events, x, a);
        TakenLater(m, take, s, events, y, b);
        assert a + 1 < b + 1 && TakenAt(m, take, s, events, x, a + 1) && TakenAt(m, take, s, events, y, b + 1);
      } else {
        var b: nat :| TakenAt(m, take, t, rest, y, b);
        TakenLater(m, take, s, events, y, b);
        assert TakenAt(m, take, s, events, x, 0) && TakenAt(m, take, s, events, y, b + 1);
      }
    }
    if a: nat, b: nat :| a < b && TakenAt(m, take, s, events, x, a) && TakenAt(m, take, s, events, y, b) {
      TakenLater(m, take, s, events, y, b - 1);
      assert y in more;
      if a > 0 {
        TakenLater(m, take, s, events, x, a - 1);
        assert TakenThen(m, take, t, rest, x, y);
      }
    }
  }

  // A closing output is the last of its step, has a cause, and leaves the thing quiet: it stays
  // quiet, and speaks again only in steps that have a cause.
  ghost predicate Quietening<S(!new), E(!new), O(!new), X(!new)>(m: System<S, E, O>, inv: S -> bool, about: O -> bool, closes: O -> bool,
                                                           quiet: S -> bool, counts: S -> bool, take: (S, E) -> seq<X>)
  {
    && Keeps(m, inv)
    && (forall s, e :: inv(s) && m.enabled(s, e) && !counts(s) ==> !counts(m.step(s, e).s))
    && (forall s, e :: inv(s) && m.enabled(s, e) && quiet(s) ==> QuietStep(m, about, quiet, take, s, e))
    && (forall s, e, i | inv(s) && m.enabled(s, e) && counts(s) && 0 <= i < |m.step(s, e).outputs| ::
          closes(m.step(s, e).outputs[i]) ==> i == |m.step(s, e).outputs| - 1 && take(s, e) != [] && quiet(m.step(s, e).s))
  }

  ghost predicate QuietStep<S(!new), E(!new), O(!new), X(!new)>(m: System<S, E, O>, about: O -> bool, quiet: S -> bool, take: (S, E) -> seq<X>, s: S, e: E) {
    quiet(m.step(s, e).s) && forall j :: 0 <= j < |m.step(s, e).outputs| && about(m.step(s, e).outputs[j]) ==> take(s, e) != []
  }

  lemma {:induction false} QuietNeedsCause<S(!new), E(!new), O(!new), X(!new)>(m: System<S, E, O>, inv: S -> bool, about: O -> bool, closes: O -> bool,
                                                  quiet: S -> bool, counts: S -> bool, take: (S, E) -> seq<X>, s: S, events: seq<E>, j: nat)
    requires Quietening(m, inv, about, closes, quiet, counts, take)
    requires inv(s) && quiet(s) && Possible(m, s, events) && j < |After(m, s, events).outputs| && about(After(m, s, events).outputs[j])
    ensures Taken(m, take, s, events) != []
    decreases events
  {
    var e, now := events[0], m.step(s, events[0]).outputs;
    assert QuietStep(m, about, quiet, take, s, e);
    if j < |now| {
      assert about(now[j]);
    } else {
      QuietNeedsCause(m, inv, about, closes, quiet, counts, take, m.step(s, e).s, events[1..], j - |now|);
    }
  }

  lemma {:induction false} FollowingNeedsCause<S(!new), E(!new), O(!new), X(!new)>(m: System<S, E, O>, inv: S -> bool, about: O -> bool, closes: O -> bool,
                                                      quiet: S -> bool, counts: S -> bool, take: (S, E) -> seq<X>, s: S, events: seq<E>, i: nat, j: nat)
    requires Quietening(m, inv, about, closes, quiet, counts, take)
    requires inv(s) && Possible(m, s, events) && counts(After(m, s, events).s) && i < j < |After(m, s, events).outputs|
    requires closes(After(m, s, events).outputs[i]) && about(After(m, s, events).outputs[j])
    ensures |Taken(m, take, s, events)| >= 2
    decreases events
  {
    var e, now, t, rest := events[0], m.step(s, events[0]).outputs, m.step(s, events[0]).s, events[1..];
    CountedBefore(m, inv, counts, s, events);
    if i >= |now| {
      FollowingNeedsCause(m, inv, about, closes, quiet, counts, take, t, rest, i - |now|, j - |now|);
    } else {
      assert closes(now[i]);
      QuietNeedsCause(m, inv, about, closes, quiet, counts, take, t, rest, j - |now|);
    }
  }

  // What holds of input and output of every step holds of whole runs.
  lemma {:induction false} TotalsAgree<S(!new), E(!new), O(!new), X>(m: System<S, E, O>, inv: S -> bool, take: (S, E) -> seq<X>, f: O -> seq<X>,
                                              s: S, events: seq<E>)
    requires Keeps(m, inv) && inv(s) && Possible(m, s, events)
    requires forall s, e :: inv(s) && m.enabled(s, e) ==> Gathered(f, m.step(s, e).outputs) == take(s, e)
    ensures Gathered(f, After(m, s, events).outputs) == Taken(m, take, s, events)
    decreases events
  {
    if events != [] {
      var first := m.step(s, events[0]);
      TotalsAgree(m, inv, take, f, first.s, events[1..]);
      GatheredAppend(f, first.outputs, After(m, first.s, events[1..]).outputs);
    }
  }

  function Range(low: nat, high: nat): seq<nat>
    decreases high - low
  {
    if low >= high then [] else [low] + Range(low + 1, high)
  }

  // Numbers that are given out by a counter come out in order, without gaps.
  lemma {:induction false} CountedUp<S(!new), E(!new), O(!new)>(m: System<S, E, O>, inv: S -> bool, count: S -> nat, f: O -> seq<nat>,
                                            s: S, events: seq<E>)
    requires Keeps(m, inv) && inv(s) && Possible(m, s, events)
    requires forall s, e :: inv(s) && m.enabled(s, e) ==> CountStep(m, count, f, s, e)
    ensures count(s) <= count(After(m, s, events).s)
    ensures Gathered(f, After(m, s, events).outputs) == Range(count(s), count(After(m, s, events).s))
    decreases events
  {
    if events != [] {
      var first := m.step(s, events[0]);
      assert CountStep(m, count, f, s, events[0]);
      CountedUp(m, inv, count, f, first.s, events[1..]);
      GatheredAppend(f, first.outputs, After(m, first.s, events[1..]).outputs);
    }
  }

  ghost predicate CountStep<S(!new), E(!new), O(!new)>(m: System<S, E, O>, count: S -> nat, f: O -> seq<nat>, s: S, e: E) {
    var t := m.step(s, e);
    if count(t.s) == count(s) then Gathered(f, t.outputs) == [] else count(t.s) == count(s) + 1 && Gathered(f, t.outputs) == [count(s)]
  }

  // A step takes the next part of a list and moves a position behind it.
  ghost predicate Advances<S(!new), E(!new), O(!new), X>(m: System<S, E, O>, take: (S, E) -> seq<X>, position: S -> nat, list: seq<X>, s: S, e: E) {
    position(s) <= position(m.step(s, e).s) <= |list| && take(s, e) == list[position(s)..position(m.step(s, e).s)]
  }

  // Then a run takes the list part by part, without gaps or repetitions.
  lemma {:induction false} TakenInOrder<S(!new), E(!new), O(!new), X>(m: System<S, E, O>, inv: S -> bool, take: (S, E) -> seq<X>, position: S -> nat,
                                               list: seq<X>, s: S, events: seq<E>)
    requires Keeps(m, inv) && inv(s) && Possible(m, s, events) && position(s) <= |list|
    requires forall s, e :: inv(s) && m.enabled(s, e) ==> Advances(m, take, position, list, s, e)
    ensures inv(After(m, s, events).s)
    ensures position(s) <= position(After(m, s, events).s) <= |list|
    ensures Taken(m, take, s, events) == list[position(s)..position(After(m, s, events).s)]
    decreases events
  {
    if events != [] {
      assert Advances(m, take, position, list, s, events[0]);
      TakenInOrder(m, inv, take, position, list, m.step(s, events[0]).s, events[1..]);
    }
  }

  lemma {:induction false} GatheredSame<O(!new), X>(f: O -> seq<X>, g: O -> seq<X>, outputs: seq<O>)
    requires forall i :: 0 <= i < |outputs| ==> f(outputs[i]) == g(outputs[i])
    ensures Gathered(f, outputs) == Gathered(g, outputs)
  {
    if outputs != [] { GatheredSame(f, g, outputs[1..]); }
  }

  // ------------------------------------------------------------ who speaks

  // What every step establishes of its output, and no step destroys, holds of all output.
  lemma {:induction false} OutputsMatch<S(!new), E(!new), O(!new)>(m: System<S, E, O>, inv: S -> bool, matches: (S, O) -> bool,
                                               s: S, events: seq<E>, i: nat)
    requires Keeps(m, inv) && inv(s) && Possible(m, s, events) && i < |After(m, s, events).outputs|
    requires forall s, e, k :: inv(s) && m.enabled(s, e) && 0 <= k < |m.step(s, e).outputs| ==> matches(m.step(s, e).s, m.step(s, e).outputs[k])
    requires forall s, e, o :: inv(s) && m.enabled(s, e) && matches(s, o) ==> matches(m.step(s, e).s, o)
    ensures matches(After(m, s, events).s, After(m, s, events).outputs[i])
    decreases events
  {
    var e, now, t, rest := events[0], m.step(s, events[0]).outputs, m.step(s, events[0]).s, events[1..];
    if i < |now| {
      assert matches(t, now[i]);
      MatchStays(m, inv, matches, t, rest, now[i]);
    } else {
      OutputsMatch(m, inv, matches, t, rest, i - |now|);
    }
  }

  lemma {:induction false} MatchStays<S(!new), E(!new), O(!new)>(m: System<S, E, O>, inv: S -> bool, matches: (S, O) -> bool,
                                             s: S, events: seq<E>, o: O)
    requires Keeps(m, inv) && inv(s) && Possible(m, s, events) && matches(s, o)
    requires forall s, e, o :: inv(s) && m.enabled(s, e) && matches(s, o) ==> matches(m.step(s, e).s, o)
    ensures matches(After(m, s, events).s, o)
    decreases events
  {
    if events != [] { MatchStays(m, inv, matches, m.step(s, events[0]).s, events[1..], o); }
  }

  // A number is held by those it was given to, and only holders use it.
  ghost predicate HeldByTakers<S(!new), E(!new), O(!new)>(m: System<S, E, O>, inv: S -> bool, holds: (S, nat) -> bool, gives: E -> bool,
                                                    taker: (S, E) -> nat, uses: (O, nat) -> bool)
  {
    && Keeps(m, inv)
    && (forall s, e, r: nat :: inv(s) && m.enabled(s, e) && holds(m.step(s, e).s, r) ==> holds(s, r) || (gives(e) && r == taker(s, e)))
    && (forall s, e, r: nat, k | inv(s) && m.enabled(s, e) && 0 <= k < |m.step(s, e).outputs| ::
          uses(m.step(s, e).outputs[k], r) ==> holds(m.step(s, e).s, r))
  }

  function Givings<E(!new)>(gives: E -> bool, events: seq<E>): nat {
    if events == [] then 0 else (if gives(events[0]) then 1 else 0) + Givings(gives, events[1..])
  }

  lemma {:induction false} UsersHeld<S(!new), E(!new), O(!new)>(m: System<S, E, O>, inv: S -> bool, holds: (S, nat) -> bool, gives: E -> bool,
                                            taker: (S, E) -> nat, uses: (O, nat) -> bool, s: S, events: seq<E>, i: nat, r: nat)
    requires HeldByTakers(m, inv, holds, gives, taker, uses)
    requires inv(s) && Possible(m, s, events) && Givings(gives, events) == 0
    requires i < |After(m, s, events).outputs| && uses(After(m, s, events).outputs[i], r)
    ensures holds(s, r)
    decreases events
  {
    var now, t := m.step(s, events[0]).outputs, m.step(s, events[0]).s;
    if i < |now| {
      assert uses(now[i], r);
    } else {
      UsersHeld(m, inv, holds, gives, taker, uses, t, events[1..], i - |now|, r);
    }
  }

  lemma NobodyUses<S(!new), E(!new), O(!new)>(m: System<S, E, O>, inv: S -> bool, holds: (S, nat) -> bool, gives: E -> bool,
                             taker: (S, E) -> nat, uses: (O, nat) -> bool, s: S, e: E)
    requires HeldByTakers(m, inv, holds, gives, taker, uses)
    requires inv(s) && m.enabled(s, e) && !gives(e) && forall r: nat :: !holds(s, r)
    ensures forall k, r: nat :: 0 <= k < |m.step(s, e).outputs| ==> !uses(m.step(s, e).outputs[k], r)
    ensures forall r: nat :: !holds(m.step(s, e).s, r)
  {}

  // A number that is given once is used by one holder.
  lemma {:induction false} OneUser<S(!new), E(!new), O(!new)>(m: System<S, E, O>, inv: S -> bool, holds: (S, nat) -> bool, gives: E -> bool,
                                          taker: (S, E) -> nat, uses: (O, nat) -> bool, s: S, events: seq<E>, i: nat, a: nat, j: nat, b: nat)
    requires HeldByTakers(m, inv, holds, gives, taker, uses)
    requires inv(s) && Possible(m, s, events) && Givings(gives, events) <= 1 && forall r: nat :: !holds(s, r)
    requires i < |After(m, s, events).outputs| && uses(After(m, s, events).outputs[i], a)
    requires j < |After(m, s, events).outputs| && uses(After(m, s, events).outputs[j], b)
    ensures a == b
    decreases events
  {
    var now, t, rest := m.step(s, events[0]).outputs, m.step(s, events[0]).s, events[1..];
    if gives(events[0]) {
      if i >= |now| { UsersHeld(m, inv, holds, gives, taker, uses, t, rest, i - |now|, a); } else { assert uses(now[i], a); }
      if j >= |now| { UsersHeld(m, inv, holds, gives, taker, uses, t, rest, j - |now|, b); } else { assert uses(now[j], b); }
    } else {
      NobodyUses(m, inv, holds, gives, taker, uses, s, events[0]);
      OneUser(m, inv, holds, gives, taker, uses, t, rest, i - |now|, a, j - |now|, b);
    }
  }

  lemma {:induction false} StillHeld<S(!new), E(!new), O(!new)>(m: System<S, E, O>, inv: S -> bool, holds: (S, nat) -> bool, gives: E -> bool,
                                            taker: (S, E) -> nat, uses: (O, nat) -> bool, s: S, events: seq<E>, r: nat)
    requires HeldByTakers(m, inv, holds, gives, taker, uses)
    requires inv(s) && Possible(m, s, events) && Givings(gives, events) == 0 && holds(After(m, s, events).s, r)
    ensures holds(s, r)
    decreases events
  {
    if events != [] { StillHeld(m, inv, holds, gives, taker, uses, m.step(s, events[0]).s, events[1..], r); }
  }

  // And that is the one that holds it in the end, if any does.
  lemma {:induction false} UserHolds<S(!new), E(!new), O(!new)>(m: System<S, E, O>, inv: S -> bool, holds: (S, nat) -> bool, gives: E -> bool,
                                            taker: (S, E) -> nat, uses: (O, nat) -> bool, s: S, events: seq<E>, i: nat, a: nat, r: nat)
    requires HeldByTakers(m, inv, holds, gives, taker, uses)
    requires inv(s) && Possible(m, s, events) && Givings(gives, events) <= 1 && forall r: nat :: !holds(s, r)
    requires i < |After(m, s, events).outputs| && uses(After(m, s, events).outputs[i], a)
    requires holds(After(m, s, events).s, r)
    ensures a == r
    decreases events
  {
    var now, t, rest := m.step(s, events[0]).outputs, m.step(s, events[0]).s, events[1..];
    if gives(events[0]) {
      if i >= |now| { UsersHeld(m, inv, holds, gives, taker, uses, t, rest, i - |now|, a); } else { assert uses(now[i], a); }
      StillHeld(m, inv, holds, gives, taker, uses, t, rest, r);
    } else {
      NobodyUses(m, inv, holds, gives, taker, uses, s, events[0]);
      UserHolds(m, inv, holds, gives, taker, uses, t, rest, i - |now|, a, r);
    }
  }

  // -------------------------------------------------------------- what is written

  // A step writes at most one entry into the log, and exactly the one that is called for.
  ghost predicate Logs<S(!new), E(!new), O(!new), X(!new)>(m: System<S, E, O>, log: S -> seq<X>, calls: (S, E, X) -> bool) {
    forall s, e, x :: m.enabled(s, e) ==> LogsStep(m, log, calls, s, e, x)
  }

  ghost predicate LogsStep<S(!new), E(!new), O(!new), X(!new)>(m: System<S, E, O>, log: S -> seq<X>, calls: (S, E, X) -> bool, s: S, e: E, x: X) {
    && log(s) <= log(m.step(s, e).s) && |log(m.step(s, e).s)| <= |log(s)| + 1
    && (log(m.step(s, e).s) == log(s) + [x] <==> calls(s, e, x))
  }

  lemma {:induction false} LogStays<S(!new), E(!new), O(!new), X(!new)>(m: System<S, E, O>, log: S -> seq<X>, calls: (S, E, X) -> bool,
                                                        s: S, events: seq<E>, x: X)
    requires Logs(m, log, calls) && Possible(m, s, events)
    ensures log(s) <= log(After(m, s, events).s)
    decreases events
  {
    if events != [] {
      assert LogsStep(m, log, calls, s, events[0], x);
      LogStays(m, log, calls, m.step(s, events[0]).s, events[1..], x);
    }
  }

  // Step a is the one behind i entries, and calls for x.
  ghost predicate CalledAt<S(!new), E(!new), O(!new), X(!new)>(m: System<S, E, O>, log: S -> seq<X>, calls: (S, E, X) -> bool,
                                               s: S, events: seq<E>, a: nat, i: nat, x: X)
    requires a < |events|
  {
    |log(Before(m, s, events, a))| == i && calls(Before(m, s, events, a), events[a], x)
  }

  lemma BeforeRest<S(!new), E(!new), O(!new)>(m: System<S, E, O>, s: S, events: seq<E>, a: nat)
    requires events != [] && a <= |events[1..]|
    ensures Before(m, m.step(s, events[0]).s, events[1..], a) == Before(m, s, events, a + 1)
  {
    assert events[..a + 1][1..] == events[1..][..a];
  }

  // What is called for is there in the end ...
  lemma {:induction false} CalledIsLogged<S(!new), E(!new), O(!new), X(!new)>(m: System<S, E, O>, log: S -> seq<X>, calls: (S, E, X) -> bool,
                                                              s: S, events: seq<E>, a: nat, i: nat, x: X)
    requires Logs(m, log, calls) && Possible(m, s, events) && a < |events| && CalledAt(m, log, calls, s, events, a, i, x)
    ensures i < |log(After(m, s, events).s)| && log(After(m, s, events).s)[i] == x
    decreases events
  {
    var t, rest := m.step(s, events[0]).s, events[1..];
    if a == 0 {
      assert events[..0] == [];
      assert LogsStep(m, log, calls, s, events[0], x);
      LogStays(m, log, calls, t, rest, x);
      assert log(t)[i] == x;
    } else {
      BeforeRest(m, s, events, a - 1);
      CalledIsLogged(m, log, calls, t, rest, a - 1, i, x);
    }
  }

  // ... and what is there was called for.
  lemma {:induction false} LoggedIsCalled<S(!new), E(!new), O(!new), X(!new)>(m: System<S, E, O>, log: S -> seq<X>, calls: (S, E, X) -> bool,
                                                              s: S, events: seq<E>, i: nat, x: X) returns (a: nat)
    requires Logs(m, log, calls) && Possible(m, s, events)
    requires |log(s)| <= i < |log(After(m, s, events).s)| && log(After(m, s, events).s)[i] == x
    ensures a < |events| && CalledAt(m, log, calls, s, events, a, i, x)
    decreases events
  {
    var t, rest := m.step(s, events[0]).s, events[1..];
    assert LogsStep(m, log, calls, s, events[0], x);
    if i < |log(t)| {
      LogStays(m, log, calls, t, rest, x);
      assert log(t) == log(s) + [x];
      assert events[..0] == [];
      a := 0;
    } else {
      var b := LoggedIsCalled(m, log, calls, t, rest, i, x);
      BeforeRest(m, s, events, b);
      a := b + 1;
    }
  }

  // -------------------------------------------------------------- what is sent

  // A step sends at most one thing, and exactly the one that is due.
  ghost predicate SendsDue<S(!new), E(!new), O(!new)>(m: System<S, E, O>, inv: S -> bool, due: (S, E, O) -> bool) {
    Keeps(m, inv) && forall s, e, o :: inv(s) && m.enabled(s, e) ==> SendsDueNow(m, due, s, e, o)
  }

  ghost predicate SendsDueNow<S(!new), E(!new), O(!new)>(m: System<S, E, O>, due: (S, E, O) -> bool, s: S, e: E, o: O) {
    |m.step(s, e).outputs| <= 1 && (m.step(s, e).outputs == [o] <==> due(s, e, o))
  }

  // Step a is the one behind i outputs, and o is due.
  ghost predicate DueAt<S(!new), E(!new), O(!new)>(m: System<S, E, O>, due: (S, E, O) -> bool, s: S, events: seq<E>, a: nat, i: nat, o: O)
    requires a < |events|
  {
    |After(m, s, events[..a]).outputs| == i && due(Before(m, s, events, a), events[a], o)
  }

  lemma OutputsBehind<S(!new), E(!new), O(!new)>(m: System<S, E, O>, s: S, events: seq<E>, a: nat)
    requires events != [] && a <= |events[1..]|
    ensures |After(m, s, events[..a + 1]).outputs| == |m.step(s, events[0]).outputs| + |After(m, m.step(s, events[0]).s, events[1..][..a]).outputs|
  {
    assert events[..a + 1][1..] == events[1..][..a];
  }

  lemma {:induction false} DueIsSent<S(!new), E(!new), O(!new)>(m: System<S, E, O>, inv: S -> bool, due: (S, E, O) -> bool,
                                                s: S, events: seq<E>, a: nat, i: nat, o: O)
    requires SendsDue(m, inv, due) && inv(s) && Possible(m, s, events) && a < |events| && DueAt(m, due, s, events, a, i, o)
    ensures i < |After(m, s, events).outputs| && After(m, s, events).outputs[i] == o
    decreases events
  {
    var now, t, rest := m.step(s, events[0]).outputs, m.step(s, events[0]).s, events[1..];
    if a == 0 {
      assert events[..0] == [];
      assert SendsDueNow(m, due, s, events[0], o);
      assert After(m, s, events).outputs[0] == now[0];
    } else {
      BeforeRest(m, s, events, a - 1);
      OutputsBehind(m, s, events, a - 1);
      DueIsSent(m, inv, due, t, rest, a - 1, i - |now|, o);
    }
  }

  lemma {:induction false} SentIsDue<S(!new), E(!new), O(!new)>(m: System<S, E, O>, inv: S -> bool, due: (S, E, O) -> bool,
                                                s: S, events: seq<E>, i: nat, o: O) returns (a: nat)
    requires SendsDue(m, inv, due) && inv(s) && Possible(m, s, events)
    requires i < |After(m, s, events).outputs| && After(m, s, events).outputs[i] == o
    ensures a < |events| && DueAt(m, due, s, events, a, i, o)
    decreases events
  {
    var now, t, rest := m.step(s, events[0]).outputs, m.step(s, events[0]).s, events[1..];
    assert SendsDueNow(m, due, s, events[0], o);
    if i < |now| {
      assert now == [o] && events[..0] == [];
      a := 0;
    } else {
      var b := SentIsDue(m, inv, due, t, rest, i - |now|, o);
      BeforeRest(m, s, events, b);
      OutputsBehind(m, s, events, b);
      a := b + 1;
    }
  }
}
