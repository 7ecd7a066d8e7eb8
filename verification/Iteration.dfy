/** Total iteration of a step function. A loop that never stops has the value
    `bot`, so "both sides diverge" is an equation like any other. */
module Iteration {

  datatype Step<S, R> = Next(s: S) | Stop(r: R)

  /** The state after `n` steps, or the result if the loop stopped earlier. */
  ghost function Iter<S, R>(step: S -> Step<S, R>, s: S, n: nat): Step<S, R>
  {
    if n == 0 then Next(s)
    else
      match step(s)
      case Next(s1) => Iter(step, s1, n - 1)
      case Stop(r) => Stop(r)
  }

  ghost predicate Halts<S, R>(step: S -> Step<S, R>, s: S)
  {
    exists n: nat :: Iter(step, s, n).Stop?
  }

  /** The result of iterating from `s`, or `bot` when the iteration never stops. */
  ghost function Loop<S, R>(step: S -> Step<S, R>, s: S, bot: R): R
  {
    if Halts(step, s) then
      var n: nat :| Iter(step, s, n).Stop?;
      Iter(step, s, n).r
    else bot
  }

  /** `t` is reached from `s` after at least one step. */
  ghost predicate Reaches<S, R>(step: S -> Step<S, R>, s: S, t: S)
  {
    exists k: nat :: k > 0 && Iter(step, s, k) == Next(t)
  }

  lemma {:induction false} ReachesIn<S, R>(step: S -> Step<S, R>, s: S, t: S, k: nat)
    requires k > 0 && Iter(step, s, k) == Next(t)
    ensures Reaches(step, s, t)
  {
  }

  lemma {:induction false} IterStopMono<S, R>(step: S -> Step<S, R>, s: S, m: nat, n: nat)
    requires m <= n && Iter(step, s, m).Stop?
    ensures Iter(step, s, n) == Iter(step, s, m)
  {
    if m > 0 {
      match step(s)
      case Next(s1) => IterStopMono(step, s1, m - 1, n - 1);
      case Stop(_) =>
    }
  }

  lemma {:induction false} LoopStops<S, R>(step: S -> Step<S, R>, s: S, bot: R, n: nat)
    requires Iter(step, s, n).Stop?
    ensures Loop(step, s, bot) == Iter(step, s, n).r
  {
    assert Halts(step, s);
    var m: nat :| Iter(step, s, m).Stop? && Loop(step, s, bot) == Iter(step, s, m).r;
    if m <= n { IterStopMono(step, s, m, n); } else { IterStopMono(step, s, n, m); }
  }

  lemma {:induction false} HaltsUnfold<S, R>(step: S -> Step<S, R>, s: S)
    ensures Halts(step, s) <==> (step(s).Next? ==> Halts(step, step(s).s))
  {
    match step(s)
    case Stop(r) =>
      assert Iter(step, s, 1) == Stop(r);
    case Next(s1) =>
      if Halts(step, s) {
        var n: nat :| Iter(step, s, n).Stop?;
        assert Iter(step, s1, n - 1).Stop?;
      }
      if Halts(step, s1) {
        var n: nat :| Iter(step, s1, n).Stop?;
        assert Iter(step, s, n + 1).Stop?;
      }
  }

  lemma {:induction false} LoopUnfold<S, R>(step: S -> Step<S, R>, s: S, bot: R)
    ensures Loop(step, s, bot) ==
            match step(s)
            case Next(s1) => Loop(step, s1, bot)
            case Stop(r) => r
  {
    HaltsUnfold(step, s);
    match step(s)
    case Stop(r) =>
      assert Iter(step, s, 1) == Stop(r);
      LoopStops(step, s, bot, 1);
    case Next(s1) =>
      if Halts(step, s1) {
        var n: nat :| Iter(step, s1, n).Stop?;
        assert Iter(step, s, n + 1) == Iter(step, s1, n);
        LoopStops(step, s1, bot, n);
        LoopStops(step, s, bot, n + 1);
      }
  }

  lemma {:induction false} IterAdd<S, R>(step: S -> Step<S, R>, s: S, t: S, k: nat, n: nat)
    requires Iter(step, s, k) == Next(t)
    ensures Iter(step, s, k + n) == Iter(step, t, n)
  {
    if k > 0 {
      var s1 := step(s).s;
      IterAdd(step, s1, t, k - 1, n);
    }
  }

  lemma {:induction false} LoopAfter<S, R>(step: S -> Step<S, R>, s: S, t: S, bot: R, k: nat)
    requires Iter(step, s, k) == Next(t)
    ensures Loop(step, s, bot) == Loop(step, t, bot)
    decreases k
  {
    if k > 0 {
      LoopUnfold(step, s, bot);
      LoopAfter(step, step(s).s, t, bot, k - 1);
    }
  }

  lemma {:induction false} LoopReaches<S, R>(step: S -> Step<S, R>, s: S, t: S, bot: R)
    requires Reaches(step, s, t)
    ensures Loop(step, s, bot) == Loop(step, t, bot)
  {
    var k: nat :| k > 0 && Iter(step, s, k) == Next(t);
    LoopAfter(step, s, t, bot, k);
  }

  ghost predicate Keeps<S, R>(step: S -> Step<S, R>, inv: S -> bool, post: R -> bool, x: S)
  {
    inv(x) ==> match step(x) case Next(y) => inv(y) case Stop(r) => post(r)
  }

  /** The result of a loop that stops is produced by one of its steps, from a state
      that satisfies every invariant of the loop. */
  lemma {:induction false} LoopInvariant<S(!new), R>(step: S -> Step<S, R>, s: S, bot: R, inv: S -> bool,
                                                     post: R -> bool)
    requires inv(s) && post(bot)
    requires forall x :: Keeps(step, inv, post, x)
    ensures post(Loop(step, s, bot))
  {
    if Halts(step, s) {
      var n: nat :| Iter(step, s, n).Stop?;
      IterInvariant(step, s, n, inv, post);
      LoopStops(step, s, bot, n);
    }
  }

  lemma {:induction false} IterInvariant<S(!new), R>(step: S -> Step<S, R>, s: S, n: nat, inv: S -> bool,
                                                     post: R -> bool)
    requires inv(s)
    requires forall x :: Keeps(step, inv, post, x)
    ensures match Iter(step, s, n) case Next(t) => inv(t) case Stop(r) => post(r)
  {
    assert Keeps(step, inv, post, s);
    if n > 0 {
      match step(s)
      case Next(s1) => IterInvariant(step, s1, n - 1, inv, post);
      case Stop(_) =>
    }
  }

  /** The hypothesis of `LoopSimulation` at one pair of related states: a step of the
      fast loop is one or more steps of the slow one, and a stop agrees with the slow result. */
  ghost predicate Tracks<S(!new), T, R, Q>(slow: S -> Step<S, R>, fast: T -> Step<T, Q>, bot: R,
                                     rel: (S, T) -> bool, agree: (R, Q) -> bool, s: S, t: T)
  {
    match fast(t)
    case Next(t1) => exists s1 :: Reaches(slow, s, s1) && rel(s1, t1)
    case Stop(q) => agree(Loop(slow, s, bot), q)
  }

  /** Acceleration: if every step of `fast` is a positive number of steps of `slow`,
      the two loops have related results, and one diverges exactly when the other does. */
  lemma {:induction false} LoopSimulation<S(!new), T(!new), R, Q>(slow: S -> Step<S, R>, fast: T -> Step<T, Q>, botR: R,
                                                                  botQ: Q, rel: (S, T) -> bool, agree: (R, Q) -> bool,
                                                                  s: S, t: T)
    requires rel(s, t) && agree(botR, botQ)
    requires forall x, y :: rel(x, y) ==> Tracks(slow, fast, botR, rel, agree, x, y)
    ensures agree(Loop(slow, s, botR), Loop(fast, t, botQ))
  {
    if Halts(fast, t) {
      var n: nat :| Iter(fast, t, n).Stop?;
      FastStops(slow, fast, botR, rel, agree, s, t, n);
      LoopStops(fast, t, botQ, n);
    } else if Halts(slow, s) {
      var m: nat :| Iter(slow, s, m).Stop?;
      SlowOutlasts(slow, fast, botR, rel, agree, s, t, m);
    }
  }

  lemma {:induction false} FastStops<S(!new), T(!new), R, Q>(slow: S -> Step<S, R>, fast: T -> Step<T, Q>, botR: R,
                                          rel: (S, T) -> bool, agree: (R, Q) -> bool, s: S, t: T, n: nat)
    requires rel(s, t)
    requires forall x, y :: rel(x, y) ==> Tracks(slow, fast, botR, rel, agree, x, y)
    requires Iter(fast, t, n).Stop?
    ensures agree(Loop(slow, s, botR), Iter(fast, t, n).r)
    decreases n
  {
    assert Tracks(slow, fast, botR, rel, agree, s, t);
    match fast(t)
    case Stop(_) =>
    case Next(t1) =>
      var s1 :| Reaches(slow, s, s1) && rel(s1, t1);
      LoopReaches(slow, s, s1, botR);
      FastStops(slow, fast, botR, rel, agree, s1, t1, n - 1);
  }

  lemma {:induction false} SlowOutlasts<S(!new), T(!new), R, Q>(slow: S -> Step<S, R>, fast: T -> Step<T, Q>, botR: R,
                                             rel: (S, T) -> bool, agree: (R, Q) -> bool, s: S, t: T, m: nat)
    requires rel(s, t) && !Halts(fast, t)
    requires forall x, y :: rel(x, y) ==> Tracks(slow, fast, botR, rel, agree, x, y)
    ensures Iter(slow, s, m).Next?
    decreases m
  {
    assert Tracks(slow, fast, botR, rel, agree, s, t);
    HaltsUnfold(fast, t);
    var t1 := fast(t).s;
    var s1 :| Reaches(slow, s, s1) && rel(s1, t1);
    var k: nat :| k > 0 && Iter(slow, s, k) == Next(s1);
    if m < k {
      if Iter(slow, s, m).Stop? { IterStopMono(slow, s, m, k); }
    } else {
      IterAdd(slow, s, s1, k, m - k);
      SlowOutlasts(slow, fast, botR, rel, agree, s1, t1, m - k);
    }
  }
}
