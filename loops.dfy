/** The shape of every loop in the two solver scripts: a `for` over a
    sequence whose body may raise, which ends the whole program with the
    output printed so far. */
module Loops {
  import opened Errors

  /** The loop after its first `n` steps, from `init`: it stops at the
      first step that reports an error and keeps the state that step
      reached. */
  function Loop<S, X>(xs: seq<X>, n: nat, step: (S, X) -> Run<S>, init: S): Run<S>
    requires n <= |xs|
  {
    if n == 0 then Run(init, None)
    else
      var r := Loop(xs, n - 1, step, init);
      if r.crash.Some? then r else step(r.state, xs[n - 1])
  }

  /** Once step `k` stops the loop, no later step changes the outcome. */
  lemma {:induction false} LoopStop<S, X>(xs: seq<X>, k: nat, n: nat, step: (S, X) -> Run<S>, init: S)
    requires k < n <= |xs|
    requires Loop(xs, k + 1, step, init).crash.Some?
    ensures Loop(xs, n, step, init) == Loop(xs, k + 1, step, init)
  {
    if n > k + 1 {
      LoopStop(xs, k, n - 1, step, init);
    }
  }

  /** The loop reads only the elements it has reached. */
  lemma {:induction false} LoopPrefix<S, X>(xs: seq<X>, ys: seq<X>, n: nat, step: (S, X) -> Run<S>, init: S)
    requires n <= |xs| && n <= |ys| && xs[..n] == ys[..n]
    ensures Loop(xs, n, step, init) == Loop(ys, n, step, init)
  {
    if n > 0 {
      assert xs[n - 1] == xs[..n][n - 1] == ys[n - 1];
      LoopPrefix(xs, ys, n - 1, step, init);
    }
  }

  /** A property every step keeps, even a step that fails, holds of the
      state the loop reaches. */
  lemma {:induction false} LoopKeeps<S, X>(xs: seq<X>, n: nat, step: (S, X) -> Run<S>, init: S, inv: S -> bool)
    requires n <= |xs|
    requires inv(init)
    requires forall s, x :: inv(s) ==> inv(step(s, x).state)
    ensures inv(Loop(xs, n, step, init).state)
  {
    if n > 0 {
      LoopKeeps(xs, n - 1, step, init, inv);
    }
  }

  /** When no step goes back in a preorder `le`, neither does the loop:
      its state after `k` steps is below its state after `n >= k`. */
  lemma {:induction false} LoopGrows<S, X>(xs: seq<X>, k: nat, n: nat, step: (S, X) -> Run<S>, init: S,
                                           le: (S, S) -> bool)
    requires k <= n <= |xs|
    requires forall s :: le(s, s)
    requires forall a, b, c :: le(a, b) && le(b, c) ==> le(a, c)
    requires forall s, x :: le(s, step(s, x).state)
    ensures le(Loop(xs, k, step, init).state, Loop(xs, n, step, init).state)
  {
    if k < n {
      LoopGrows(xs, k, n - 1, step, init, le);
    }
  }

  /** A loop that has not stopped after `n` steps takes step `n` next. */
  lemma LoopNext<S, X>(xs: seq<X>, n: nat, step: (S, X) -> Run<S>, init: S, s: S)
    requires n < |xs|
    requires Loop(xs, n, step, init) == Run(s, None)
    ensures Loop(xs, n + 1, step, init) == step(s, xs[n])
  {
  }

  /** The union of `gain(x)` over the first `n` elements. */
  function Gained<X, T>(xs: seq<X>, n: nat, gain: X -> set<T>): set<T>
    requires n <= |xs|
  {
    if n == 0 then {} else Gained(xs, n - 1, gain) + gain(xs[n - 1])
  }

  lemma {:induction false} GainedMembers<X, T>(xs: seq<X>, n: nat, gain: X -> set<T>)
    requires n <= |xs|
    ensures forall t :: t in Gained(xs, n, gain) <==> exists k :: 0 <= k < n && t in gain(xs[k])
  {
    if n > 0 {
      GainedMembers(xs, n - 1, gain);
      var last := xs[n - 1];
      forall t | t in gain(last)
        ensures exists k :: 0 <= k < n && t in gain(xs[k])
      {
        assert xs[n - 1] == last;
      }
    }
  }

  /** When every step that does not fail adds `gain(x)` to a view of the
      state, a loop that does not stop adds the union of the gains of the
      elements it reached. */
  lemma {:induction false} LoopGains<S, X, T>(xs: seq<X>, n: nat, step: (S, X) -> Run<S>, init: S,
                                              view: S -> set<T>, gain: X -> set<T>)
    requires n <= |xs|
    requires forall s, x :: step(s, x).crash.None? ==> view(step(s, x).state) == view(s) + gain(x)
    requires Loop(xs, n, step, init).crash.None?
    ensures view(Loop(xs, n, step, init).state) == view(init) + Gained(xs, n, gain)
  {
    if n > 0 {
      LoopGains(xs, n - 1, step, init, view, gain);
    }
  }

  /** The number of lines either script handles: its counter reaches 100
      on the 100th line, which it breaks on before reading. */
  function Processed<X>(lines: seq<X>): (n: nat)
    ensures n <= |lines| && n <= 99
    ensures n < 99 ==> n == |lines|
  {
    if |lines| < 99 then |lines| else 99
  }
}
