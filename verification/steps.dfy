/** Repeating a step function, and carrying a simulation between two step
    functions across any number of steps. */
module Steps {
  /** `k` applications of `step`, first to last. */
  function Iterate<T>(step: T -> T, x: T, k: nat): T
    decreases k
  {
    if k == 0 then x else Iterate(step, step(x), k - 1)
  }

  /** A run of `k + 1` steps is one step followed by a run of `k`. */
  lemma IterateFirst<T>(step: T -> T, x: T, k: nat)
    ensures Iterate(step, x, k + 1) == Iterate(step, step(x), k)
  {
  }

  /** A run of `k + 1` steps is a run of `k` followed by one step. */
  lemma {:induction false} IterateLast<T>(step: T -> T, x: T, k: nat)
    ensures Iterate(step, x, k + 1) == step(Iterate(step, x, k))
    decreases k
  {
    if k > 0 {
      IterateLast(step, step(x), k - 1);
    }
  }

  /** Runs compose. */
  lemma {:induction false} IterateAdds<T>(step: T -> T, x: T, a: nat, b: nat)
    ensures Iterate(step, x, a + b) == Iterate(step, Iterate(step, x, a), b)
    decreases a
  {
    if a > 0 {
      IterateAdds(step, step(x), a - 1, b);
    }
  }

  /** If `view` maps each `inv`-state's step to a step of the other machine
      and `inv` is kept, then every run of the first machine is seen as the
      run of the same length of the second. */
  ghost predicate Simulation<S(!new), T>(f: S -> S, g: T -> T, view: S -> T, inv: S -> bool)
  {
    forall s :: inv(s) ==> inv(f(s)) && view(f(s)) == g(view(s))
  }

  lemma {:induction false} Simulate<S(!new), T>(f: S -> S, g: T -> T, view: S -> T, inv: S -> bool, x: S, k: nat)
    requires Simulation(f, g, view, inv)
    requires inv(x)
    ensures inv(Iterate(f, x, k)) && view(Iterate(f, x, k)) == Iterate(g, view(x), k)
    decreases k
  {
    if k > 0 {
      Simulate(f, g, view, inv, f(x), k - 1);
    }
  }
}
