/** Deterministic machines and their runs. */
module Machines {
  import opened Ir
  import opened Source

  /** A machine goes from point to point, and where it cannot go on it halts. */
  datatype Machine<!P> = Machine(next: P -> Option<P>, halt: P -> Outcome)

  /** The outcome of the run from p, if it has one within n steps. */
  function Run<P>(mc: Machine<P>, p: P, n: nat): Outcome
    decreases n
  {
    if n == 0 then OutOfFuel
    else
      match mc.next(p)
      case Some(q) => Run(mc, q, n - 1)
      case None => mc.halt(p)
  }

  /** Where the run from p is after k steps. */
  function Steps<P>(mc: Machine<P>, p: P, k: nat): Option<P>
    decreases k
  {
    if k == 0 then Some(p)
    else
      match mc.next(p)
      case Some(q) => Steps(mc, q, k - 1)
      case None => None
  }

  /** A run with more fuel only gets further. */
  lemma {:induction false} RunMono<P>(mc: Machine<P>, p: P, n: nat, n1: nat)
    requires n <= n1
    ensures Run(mc, p, n) != OutOfFuel ==> Run(mc, p, n1) == Run(mc, p, n)
    decreases n
  {
    if n > 0 && mc.next(p).Some? {
      RunMono(mc, mc.next(p).value, n - 1, n1 - 1);
    }
  }

  /** Machines whose related points halt alike or step to related points have
      the same outcomes. */
  lemma {:induction false} Lockstep<P, Q>(mc: Machine<P>, mc1: Machine<Q>, alike: (P, Q) -> bool, p: P, q: Q, n: nat)
    requires alike(p, q)
    requires forall x, y | alike(x, y) ::
               match (mc.next(x), mc1.next(y))
               case (Some(x1), Some(y1)) => alike(x1, y1)
               case (None, None) => mc.halt(x) == mc1.halt(y)
               case _ => false
    ensures Run(mc, p, n) == Run(mc1, q, n)
    decreases n
  {
    if n > 0 && mc.next(p).Some? {
      Lockstep(mc, mc1, alike, mc.next(p).value, mc1.next(q).value, n - 1);
    }
  }
}
