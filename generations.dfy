/**
 * The `valid` flags of the parameter watcher. Every run of the watch callback
 * closes over a fresh `valid = true`; before the next run the previous run's
 * invalidate handler sets that flag to false. Flag `g` belongs to run `g`.
 */
module Generations {

  /** The flag each run closed over, oldest first. */
  type Flags = seq<bool>

  /** The `{ isValid }` object handed to the fetcher of run `generation`. */
  datatype Guard = Guard(generation: nat)

  /** `isValid()` of a run's guard: the current value of the flag it closed over. */
  predicate IsValid(flags: Flags, g: Guard): (ok: bool)
    requires g.generation < |flags|
    ensures OnlyLatestValid(flags) ==> (ok <==> g.generation == |flags| - 1)
    ensures NoneValid(flags) ==> !ok
  {
    flags[g.generation]
  }

  /** Only the newest run's flag is still true. */
  predicate OnlyLatestValid(flags: Flags)
  {
    && |flags| > 0
    && flags[|flags| - 1]
    && forall i :: 0 <= i < |flags| - 1 ==> !flags[i]
  }

  /** Every run's flag is false: the watcher has been stopped. */
  predicate NoneValid(flags: Flags)
  {
    forall i :: 0 <= i < |flags| ==> !flags[i]
  }

  /** Stopping the watcher runs the newest run's invalidate handler: its flag turns false. */
  function Stop(flags: Flags): (r: Flags)
    requires |flags| > 0
    ensures |r| == |flags| && !r[|flags| - 1]
    ensures forall i :: 0 <= i < |flags| - 1 ==> r[i] == flags[i]
  {
    flags[|flags| - 1 := false]
  }

  /** After the watcher stops, no guard is valid, and none that was invalid became valid. */
  lemma StopInvalidatesAll(flags: Flags)
    requires OnlyLatestValid(flags)
    ensures NoneValid(Stop(flags))
    ensures NeverRevalidates(flags, Stop(flags))
  {
  }

  /** A parameter change: the previous run's flag turns false, and a new run starts with a true flag. */
  function Supersede(flags: Flags): (r: Flags)
    requires |flags| > 0
    ensures |r| == |flags| + 1
    ensures r[|flags|] && !r[|flags| - 1]
    ensures forall i :: 0 <= i < |flags| - 1 ==> r[i] == flags[i]
  {
    flags[|flags| - 1 := false] + [true]
  }

  /** No flag that is false is ever true again, and no run is forgotten. */
  predicate NeverRevalidates(before: Flags, after: Flags)
  {
    && |before| <= |after|
    && forall i :: 0 <= i < |before| && !before[i] ==> !after[i]
  }

  /** A parameter change keeps exactly one guard valid: the new one. */
  lemma SupersedeKeepsOnlyLatestValid(flags: Flags)
    requires OnlyLatestValid(flags)
    ensures OnlyLatestValid(Supersede(flags))
  {
  }

  /** At most one guard is valid at any moment. */
  lemma AtMostOneValid(flags: Flags, g1: Guard, g2: Guard)
    requires OnlyLatestValid(flags)
    requires g1.generation < |flags| && g2.generation < |flags|
    requires IsValid(flags, g1) && IsValid(flags, g2)
    ensures g1 == g2
  {
  }

  /** `NeverRevalidates` composes along a run of events. */
  lemma NeverRevalidatesTransitive(a: Flags, b: Flags, c: Flags)
    requires NeverRevalidates(a, b) && NeverRevalidates(b, c)
    ensures NeverRevalidates(a, c)
  {
  }

  /** `n` parameter changes in a row. */
  function SupersedeTimes(flags: Flags, n: nat): (r: Flags)
    requires |flags| > 0
    ensures |r| == |flags| + n
  {
    if n == 0 then flags else Supersede(SupersedeTimes(flags, n - 1))
  }

  /**
   * After one or more parameter changes, every guard that existed before them
   * is invalid, and no flag that was false has become true.
   */
  lemma {:induction false} SupersededStaysInvalid(flags: Flags, n: nat)
    requires OnlyLatestValid(flags) && n > 0
    ensures forall g :: 0 <= g < |flags| ==> !SupersedeTimes(flags, n)[g]
    ensures NeverRevalidates(flags, SupersedeTimes(flags, n))
  {
    if n > 1 {
      SupersededStaysInvalid(flags, n - 1);
    }
  }

}
