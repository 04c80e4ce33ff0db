/**
 From a local date and time to an instant (packages/domain/src/services.ts,
 zonedDateTimeMs): the zone's offset is an arbitrary function of the instant that stays
 within a bound and changes rarely, as the offsets of the time-zone database do.
 */
module ZonedTime {

  /** Offsets in whole seconds, as the source computes them: local time = instant + offset. */
  type Offset = int -> int

  /** `local` is the requested date and time read as UTC; the offset is looked up twice. */
  function ZonedInstant(off: Offset, local: int): int {
    var guess := local - off(local);
    local - off(guess)
  }

  predicate Renders(off: Offset, instant: int, local: int) {
    instant + off(instant) == local
  }

  predicate ChangesAt(off: Offset, t: int) {
    off(t - 1) != off(t)
  }

  /** The assumption on a zone. */
  ghost predicate IsZone(off: Offset, bound: int) {
    && (forall t :: -bound <= off(t) <= bound)
    && (forall s, t :: s < t && ChangesAt(off, s) && ChangesAt(off, t) ==> t - s > 2 * bound)
  }

  lemma {:induction false} ConstantBetween(off: Offset, from: int, n: nat)
    requires forall t :: from < t <= from + n ==> !ChangesAt(off, t)
    ensures off(from) == off(from + n)
  {
    if n > 0 {
      ConstantBetween(off, from, n - 1);
      assert !ChangesAt(off, from + n);
    }
  }

  /** Around `local`, `before` holds up to the change and `after` from it on. */
  ghost predicate SplitsAt(off: Offset, bound: int, local: int, change: int, before: int, after: int) {
    forall t :: local - bound <= t <= local + bound ==> off(t) == if t < change then before else after
  }

  /** A zone has at most one change in reach of a local time; if it has none, `change` lies out of reach. */
  lemma ZoneSplits(off: Offset, bound: int, local: int) returns (change: int, before: int, after: int)
    requires IsZone(off, bound)
    ensures SplitsAt(off, bound, local, change, before, after)
    ensures -bound <= before <= bound && -bound <= after <= bound
  {
    var lo, hi := local - bound, local + bound;
    assert -bound <= off(local) <= bound;
    before, after := off(lo), off(hi);
    if c :| lo < c <= hi && ChangesAt(off, c) {
      change := c;
      forall t | lo <= t <= hi
        ensures off(t) == if t < change then before else after
      {
        if t < change {
          ConstantBetween(off, lo, t - lo);
        } else {
          ConstantBetween(off, t, hi - t);
        }
      }
    } else {
      change := hi + 1;
      forall t | lo <= t <= hi
        ensures off(t) == before
      {
        ConstantBetween(off, lo, t - lo);
      }
    }
  }

  /** The instant renders as the requested local time exactly when some instant does. */
  lemma RendersWheneverItExists(off: Offset, bound: int, local: int)
    requires IsZone(off, bound)
    ensures Renders(off, ZonedInstant(off, local), local) <==> exists t :: Renders(off, t, local)
  {
    var change, before, after := ZoneSplits(off, bound, local);
    assert -bound <= off(local) <= bound && -bound <= off(local - off(local)) <= bound;
    if t :| Renders(off, t, local) {
      assert -bound <= off(t) <= bound;
    }
  }

  predicate Repeated(local: int, change: int, before: int, after: int) {
    local - before < change <= local - after
  }

  predicate Skipped(local: int, change: int, before: int, after: int) {
    local - after < change <= local - before
  }

  /**
   A local time that clocks show twice gets its later instant exactly when, read as UTC, it
   is not before the change: the later one east of Greenwich, the earlier one west of it.
   */
  lemma RepeatedTimeChoice(off: Offset, bound: int, local: int, change: int, before: int, after: int)
    requires IsZone(off, bound) && SplitsAt(off, bound, local, change, before, after)
    requires -bound <= before <= bound && -bound <= after <= bound
    requires Repeated(local, change, before, after)
    ensures Renders(off, local - before, local) && Renders(off, local - after, local) && local - before < local - after
    ensures ZonedInstant(off, local) == if local >= change then local - after else local - before
    ensures after >= 0 ==> ZonedInstant(off, local) == local - after
    ensures before <= 0 ==> ZonedInstant(off, local) == local - before
  {}

  /** A local time that clocks skip is moved by exactly the jump: back if, read as UTC, it is before the change. */
  lemma SkippedTimeChoice(off: Offset, bound: int, local: int, change: int, before: int, after: int)
    requires IsZone(off, bound) && SplitsAt(off, bound, local, change, before, after)
    requires -bound <= before <= bound && -bound <= after <= bound
    requires Skipped(local, change, before, after)
    ensures !exists t :: Renders(off, t, local)
    ensures Renders(off, ZonedInstant(off, local), if local < change then local - (after - before) else local + (after - before))
  {}

  /** Every local time in reach of a change is shown once, repeated, or skipped. */
  lemma EveryTimeIsCovered(off: Offset, bound: int, local: int) returns (change: int, before: int, after: int)
    requires IsZone(off, bound)
    ensures SplitsAt(off, bound, local, change, before, after) && -bound <= before <= bound && -bound <= after <= bound
    ensures !Repeated(local, change, before, after) && !Skipped(local, change, before, after) ==>
              && Renders(off, ZonedInstant(off, local), local)
              && forall t :: Renders(off, t, local) ==> t == ZonedInstant(off, local)
  {
    change, before, after := ZoneSplits(off, bound, local);
    assert -bound <= off(local) <= bound;
    forall t | Renders(off, t, local)
      ensures !Repeated(local, change, before, after) ==> t == ZonedInstant(off, local)
    {
      assert -bound <= off(t) <= bound;
    }
  }
}
