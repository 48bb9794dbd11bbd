/** Attempt ids: `next_attempt_id` called by any number of threads, each reading a clock that may
    jump either way and retrying a compare-and-swap on one shared counter. */
module AttemptIds {
  import opened Basics

  type Id = n: nat | n <= U64_MAX

  /** The stored value after a swap over `previous`, and the id returned with it. */
  function NextId(now: Id, previous: Id): Id {
    Max(now, Min(previous + 1, U64_MAX))
  }

  /** The counter, as one thread that is not interrupted uses it. */
  class LastAttemptId {
    var last: Id

    constructor ()
      ensures last == 0
    {
      last := 0;
    }

    // A weak compare-and-swap may fail although the values agree.
    method CompareExchangeWeak(expected: Id, desired: Id, spurious: bool) returns (swapped: bool)
      modifies this
      ensures swapped <==> old(last) == expected && !spurious
      ensures last == if swapped then desired else old(last)
    {
      swapped := last == expected && !spurious;
      if swapped {
        last := desired;
      }
    }

    // `failures` is the number of times the swap fails spuriously.
    method NextAttemptId(now: Id, failures: nat) returns (id: Id)
      modifies this
      ensures id == last == NextId(now, old(last))
      ensures id >= now && (id > old(last) || id == U64_MAX)
      ensures id == now || id == old(last) + 1 || id == U64_MAX
    {
      var previous := last;
      var failed := 0;
      var swapped := CompareExchangeWeak(previous, NextId(now, previous), failed < failures);
      while !swapped
        invariant previous == old(last) && failed <= failures
        invariant last == if swapped then NextId(now, previous) else previous
        invariant !swapped ==> failed < failures
        decreases failures - failed, !swapped
      {
        failed := failed + 1;
        previous := last;
        swapped := CompareExchangeWeak(previous, NextId(now, previous), failed < failures);
      }
      id := NextId(now, previous);
    }
  }

  // ---------------------------------------------------------------------------------------
  // Interleavings
  // ---------------------------------------------------------------------------------------

  /** One call: it has read the clock; it holds a guess of the counter; or it has swapped, as
      the swap numbered `swap`, and returned `id`. */
  datatype Call = Clocked(now: Id) | Guessing(now: Id, previous: Id) | Returned(now: Id, id: Id, swap: nat)

  /** `history` lists the values stored so far, in swap order. */
  datatype State = State(last: Id, calls: seq<Call>, history: seq<Id>)

  const INITIAL := State(0, [], [])

  datatype Step =
    | Begin(now: Id)
    | Guess(call: nat, value: Id)   // a relaxed load, of any value at all
    | Swap(call: nat, spurious: bool)

  /** One step; a step that is not possible changes nothing. */
  function Apply(s: State, step: Step): State {
    match step
    case Begin(now) => s.(calls := s.calls + [Clocked(now)])
    case Guess(i, value) =>
      if i < |s.calls| && !s.calls[i].Returned?
      then s.(calls := s.calls[i := Guessing(s.calls[i].now, value)]) else s
    case Swap(i, spurious) =>
      if i < |s.calls| && s.calls[i].Guessing? && s.calls[i].previous == s.last && !spurious then
        var id := NextId(s.calls[i].now, s.last);
        State(id, s.calls[i := Returned(s.calls[i].now, id, |s.history|)], s.history + [id])
      else s
  }

  function Run(steps: seq<Step>): State {
    if steps == [] then INITIAL else Apply(Run(steps[..|steps| - 1]), steps[|steps| - 1])
  }

  /** The value that the swap number `k` replaced. */
  function Before(history: seq<Id>, k: nat): Id
    requires k <= |history|
  {
    if k == 0 then 0 else history[k - 1]
  }

  /** The id is at least the clock reading and greater than the value before it, and no greater
      than one of them requires. */
  predicate Follows(now: Id, id: Id, previous: Id) {
    && id >= now && (id > previous || id == U64_MAX)
    && (id == now || id == previous + 1 || id == U64_MAX)
  }

  ghost predicate Explained(s: State) {
    forall i :: 0 <= i < |s.calls| && s.calls[i].Returned? ==>
      s.calls[i].swap < |s.history| && s.calls[i].id == s.history[s.calls[i].swap]
      && Follows(s.calls[i].now, s.calls[i].id, Before(s.history, s.calls[i].swap))
  }

  ghost predicate Inv(s: State) {
    && s.last == Before(s.history, |s.history|)
    && (forall j, k :: 0 <= j < k < |s.history| ==> s.history[j] < s.history[k] || s.history[j] == s.history[k] == U64_MAX)
    && (forall i, j :: 0 <= i < j < |s.calls| && s.calls[i].Returned? && s.calls[j].Returned? ==>
          s.calls[i].swap != s.calls[j].swap)
    && Explained(s)
  }

  lemma StepKeepsExplained(s: State, step: Step)
    requires Inv(s)
    ensures Explained(Apply(s, step))
  {
    var s' := Apply(s, step);
    forall i | 0 <= i < |s'.calls| && s'.calls[i].Returned?
      ensures s'.calls[i].swap < |s'.history| && s'.calls[i].id == s'.history[s'.calls[i].swap]
      ensures Follows(s'.calls[i].now, s'.calls[i].id, Before(s'.history, s'.calls[i].swap))
    {
      hide Follows;
      if i < |s.calls| && s.calls[i].Returned? {
        assert s'.calls[i] == s.calls[i];
      } else {
        assert step.Swap? && s'.calls[i].swap == |s.history|;
        NextFollows(s.calls[i].now, s.last);
      }
    }
  }

  lemma NextFollows(now: Id, previous: Id)
    ensures Follows(now, NextId(now, previous), previous)
  {}

  lemma StepKeepsInv(s: State, step: Step)
    requires Inv(s)
    ensures Inv(Apply(s, step))
  {
    StepKeepsExplained(s, step);
    var s' := Apply(s, step);
    if step.Swap? && s' != s {
      forall j | 0 <= j < |s.history|
        ensures s.history[j] < s'.last || s.history[j] == s'.last == U64_MAX
      {
        assert s.history[j] <= s.last;
      }
      hide Follows;
    }
  }

  lemma {:induction false} RunKeepsInv(steps: seq<Step>)
    ensures Inv(Run(steps))
  {
    if steps != [] {
      RunKeepsInv(steps[..|steps| - 1]);
      StepKeepsInv(Run(steps[..|steps| - 1]), steps[|steps| - 1]);
    }
  }

  /** Over every interleaving, each returned id is the value its own swap stored: its caller's
      clock reading or, if that is not greater, one more than the value before. Ids increase
      strictly in swap order, and two calls return the same id exactly when both have reached
      the largest 64-bit number. */
  lemma IdsAreDistinct(steps: seq<Step>, i: nat, j: nat)
    requires var s := Run(steps); i < j < |s.calls| && s.calls[i].Returned? && s.calls[j].Returned?
    ensures var s := Run(steps); var (x, y) := (s.calls[i], s.calls[j]);
      && x.swap < |s.history| && x.id == s.history[x.swap]
      && x.id >= x.now && y.id >= y.now && Follows(x.now, x.id, Before(s.history, x.swap))
      && x.swap != y.swap
      && (x.swap < y.swap && x.id < U64_MAX ==> x.id < y.id)
      && (y.swap < x.swap && y.id < U64_MAX ==> y.id < x.id)
      && (x.id == y.id <==> x.id == U64_MAX && y.id == U64_MAX)
  {
    RunKeepsInv(steps);
  }
}
