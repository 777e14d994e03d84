/**
 The guard protocol: what the bridge lets happen to one connection between native I/O, the guard
 of the running operation, and the connection's dead flag.
 */
module Guard {

  /**
   `torn` holds from the moment a native call starts I/O until it ends it: a connection abandoned
   in between is left in the middle of a packet. `armed` holds while some guard would mark the
   connection dead when dropped.
   */
  datatype Snapshot = Snapshot(dead: bool, torn: bool, armed: bool)

  const CONNECTED := Snapshot(false, false, false)

  /** Creating a guard checks the dead flag first. */
  predicate Arm(a: Snapshot, b: Snapshot) {
    !a.dead && !a.armed && b == a.(armed := true)
  }

  /** A native call starts I/O. */
  predicate Begin(a: Snapshot, b: Snapshot) {
    a.armed && !a.dead && !a.torn && b == a.(torn := true)
  }

  /** It ends at a clean boundary, or marks the connection dead. */
  predicate Finish(a: Snapshot, b: Snapshot) {
    a.armed && !a.dead && a.torn && b.armed && (!b.torn || b.dead)
  }

  /** The guard is disarmed by code that runs only once its native call has ended. */
  predicate Complete(a: Snapshot, b: Snapshot) {
    a.armed && (a.torn ==> a.dead) && b == a.(armed := false)
  }

  /** The guard is dropped while armed: at any suspension point, or on an early return. */
  predicate Drop(a: Snapshot, b: Snapshot) {
    a.armed && b == Snapshot(true, a.torn, false)
  }

  predicate Next(a: Snapshot, b: Snapshot) {
    Arm(a, b) || Begin(a, b) || Finish(a, b) || Complete(a, b) || Drop(a, b)
  }

  /** A history of one connection, from its creation on. */
  ghost predicate Run(history: seq<Snapshot>) {
    if |history| <= 1 then history == [CONNECTED]
    else
      && Run(history[..|history| - 1])
      && Next(history[|history| - 2], history[|history| - 1])
  }

  lemma Extend(history: seq<Snapshot>, next: Snapshot)
    requires Run(history) && Next(history[|history| - 1], next)
    ensures Run(history + [next])
  {
    assert (history + [next])[..|history|] == history;
  }

  /** A torn wire has a live guard or is known dead. */
  predicate Safe(s: Snapshot) {
    s.torn ==> s.armed || s.dead
  }

  /** In every reachable state a torn wire has an armed guard or a dead connection. */
  lemma {:induction false} RunIsSafe(history: seq<Snapshot>, i: nat)
    requires Run(history) && i < |history|
    ensures Safe(history[i])
    ensures i > 0 ==> Next(history[i - 1], history[i])
  {
    if |history| > 1 {
      var before := history[..|history| - 1];
      RunIsSafe(before, if i < |before| then i else i - 1);
    }
  }

  /** A dead connection stays dead. */
  lemma {:induction false} DeadIsFinal(history: seq<Snapshot>, i: nat, j: nat)
    requires Run(history) && i <= j < |history| && history[i].dead
    ensures history[j].dead
    decreases j
  {
    if i < j {
      DeadIsFinal(history, i, j - 1);
      RunIsSafe(history, j);
    }
  }

  /** Every operation that gets past the dead check starts on a clean wire, and so does every native call. */
  lemma StartsClean(history: seq<Snapshot>, i: nat)
    requires Run(history) && i + 1 < |history|
    ensures Arm(history[i], history[i + 1]) || Begin(history[i], history[i + 1]) ==> !history[i].torn && !history[i].dead
  {
    RunIsSafe(history, i);
  }
}
