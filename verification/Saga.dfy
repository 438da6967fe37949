/** The saga runner: steps in order, each logged, and on a failure the undos of the completed steps in
    reverse. Steps act on a state of any kind. */
module Saga {
  import opened Wrappers

  datatype SagaStep<!S> = SagaStep(name: string, do: S -> (S, bool), undo: Option<S -> S>)

  datatype StepLog = StepLog(name: string, state: string)

  /** The state when step k is about to start, the steps before it having been done. */
  function Before<S>(steps: seq<SagaStep<S>>, s: S, k: nat): S
    requires k <= |steps|
  {
    if k == 0 then s else steps[k - 1].do(Before(steps, s, k - 1)).0
  }

  predicate Succeeds<S>(steps: seq<SagaStep<S>>, s: S, k: nat)
    requires k < |steps|
  {
    steps[k].do(Before(steps, s, k)).1
  }

  /** The first step at or after from that fails. */
  function Failure<S>(steps: seq<SagaStep<S>>, s: S, from: nat): (k: Option<nat>)
    requires from <= |steps|
    ensures k.Some? ==> from <= k.value < |steps| && !Succeeds(steps, s, k.value)
    ensures forall i | from <= i < (if k.Some? then k.value else |steps|) :: Succeeds(steps, s, i)
    decreases |steps| - from
  {
    if from == |steps| then None
    else if !Succeeds(steps, s, from) then Some(from)
    else Failure(steps, s, from + 1)
  }

  function UndoOne<S>(step: SagaStep<S>, s: S): S {
    match step.undo
    case None => s
    case Some(undo) => undo(s)
  }

  /** The undos of the first k steps, last step first. */
  function Undone<S>(steps: seq<SagaStep<S>>, s: S, k: nat): S
    requires k <= |steps|
  {
    if k == 0 then s else Undone(steps, UndoOne(steps[k - 1], s), k - 1)
  }

  function DoneLog<S>(steps: seq<SagaStep<S>>, k: nat): seq<StepLog>
    requires k <= |steps|
  {
    seq(k, i requires 0 <= i < k => StepLog(steps[i].name, "done"))
  }

  datatype Outcome<S> = Outcome(state: S, log: seq<StepLog>, failedAt: Option<nat>)

  function EndState<S>(steps: seq<SagaStep<S>>, s: S): S {
    match Failure(steps, s, 0)
    case None => Before(steps, s, |steps|)
    case Some(k) => Undone(steps, Before(steps, s, k + 1), k)
  }

  function EndLog<S>(steps: seq<SagaStep<S>>, s: S): seq<StepLog> {
    match Failure(steps, s, 0)
    case None => DoneLog(steps, |steps|)
    case Some(k) => DoneLog(steps, k) + [StepLog(steps[k].name, "failed")]
  }

  /** What the saga comes to. */
  function SagaOutcome<S>(steps: seq<SagaStep<S>>, s: S): Outcome<S> {
    Outcome(EndState(steps, s), EndLog(steps, s), Failure(steps, s, 0))
  }

  method RunSaga<S>(steps: seq<SagaStep<S>>, s0: S) returns (s: S, log: seq<StepLog>, failedAt: Option<nat>)
    ensures Outcome(s, log, failedAt) == SagaOutcome(steps, s0)
  {
    s, log := s0, [];
    for i := 0 to |steps|
      invariant s == Before(steps, s0, i) && log == DoneLog(steps, i)
      invariant Failure(steps, s0, 0) == Failure(steps, s0, i)
    {
      log := log + [StepLog(steps[i].name, "pending")];
      var (next, ok) := steps[i].do(s);
      s := next;
      if !ok {
        log := log[|log| - 1 := StepLog(steps[i].name, "failed")];
        var j: nat := i;
        while j > 0
          invariant j <= i && Undone(steps, Before(steps, s0, i + 1), i) == Undone(steps, s, j)
        {
          j := j - 1;
          s := UndoOne(steps[j], s);
        }
        return s, log, Some(i);
      }
      log := log[|log| - 1 := StepLog(steps[i].name, "done")];
    }
    failedAt := None;
  }

  /** The log names the steps begun, in order, all of them done but for the one that failed, if any. */
  lemma LogTells<S>(steps: seq<SagaStep<S>>, s: S)
    ensures var o := SagaOutcome(steps, s);
            && |o.log| == (if o.failedAt.Some? then o.failedAt.value + 1 else |steps|)
            && forall i | 0 <= i < |o.log| ::
                 o.log[i].name == steps[i].name &&
                 o.log[i].state == if o.failedAt == Some(i) then "failed" else "done"
  {
  }

  // ----- Which actions are performed, and in what order -----

  datatype Action = Did(i: nat) | Undid(i: nat)

  datatype Seen<S> = Seen(state: S, actions: seq<Action>)

  /** The same step, as number i, also writing down each do and undo as it is performed. */
  function WatchedStep<S>(step: SagaStep<S>, i: nat): SagaStep<Seen<S>> {
    SagaStep(step.name,
             (t: Seen<S>) => var (s, ok) := step.do(t.state); (Seen(s, t.actions + [Did(i)]), ok),
             match step.undo
             case None => None
             case Some(undo) => Some((t: Seen<S>) => Seen(undo(t.state), t.actions + [Undid(i)])))
  }

  function Watched<S>(steps: seq<SagaStep<S>>): (w: seq<SagaStep<Seen<S>>>)
    ensures |w| == |steps| && forall i | 0 <= i < |w| :: w[i] == WatchedStep(steps[i], i)
  {
    seq(|steps|, i requires 0 <= i < |steps| => WatchedStep(steps[i], i))
  }

  lemma WatchedDoes<S>(steps: seq<SagaStep<S>>, i: nat, t: Seen<S>)
    requires i < |steps|
    ensures Watched(steps)[i].do(t).0 == Seen(steps[i].do(t.state).0, t.actions + [Did(i)])
    ensures Watched(steps)[i].do(t).1 == steps[i].do(t.state).1
  {
  }

  lemma WatchedUndoes<S>(steps: seq<SagaStep<S>>, i: nat, t: Seen<S>)
    requires i < |steps|
    ensures UndoOne(Watched(steps)[i], t) == Seen(UndoOne(steps[i], t.state), t.actions + UndoAction(steps, i))
  {
    assert t.actions + [] == t.actions;
  }

  function Dones(k: nat): seq<Action> { seq(k, i requires 0 <= i < k => Did(i)) }

  function UndoAction<S>(steps: seq<SagaStep<S>>, i: nat): seq<Action>
    requires i < |steps|
  {
    if steps[i].undo.Some? then [Undid(i)] else []
  }

  /** The undos there are among the first k steps, last step first. */
  function Undos<S>(steps: seq<SagaStep<S>>, k: nat): seq<Action>
    requires k <= |steps|
  {
    if k == 0 then [] else UndoAction(steps, k - 1) + Undos(steps, k - 1)
  }

  lemma {:induction false} WatchedBefore<S>(steps: seq<SagaStep<S>>, s: S, k: nat)
    requires k <= |steps|
    ensures Before(Watched(steps), Seen(s, []), k) == Seen(Before(steps, s, k), Dones(k))
  {
    if k > 0 {
      WatchedBefore(steps, s, k - 1);
      WatchedDoes(steps, k - 1, Seen(Before(steps, s, k - 1), Dones(k - 1)));
      assert Dones(k) == Dones(k - 1) + [Did(k - 1)];
    }
  }

  /** w undoes what steps undo, and writes it down. */
  ghost predicate WritesUndo<S>(w: seq<SagaStep<Seen<S>>>, steps: seq<SagaStep<S>>, i: nat, t: Seen<S>)
    requires i < |steps| == |w|
  {
    UndoOne(w[i], t) == Seen(UndoOne(steps[i], t.state), t.actions + UndoAction(steps, i))
  }

  lemma Associative<T>(a: seq<T>, b: seq<T>, c: seq<T>)
    ensures (a + b) + c == a + (b + c)
  {
  }

  lemma {:induction false} UndoneSeen<S(!new)>(w: seq<SagaStep<Seen<S>>>, steps: seq<SagaStep<S>>, t: Seen<S>, k: nat)
    requires k <= |steps| == |w| && forall i, t | 0 <= i < |steps| :: WritesUndo(w, steps, i, t)
    ensures Undone(w, t, k) == Seen(Undone(steps, t.state, k), t.actions + Undos(steps, k))
    decreases k
  {
    if k == 0 {
      assert t.actions + [] == t.actions;
    } else {
      var u := UndoOne(w[k - 1], t);
      assert WritesUndo(w, steps, k - 1, t);
      UndoneSeen(w, steps, u, k - 1);
      var a, b := UndoAction(steps, k - 1), Undos(steps, k - 1);
      assert Undos(steps, k) == a + b;
      Associative(t.actions, a, b);
      assert Undone(w, t, k) == Undone(w, u, k - 1);
      assert Undone(steps, t.state, k) == Undone(steps, u.state, k - 1);
    }
  }

  lemma WatchedUndone<S(!new)>(steps: seq<SagaStep<S>>, t: Seen<S>, k: nat)
    requires k <= |steps|
    ensures Undone(Watched(steps), t, k) == Seen(Undone(steps, t.state, k), t.actions + Undos(steps, k))
  {
    forall i, t: Seen<S> | 0 <= i < |steps|
      ensures WritesUndo(Watched(steps), steps, i, t)
    {
      WatchedUndoes(steps, i, t);
    }
    UndoneSeen(Watched(steps), steps, t, k);
  }

  lemma WatchedSucceeds<S>(steps: seq<SagaStep<S>>, s: S, k: nat)
    requires k < |steps|
    ensures Succeeds(Watched(steps), Seen(s, []), k) == Succeeds(steps, s, k)
  {
    WatchedBefore(steps, s, k);
    WatchedDoes(steps, k, Seen(Before(steps, s, k), Dones(k)));
  }

  lemma {:induction false} WatchedFailure<S>(steps: seq<SagaStep<S>>, s: S, from: nat)
    requires from <= |steps|
    ensures Failure(Watched(steps), Seen(s, []), from) == Failure(steps, s, from)
    decreases |steps| - from
  {
    if from < |steps| {
      WatchedSucceeds(steps, s, from);
      WatchedFailure(steps, s, from + 1);
    }
  }

  /** Success performs every do once, in order. */
  lemma ActionsOfSuccess<S>(steps: seq<SagaStep<S>>, s: S)
    requires Failure(steps, s, 0) == None
    ensures Failure(Watched(steps), Seen(s, []), 0) == None
    ensures EndState(Watched(steps), Seen(s, [])) == Seen(EndState(steps, s), Dones(|steps|))
  {
    WatchedFailure(steps, s, 0);
    WatchedBefore(steps, s, |steps|);
  }

  /** Failure at step k performs the dos up to k, none after it, then the undos of the steps before
      k, in reverse, each once. */
  lemma ActionsOfFailure<S(!new)>(steps: seq<SagaStep<S>>, s: S, k: nat)
    requires Failure(steps, s, 0) == Some(k)
    ensures Failure(Watched(steps), Seen(s, []), 0) == Some(k)
    ensures EndState(Watched(steps), Seen(s, [])) == Seen(EndState(steps, s), Dones(k + 1) + Undos(steps, k))
  {
    var w, t0 := Watched(steps), Seen(s, []);
    WatchedFailure(steps, s, 0);
    EndsUndone(w, t0, k);
    EndsUndone(steps, s, k);
    WatchedBefore(steps, s, k + 1);
    WatchedUndone(steps, Before(w, t0, k + 1), k);
  }

  lemma EndsUndone<S>(steps: seq<SagaStep<S>>, s: S, k: nat)
    requires Failure(steps, s, 0) == Some(k)
    ensures EndState(steps, s) == Undone(steps, Before(steps, s, k + 1), k)
  {
  }

  // ----- Compensation -----

  /** clean(i, x): in x the effects of the first i steps stand and nothing else is left behind. Each
      step leads from clean to clean, a failing one leaving nothing behind; undoing step i removes its
      effect together with whatever later steps left. */
  ghost predicate Compensable<S(!new)>(steps: seq<SagaStep<S>>, clean: (int, S) -> bool) {
    forall i, x | 0 <= i < |steps| :: StepDoes(steps[i], clean, i, x) && StepUndoes(steps[i], clean, i, x)
  }

  ghost predicate StepDoes<S>(step: SagaStep<S>, clean: (int, S) -> bool, i: int, x: S) {
    clean(i, x) ==> clean(if step.do(x).1 then i + 1 else i, step.do(x).0)
  }

  ghost predicate StepUndoes<S>(step: SagaStep<S>, clean: (int, S) -> bool, i: int, x: S) {
    clean(i + 1, x) ==> clean(i, UndoOne(step, x))
  }

  /** Succeeding steps lead from one reached state to the next. */
  ghost predicate Forward<S(!new)>(steps: seq<SagaStep<S>>, reached: (int, S) -> bool) {
    forall i, x | 0 <= i < |steps| :: StepReaches(steps[i], reached, i, x)
  }

  ghost predicate StepReaches<S>(step: SagaStep<S>, reached: (int, S) -> bool, i: int, x: S) {
    reached(i, x) && step.do(x).1 ==> reached(i + 1, step.do(x).0)
  }

  lemma {:induction false} ReachedBefore<S(!new)>(steps: seq<SagaStep<S>>, s: S, reached: (int, S) -> bool, k: nat)
    requires Forward(steps, reached) && reached(0, s) && k <= |steps| && forall i | 0 <= i < k :: Succeeds(steps, s, i)
    ensures reached(k, Before(steps, s, k))
  {
    if k > 0 {
      ReachedBefore(steps, s, reached, k - 1);
      assert StepReaches(steps[k - 1], reached, k - 1, Before(steps, s, k - 1));
      assert Succeeds(steps, s, k - 1);
    }
  }

  lemma {:induction false} CleanUndone<S(!new)>(steps: seq<SagaStep<S>>, s: S, clean: (int, S) -> bool, k: nat)
    requires Compensable(steps, clean) && k <= |steps| && clean(k, s)
    ensures clean(0, Undone(steps, s, k))
  {
    if k > 0 {
      assert StepUndoes(steps[k - 1], clean, k - 1, s);
      CleanUndone(steps, UndoOne(steps[k - 1], s), clean, k - 1);
    }
  }

  /** A saga of compensable steps ends with all of them in effect or with none. */
  lemma Compensates<S(!new)>(steps: seq<SagaStep<S>>, s: S, clean: (int, S) -> bool)
    requires Compensable(steps, clean) && clean(0, s)
    ensures var o := SagaOutcome(steps, s); clean(if o.failedAt.None? then |steps| else 0, o.state)
  {
    forall i, x | 0 <= i < |steps|
      ensures StepReaches(steps[i], clean, i, x)
    {
      assert StepDoes(steps[i], clean, i, x);
    }
    match Failure(steps, s, 0)
    case None => ReachedBefore(steps, s, clean, |steps|);
    case Some(k) =>
      ReachedBefore(steps, s, clean, k);
      assert StepDoes(steps[k], clean, k, Before(steps, s, k));
      CleanUndone(steps, Before(steps, s, k + 1), clean, k);
  }

  /** In particular, when failing steps change nothing and each undo inverts its step, a failed saga
      restores the state it started from. */
  lemma Restores<S(!new)>(steps: seq<SagaStep<S>>, s: S)
    requires forall i, x: S | 0 <= i < |steps| :: !steps[i].do(x).1 ==> steps[i].do(x).0 == x
    requires forall i, x: S | 0 <= i < |steps| :: steps[i].do(x).1 ==> UndoOne(steps[i], steps[i].do(x).0) == x
    ensures SagaOutcome(steps, s).failedAt.Some? ==> SagaOutcome(steps, s).state == s
  {
    if Failure(steps, s, 0).Some? {
      var k := Failure(steps, s, 0).value;
      assert !Succeeds(steps, s, k);
      UnwindsTo(steps, s, k);
    }
  }

  lemma {:induction false} UnwindsTo<S(!new)>(steps: seq<SagaStep<S>>, s: S, k: nat)
    requires k <= |steps| && forall i | 0 <= i < k :: Succeeds(steps, s, i)
    requires forall i, x: S | 0 <= i < |steps| :: steps[i].do(x).1 ==> UndoOne(steps[i], steps[i].do(x).0) == x
    ensures Undone(steps, Before(steps, s, k), k) == s
  {
    if k > 0 {
      assert Succeeds(steps, s, k - 1);
      UnwindsTo(steps, s, k - 1);
    }
  }
}
