/** parallel_reduce: tasks that split while they run, bodies that are reused or split off, and joins,
    in any order that the scheduler chooses. */
module ParallelReduce {
  import opened Completion

  /** The anonymous functions of the lambda interface: `body(range, v)` accumulates a range on top of
      `v`, `op` is the reduction and `id` its identity. */
  datatype Reduction<!E, !V> = Reduction(id: V, body: (seq<E>, V) -> V, op: (V, V) -> V)

  /** What the interface asks of them. */
  ghost predicate Lawful<E(!new), V(!new)>(f: Reduction<E, V>) {
    && (forall a, b, c {:trigger f.op(a, f.op(b, c))} :: f.op(f.op(a, b), c) == f.op(a, f.op(b, c)))
    && (forall a {:trigger f.op(f.id, a)} :: f.op(f.id, a) == a)
    && (forall a {:trigger f.op(a, f.id)} :: f.op(a, f.id) == a)
    && (forall s, v {:trigger f.body(s, v)} :: f.body(s, v) == f.op(v, f.body(s, f.id)))
    && Additive(f)
  }

  /** Running a range part by part is running all of it. */
  ghost predicate Additive<E(!new), V(!new)>(f: Reduction<E, V>) {
    && (forall s, t, v {:trigger f.body(s + t, v)} :: f.body(s + t, v) == f.body(t, f.body(s, v)))
    && (forall v {:trigger f.body([], v)} :: f.body([], v) == v)
  }

  /** lambda_reduce_body. */
  class LambdaReduceBody<E, V> {
    const f: Reduction<E, V>
    var myValue: V

    constructor (f: Reduction<E, V>)
      ensures this.f == f && myValue == f.id
    {
      this.f, myValue := f, f.id;
    }

    /** The splitting constructor: the new body starts from the identity, whatever `other` holds. */
    constructor Split(other: LambdaReduceBody<E, V>)
      ensures f == other.f && myValue == other.f.id
    {
      f, myValue := other.f, other.f.id;
    }

    method Run(range: seq<E>)
      modifies this
      ensures myValue == f.body(range, old(myValue))
    {
      myValue := f.body(range, myValue);
    }

    method Join(rhs: LambdaReduceBody<E, V>)
      modifies this
      ensures myValue == f.op(old(myValue), old(rhs.myValue))
    {
      myValue := f.op(myValue, rhs.myValue);
    }
  }

  // ---- the tasks ----

  /** A subtree of tasks that works on one body. A start task still has elements to run; a finish task
      waits for its left child, which has the same body, and for its right child. */
  datatype Task<E, V> =
    | Start(todo: seq<E>)
    | Finished
    | Finish(left: Task<E, V>, right: Right<E, V>)

  /** The right child has not started, works on the body of the finished left child, or on a body of
      its own in the zombie space, whose value is `value`. */
  datatype Right<E, V> =
    | Spawned(todo: seq<E>)
    | Reusing(task: Task<E, V>)
    | Zombie(task: Task<E, V>, value: V)

  /** One step of one task: it runs a part of its range, offers the rest of it, or ends; a right child
      starts; a finish task executes. */
  datatype Move =
    | RunPart(n: nat)
    | OfferWork(n: nat)
    | End
    | StartRight
    | ExecuteFinish
    | InLeft(move: Move)
    | InRight(move: Move)

  /** The subtree and the value of its body after a move, or None if the move is not possible. */
  function Step<E, V>(f: Reduction<E, V>, t: Task<E, V>, v: V, m: Move): Option<(Task<E, V>, V)>
    decreases m
  {
    match (m, t)
    case (RunPart(n), Start(todo)) =>
      if 0 < n <= |todo| then Some((Start(todo[n..]), f.body(todo[..n], v))) else None
    case (OfferWork(n), Start(todo)) =>
      if 0 < n < |todo| then Some((Finish(Start(todo[..n]), Spawned(todo[n..])), v)) else None
    case (End, Start(todo)) =>
      if todo == [] then Some((Finished, v)) else None
    case (StartRight, Finish(l, Spawned(todo))) =>
      // a right child that finds no body in its parent makes its own
      Some((Finish(l, if l.Finished? then Reusing(Start(todo)) else Zombie(Start(todo), f.id)), v))
    case (ExecuteFinish, Finish(Finished, Reusing(Finished))) => Some((Finished, v))
    case (ExecuteFinish, Finish(Finished, Zombie(Finished, w))) => Some((Finished, f.op(v, w)))
    case (InLeft(m'), Finish(l, r)) =>
      (match Step(f, l, v, m')
       case None => None
       case Some((l', v')) => Some((Finish(l', r), v')))
    case (InRight(m'), Finish(l, Reusing(r))) =>
      (match Step(f, r, v, m')
       case None => None
       case Some((r', v')) => Some((Finish(l, Reusing(r')), v')))
    case (InRight(m'), Finish(l, Zombie(r, w))) =>
      (match Step(f, r, w, m')
       case None => None
       case Some((r', w')) => Some((Finish(l, Zombie(r', w')), v)))
    case _ => None
  }

  // ---- the answer that a subtree is going to give ----

  /** What the subtree will have made of a body with value `v`. */
  function Answer<E, V>(f: Reduction<E, V>, t: Task<E, V>, v: V): V {
    match t
    case Start(todo) => f.body(todo, v)
    case Finished => v
    case Finish(l, Spawned(todo)) => f.body(todo, Answer(f, l, v))
    case Finish(l, Reusing(r)) => Answer(f, r, Answer(f, l, v))
    case Finish(l, Zombie(r, w)) => f.op(Answer(f, l, v), Answer(f, r, w))
  }

  /** A body is reused only once the left child is finished. */
  predicate Sound<E, V>(t: Task<E, V>) {
    match t
    case Start(_) => true
    case Finished => true
    case Finish(l, Spawned(_)) => Sound(l)
    case Finish(l, Reusing(r)) => l.Finished? && Sound(r)
    case Finish(l, Zombie(r, _)) => Sound(l) && Sound(r)
  }

  /** The move starts a right child whose left sibling has not finished. */
  predicate Steals<E, V>(t: Task<E, V>, m: Move)
    decreases m
  {
    match (m, t)
    case (StartRight, Finish(l, Spawned(_))) => !l.Finished?
    case (InLeft(m'), Finish(l, _)) => Steals(l, m')
    case (InRight(m'), Finish(_, Reusing(r))) => Steals(r, m')
    case (InRight(m'), Finish(_, Zombie(r, _))) => Steals(r, m')
    case _ => false
  }

  /** The move joins two bodies. */
  predicate Joins<E, V>(t: Task<E, V>, m: Move)
    decreases m
  {
    match (m, t)
    case (ExecuteFinish, Finish(_, Zombie(_, _))) => true
    case (InLeft(m'), Finish(l, _)) => Joins(l, m')
    case (InRight(m'), Finish(_, Reusing(r))) => Joins(r, m')
    case (InRight(m'), Finish(_, Zombie(r, _))) => Joins(r, m')
    case _ => false
  }

  /** The bodies in zombie spaces. */
  function Zombies<E, V>(t: Task<E, V>): nat {
    match t
    case Start(_) => 0
    case Finished => 0
    case Finish(l, Spawned(_)) => Zombies(l)
    case Finish(l, Reusing(r)) => Zombies(l) + Zombies(r)
    case Finish(l, Zombie(r, _)) => Zombies(l) + Zombies(r) + 1
  }

  /** A body is split off exactly when a right child starts before its left sibling has finished, and goes
      exactly when it is joined. */
  lemma {:induction false} StepBodies<E, V>(f: Reduction<E, V>, t: Task<E, V>, v: V, m: Move)
    requires Step(f, t, v, m).Some?
    ensures Zombies(Step(f, t, v, m).value.0) + (if Joins(t, m) then 1 else 0) == Zombies(t) + if Steals(t, m) then 1 else 0
    decreases m
  {
    match (m, t)
    case (InLeft(m'), Finish(l, r)) => StepBodies(f, l, v, m');
    case (InRight(m'), Finish(l, Reusing(r))) => StepBodies(f, r, v, m');
    case (InRight(m'), Finish(l, Zombie(r, w))) => StepBodies(f, r, w, m');
    case _ =>
  }

  /** No step changes the answer; the laws of the join are needed only when a right child starts early. */
  lemma {:induction false} StepKeepsAnswer<E(!new), V(!new)>(f: Reduction<E, V>, t: Task<E, V>, v: V, m: Move)
    requires Additive(f) && (Steals(t, m) ==> Lawful(f)) && Sound(t) && Step(f, t, v, m).Some?
    ensures var (t', v') := Step(f, t, v, m).value; Sound(t') && Answer(f, t', v') == Answer(f, t, v)
    decreases m
  {
    match (m, t)
    case (RunPart(n), Start(todo)) =>
      assert todo == todo[..n] + todo[n..];
    case (OfferWork(n), Start(todo)) =>
      assert todo == todo[..n] + todo[n..];
    case (StartRight, Finish(l, Spawned(todo))) =>
      if !l.Finished? {
        assert f.body(todo, Answer(f, l, v)) == f.op(Answer(f, l, v), f.body(todo, f.id));
      }
    case (InLeft(m'), Finish(l, r)) =>
      StepKeepsAnswer(f, l, v, m');
    case (InRight(m'), Finish(l, Reusing(r))) =>
      StepKeepsAnswer(f, r, v, m');
    case (InRight(m'), Finish(l, Zombie(r, w))) =>
      StepKeepsAnswer(f, r, w, m');
    case _ =>
  }

  /** The state after a sequence of moves. */
  function Run<E, V>(f: Reduction<E, V>, todo: seq<E>, moves: seq<Move>): Option<(Task<E, V>, V)> {
    if moves == [] then Some((Start(todo), f.id))
    else
      match Run(f, todo, moves[..|moves| - 1])
      case None => None
      case Some((t, v)) => Step(f, t, v, moves[|moves| - 1])
  }

  /** How many moves of a run start a right child early, and how many join two bodies. */
  function Counts<E, V>(f: Reduction<E, V>, todo: seq<E>, moves: seq<Move>): (nat, nat)
    requires Run(f, todo, moves).Some?
  {
    if moves == [] then (0, 0)
    else
      var init, m := moves[..|moves| - 1], moves[|moves| - 1];
      var t, (steals, joins) := Run(f, todo, init).value.0, Counts(f, todo, init);
      (steals + if Steals(t, m) then 1 else 0, joins + if Joins(t, m) then 1 else 0)
  }

  lemma {:induction false} RunBodies<E, V>(f: Reduction<E, V>, todo: seq<E>, moves: seq<Move>)
    requires Run(f, todo, moves).Some?
    ensures Zombies(Run(f, todo, moves).value.0) + Counts(f, todo, moves).1 == Counts(f, todo, moves).0
    decreases |moves|
  {
    if moves != [] {
      RunBodies(f, todo, moves[..|moves| - 1]);
      var (t, v) := Run(f, todo, moves[..|moves| - 1]).value;
      StepBodies(f, t, v, moves[|moves| - 1]);
    }
  }

  lemma {:induction false} RunKeepsAnswer<E(!new), V(!new)>(f: Reduction<E, V>, todo: seq<E>, moves: seq<Move>)
    requires Run(f, todo, moves).Some? && Additive(f) && (Counts(f, todo, moves).0 > 0 ==> Lawful(f))
    ensures var (t, v) := Run(f, todo, moves).value; Sound(t) && Answer(f, t, v) == f.body(todo, f.id)
    decreases |moves|
  {
    hide Lawful, Additive;
    if moves != [] {
      RunKeepsAnswer(f, todo, moves[..|moves| - 1]);
      var (t, v) := Run(f, todo, moves[..|moves| - 1]).value;
      StepKeepsAnswer(f, t, v, moves[|moves| - 1]);
    }
  }

  /** Whatever is split, stolen or joined when, a finished reduction has the sequential result; it has joined
      as many bodies as right children have started early, and if none has then nothing is asked of the join. */
  lemma {:induction false} SequentialResult<E(!new), V(!new)>(f: Reduction<E, V>, todo: seq<E>, moves: seq<Move>)
    requires Run(f, todo, moves).Some? && Run(f, todo, moves).value.0.Finished?
    requires Additive(f) && (Counts(f, todo, moves).0 > 0 ==> Lawful(f))
    ensures Run(f, todo, moves).value.1 == f.body(todo, f.id)
    ensures Counts(f, todo, moves).1 == Counts(f, todo, moves).0
  {
    RunKeepsAnswer(f, todo, moves);
    RunBodies(f, todo, moves);
  }

  // ---- every run can be brought to its end, and does end ----

  /** What is left to do; it decreases with every move. */
  function Effort<E, V>(t: Task<E, V>): nat {
    match t
    case Start(todo) => StartEffort(|todo|)
    case Finished => 0
    case Finish(l, Spawned(todo)) => Effort(l) + StartEffort(|todo|) + 2
    case Finish(l, Reusing(r)) => Effort(l) + Effort(r) + 1
    case Finish(l, Zombie(r, _)) => Effort(l) + Effort(r) + 1
  }

  function StartEffort(n: nat): nat {
    if n == 0 then 1 else 5 * n - 3
  }

  lemma {:induction false} StepEnds<E, V>(f: Reduction<E, V>, t: Task<E, V>, v: V, m: Move)
    requires Step(f, t, v, m).Some?
    ensures Effort(Step(f, t, v, m).value.0) < Effort(t)
    decreases m
  {
    match (m, t)
    case (InLeft(m'), Finish(l, r)) => StepEnds(f, l, v, m');
    case (InRight(m'), Finish(l, Reusing(r))) => StepEnds(f, r, v, m');
    case (InRight(m'), Finish(l, Zombie(r, w))) => StepEnds(f, r, w, m');
    case _ =>
  }

  /** An unfinished subtree can always do a step. */
  lemma {:induction false} CanStep<E, V>(f: Reduction<E, V>, t: Task<E, V>, v: V) returns (m: Move)
    requires !t.Finished?
    ensures Step(f, t, v, m).Some?
    decreases t
  {
    match t
    case Start(todo) =>
      m := if todo == [] then End else RunPart(1);
    case Finish(l, Spawned(_)) =>
      m := StartRight;
    case Finish(l, Reusing(r)) =>
      if !l.Finished? {
        var m' := CanStep(f, l, v);
        m := InLeft(m');
      } else if !r.Finished? {
        var m' := CanStep(f, r, v);
        m := InRight(m');
      } else {
        m := ExecuteFinish;
      }
    case Finish(l, Zombie(r, w)) =>
      if !l.Finished? {
        var m' := CanStep(f, l, v);
        m := InLeft(m');
      } else if !r.Finished? {
        var m' := CanStep(f, r, w);
        m := InRight(m');
      } else {
        m := ExecuteFinish;
      }
  }
}
