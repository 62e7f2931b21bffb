/** A value that may be missing, and the error numbers. */
module Prelude {

  datatype Option<T> = None | Some(value: T) {
    function GetOr(default: T): T {
      match this
      case Some(v) => v
      case None => default
    }
  }

  const ENOENT := 2
  const EFAULT := 14
  const EINVAL := 22
  const EALREADY := 114
}

/** Runs of a state machine: a step for each action of a schedule. */
module Runs {

  /** The state after a schedule, from state `s`. */
  function From<S, A>(step: (S, A) -> S, s: S, schedule: seq<A>): S {
    if schedule == [] then s
    else step(From(step, s, schedule[..|schedule| - 1]), schedule[|schedule| - 1])
  }

  lemma Snoc<S, A>(step: (S, A) -> S, s: S, schedule: seq<A>, act: A)
    ensures From(step, s, schedule + [act]) == step(From(step, s, schedule), act)
  {
    assert (schedule + [act])[..|schedule|] == schedule;
  }

  lemma {:induction false} Append<S, A>(step: (S, A) -> S, s: S, first: seq<A>, second: seq<A>)
    ensures From(step, s, first + second) == From(step, From(step, s, first), second)
  {
    var both := first + second;
    if second == [] {
      assert both == first;
    } else {
      assert both[..|both| - 1] == first + second[..|second| - 1];
      Append(step, s, first, second[..|second| - 1]);
    }
  }

  lemma Cons<S, A>(step: (S, A) -> S, s: S, act: A, rest: seq<A>)
    ensures From(step, s, [act] + rest) == From(step, step(s, act), rest)
  {
    assert [act][..0] == [];
    Append(step, s, [act], rest);
  }

  lemma Two<S, A>(step: (S, A) -> S, s: S, w: A, x: A)
    ensures From(step, s, [w, x]) == step(step(s, w), x)
  {
    assert From(step, s, []) == s && [w, x][..1] == [w] && [w][..0] == [];
  }

  lemma Four<S, A>(step: (S, A) -> S, s: S, w: A, x: A, y: A, z: A)
    ensures From(step, s, [w, x, y, z]) == step(step(step(step(s, w), x), y), z)
  {
    Append(step, s, [w, x], [y, z]);
    assert [w, x] + [y, z] == [w, x, y, z];
    Two(step, s, w, x);
    Two(step, step(step(s, w), x), y, z);
  }
}
