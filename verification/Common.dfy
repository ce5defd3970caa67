/** Shared vocabulary. */
module Common {
  datatype Option<+T> = None | Some(value: T)

  function Max(x: nat, y: nat): nat { if x < y then y else x }

  function Min(x: nat, y: nat): nat { if x < y then x else y }

  /** The state after a sequence of events. */
  function Fold<S, E>(apply: (S, E) -> S, s: S, events: seq<E>): S {
    if events == [] then s else apply(Fold(apply, s, events[..|events| - 1]), events[|events| - 1])
  }
}
