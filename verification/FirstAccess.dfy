/** A lazily seeded store: a call that finds no entry awaits the seed and then sets the entry,
    whether or not another call has set it meanwhile. Every seeding makes a copy of its own. */
module FirstAccess {
  import opened Common

  /** All copies ever seeded; the entry is the one the next lookup finds. */
  datatype Site<S> = Site(copies: seq<S>, entry: Option<nat>)

  datatype Move<E> = Seeds | Acts(copy: nat, event: E)

  function Moved<S, E>(apply: (S, E) -> S, seed: S, site: Site<S>, m: Move<E>): Site<S> {
    match m
    case Seeds => Site(site.copies + [seed], Some(|site.copies|))
    case Acts(c, e) =>
      if c < |site.copies| then site.(copies := site.copies[c := apply(site.copies[c], e)]) else site
  }

  function MovedAll<S, E>(apply: (S, E) -> S, seed: S, moves: seq<Move<E>>): Site<S> {
    if moves == [] then Site([], None)
    else Moved(apply, seed, MovedAll(apply, seed, moves[..|moves| - 1]), moves[|moves| - 1])
  }

  function Seedings<E>(moves: seq<Move<E>>): nat {
    if moves == [] then 0 else Seedings(moves[..|moves| - 1]) + if moves[|moves| - 1].Seeds? then 1 else 0
  }

  /** What was done to one copy, in order. */
  function EventsOn<E>(c: nat, moves: seq<Move<E>>): seq<E> {
    if moves == [] then []
    else
      var before, last := EventsOn(c, moves[..|moves| - 1]), moves[|moves| - 1];
      if last.Acts? && last.copy == c then before + [last.event] else before
  }

  /** Everything that was done, in order. */
  function Events<E>(moves: seq<Move<E>>): seq<E> {
    if moves == [] then []
    else
      var before, last := Events(moves[..|moves| - 1]), moves[|moves| - 1];
      if last.Acts? then before + [last.event] else before
  }

  /** A seeding that found copy c as the entry. */
  ghost predicate ReplacesAt<E>(c: nat, moves: seq<Move<E>>, k: nat)
    requires k < |moves|
  {
    moves[k].Seeds? && Seedings(moves[..k]) == c + 1
  }

  ghost predicate Replaced<E>(c: nat, moves: seq<Move<E>>) { exists k | 0 <= k < |moves| :: ReplacesAt(c, moves, k) }

  /** Nothing is done to a copy that does not exist yet. */
  ghost predicate Lawful<E>(moves: seq<Move<E>>) {
    moves == [] ||
    var init, last := moves[..|moves| - 1], moves[|moves| - 1];
    Lawful(init) && (last.Acts? ==> last.copy < Seedings(init))
  }

  lemma {:induction false} EntryIsLast<S, E>(apply: (S, E) -> S, seed: S, moves: seq<Move<E>>)
    ensures var site, n := MovedAll(apply, seed, moves), Seedings(moves);
      |site.copies| == n && site.entry == if n == 0 then None else Some(n - 1)
  {
    if moves != [] { EntryIsLast(apply, seed, moves[..|moves| - 1]); }
  }

  lemma {:induction false} NothingOnLaterCopies<E>(c: nat, moves: seq<Move<E>>)
    requires Lawful(moves) && Seedings(moves) <= c
    ensures EventsOn(c, moves) == []
  {
    if moves != [] { NothingOnLaterCopies(c, moves[..|moves| - 1]); }
  }

  /** Each copy is the seed with what was done to that copy, and to no other. */
  lemma {:induction false} CopyIsHistory<S, E>(apply: (S, E) -> S, seed: S, moves: seq<Move<E>>, c: nat)
    requires Lawful(moves) && c < Seedings(moves)
    ensures |MovedAll(apply, seed, moves).copies| == Seedings(moves)
    ensures MovedAll(apply, seed, moves).copies[c] == Fold(apply, seed, EventsOn(c, moves))
  {
    var init, last := moves[..|moves| - 1], moves[|moves| - 1];
    EntryIsLast(apply, seed, moves);
    EntryIsLast(apply, seed, init);
    if c < Seedings(init) {
      CopyIsHistory(apply, seed, init, c);
    } else {
      NothingOnLaterCopies(c, init);
    }
  }

  lemma {:induction false} ReplacedIffLaterSeeding<E>(c: nat, moves: seq<Move<E>>)
    ensures Replaced(c, moves) <==> c + 1 < Seedings(moves)
  {
    if moves != [] {
      var init := moves[..|moves| - 1];
      ReplacedIffLaterSeeding(c, init);
      forall k | 0 <= k < |init| ensures ReplacesAt(c, moves, k) <==> ReplacesAt(c, init, k) {
        assert moves[..k] == init[..k];
      }
      if Replaced(c, init) {
        var k :| 0 <= k < |init| && ReplacesAt(c, init, k);
        assert ReplacesAt(c, moves, k);
      }
      if c + 1 == Seedings(init) && moves[|init|].Seeds? { assert ReplacesAt(c, moves, |init|); }
    }
  }

  lemma {:induction false} FewerOnOneCopy<E>(c: nat, moves: seq<Move<E>>)
    ensures |EventsOn(c, moves)| <= |Events(moves)|
    ensures EventsOn(c, moves) == Events(moves) <==> forall m <- moves :: m.Acts? ==> m.copy == c
  {
    if moves != [] {
      var init, last := moves[..|moves| - 1], moves[|moves| - 1];
      FewerOnOneCopy(c, init);
      assert moves == init + [last];
      if last.Acts? && last.copy == c {
        var some, all := EventsOn(c, moves), Events(moves);
        assert EventsOn(c, init) == some[..|some| - 1] && Events(init) == all[..|all| - 1];
      }
    }
  }

  lemma {:induction false} ActsOnSeeded<E>(moves: seq<Move<E>>, m: Move<E>)
    requires Lawful(moves) && m in moves && m.Acts?
    ensures m.copy < Seedings(moves)
  {
    var init, last := moves[..|moves| - 1], moves[|moves| - 1];
    assert moves == init + [last];
    if m in init { ActsOnSeeded(init, m); }
  }

  /** The entry is built by what was done to it; this is all that was ever done exactly when no seeding
      replaced a copy to which something was done, before or after. */
  lemma EntryIsBuiltByAllIff<S, E>(apply: (S, E) -> S, seed: S, moves: seq<Move<E>>)
    requires Lawful(moves) && Seedings(moves) > 0
    ensures var site, c := MovedAll(apply, seed, moves), Seedings(moves) - 1;
      && site.entry == Some(c) && |site.copies| == c + 1
      && site.copies[c] == Fold(apply, seed, EventsOn(c, moves))
      && (EventsOn(c, moves) == Events(moves) <==> forall m <- moves :: m.Acts? ==> !Replaced(m.copy, moves))
  {
    var c := Seedings(moves) - 1;
    EntryIsLast(apply, seed, moves);
    CopyIsHistory(apply, seed, moves, c);
    FewerOnOneCopy(c, moves);
    forall m | m in moves && m.Acts? ensures Replaced(m.copy, moves) <==> m.copy != c {
      ActsOnSeeded(moves, m);
      ReplacedIffLaterSeeding(m.copy, moves);
    }
  }
}
