/** The two loop shapes of `cmd_meta_clear_image`, proved once for any loop
    body: a loop whose every round appends one draw, and a loop whose every
    round appends a block of draws or, when its round is skipped, none. */
module LoopProps {
  import opened MetaState
  import opened MetaOps

  // ---------------------------------------------------------------------
  // One draw per round

  /** Round `k`, from `x` to `r`: one draw satisfying `drew(_, k)` appended,
      and a record satisfying `at(_, k + 1)`. */
  ghost predicate OneDraw(x: World, r: World, at: (MetaVal, nat) -> bool, drew: (MetaVal, nat) -> bool, k: nat)
  {
    && Extends(x, r) && |r.draws| == |x.draws| + 1
    && drew(r.draws[|x.draws|], k)
    && at(r.meta, k + 1)
  }

  /** Every round `k` of `f` from a record satisfying `at(_, k)` appends one draw. */
  ghost predicate OneDrawSteps(f: (World, nat) -> World, at: (MetaVal, nat) -> bool, drew: (MetaVal, nat) -> bool)
  {
    forall x: World, k: nat {:trigger f(x, k)} :: at(x.meta, k) ==> OneDraw(x, f(x, k), at, drew, k)
  }

  /** `n` such rounds: `n` draws, draw `k` satisfying `drew(_, k)`, and a
      record satisfying `at(_, n)`. */
  lemma {:induction false} OneDrawLoop(f: (World, nat) -> World, at: (MetaVal, nat) -> bool, drew: (MetaVal, nat) -> bool,
                                       w: World, n: nat)
    requires OneDrawSteps(f, at, drew) && at(w.meta, 0)
    ensures var r := Loop(f, w, n);
            && Extends(w, r) && |r.draws| == |w.draws| + n
            && at(r.meta, n)
            && forall idx :: |w.draws| <= idx < |r.draws| ==> drew(r.draws[idx], idx - |w.draws|)
    decreases n
  {
    if n > 0 {
      var p := Loop(f, w, n - 1);
      var r := f(p, n - 1);
      OneDrawLoop(f, at, drew, w, n - 1);
      assert OneDraw(p, r, at, drew, n - 1);
      ExtendsTrans(w, p, r);
      forall idx | |w.draws| <= idx < |r.draws|
        ensures drew(r.draws[idx], idx - |w.draws|)
      {
        if idx < |p.draws| {
          assert r.draws[idx] == r.draws[..|p.draws|][idx];
        }
      }
    }
  }

  // ---------------------------------------------------------------------
  // A block of draws per round, or none

  /** The draws of the first `n` rounds: `per` for each round `skip` leaves in. */
  function Counted(skip: nat -> bool, per: nat, n: nat): (c: nat)
    ensures c <= n * per
    decreases n
  {
    if n == 0 then 0
    else
      assert n * per == (n - 1) * per + per;
      Counted(skip, per, n - 1) + (if skip(n - 1) then 0 else per)
  }

  /** When no round is skipped, every round counts `per`. */
  lemma {:induction false} CountedNone(skip: nat -> bool, per: nat, n: nat)
    requires forall i: nat :: i < n ==> !skip(i)
    ensures Counted(skip, per, n) == n * per
    decreases n
  {
    if n > 0 {
      CountedNone(skip, per, n - 1);
      assert n * per == (n - 1) * per + per;
    }
  }

  /** The `per` draws from index `from` on are those of round `i`: draw
      `from + j` satisfies `level(_, i, j)`. */
  ghost predicate Block(r: World, from: int, per: nat, level: (MetaVal, nat, nat) -> bool, i: nat)
  {
    && 0 <= from && from + per <= |r.draws|
    && forall idx :: from <= idx < from + per ==> level(r.draws[idx], i, idx - from)
  }

  /** Round `i` of rounds that started with `start` draws owns its block
      right after the draws of the rounds before it. */
  ghost predicate RoundBlock(r: World, start: nat, skip: nat -> bool, per: nat, level: (MetaVal, nat, nat) -> bool, i: nat)
  {
    Block(r, start + Counted(skip, per, i), per, level, i)
  }

  /** Every draw from index `from` on satisfies `kept`. */
  ghost predicate AllKept(r: World, from: nat, kept: MetaVal -> bool)
  {
    forall idx :: from <= idx < |r.draws| ==> kept(r.draws[idx])
  }

  /** Round `i`, from `x` to `r`: the logs only grew, by nothing when `skip`
      says so and by the block of round `i` otherwise; every new draw and
      the record satisfy `kept`. */
  ghost predicate BlockRound(x: World, r: World, kept: MetaVal -> bool, skip: nat -> bool, per: nat,
                             level: (MetaVal, nat, nat) -> bool, i: nat)
  {
    && Extends(x, r)
    && |r.draws| == |x.draws| + (if skip(i) then 0 else per)
    && kept(r.meta)
    && AllKept(r, |x.draws|, kept)
    && (!skip(i) ==> Block(r, |x.draws|, per, level, i))
  }

  /** Every round of `f` from a record satisfying `kept` is such a round. */
  ghost predicate BlockSteps(f: (World, nat) -> World, kept: MetaVal -> bool, skip: nat -> bool, per: nat,
                             level: (MetaVal, nat, nat) -> bool)
  {
    forall x: World, i: nat {:trigger f(x, i)} :: kept(x.meta) ==> BlockRound(x, f(x, i), kept, skip, per, level, i)
  }

  /** `n` such rounds: `Counted` draws, every one of them and the record
      satisfying `kept`. */
  lemma {:induction false} BlockLoopCount(f: (World, nat) -> World, kept: MetaVal -> bool, skip: nat -> bool, per: nat,
                                          level: (MetaVal, nat, nat) -> bool, w: World, n: nat)
    requires BlockSteps(f, kept, skip, per, level) && kept(w.meta)
    ensures var r := Loop(f, w, n);
            && Extends(w, r) && |r.draws| == |w.draws| + Counted(skip, per, n)
            && kept(r.meta) && AllKept(r, |w.draws|, kept)
    decreases n
  {
    if n > 0 {
      var p := Loop(f, w, n - 1);
      var r := f(p, n - 1);
      BlockLoopCount(f, kept, skip, per, level, w, n - 1);
      assert BlockRound(p, r, kept, skip, per, level, n - 1);
      ExtendsTrans(w, p, r);
      forall idx | |w.draws| <= idx < |r.draws|
        ensures kept(r.draws[idx])
      {
        if idx < |p.draws| {
          assert r.draws[idx] == r.draws[..|p.draws|][idx];
        }
      }
    }
  }

  /** Later draws leave a round's block in place. */
  lemma RoundBlockExtend(r1: World, r2: World, start: nat, skip: nat -> bool, per: nat,
                         level: (MetaVal, nat, nat) -> bool, i: nat)
    requires Extends(r1, r2) && RoundBlock(r1, start, skip, per, level, i)
    ensures RoundBlock(r2, start, skip, per, level, i)
  {
    var from := start + Counted(skip, per, i);
    forall idx | from <= idx < from + per
      ensures level(r2.draws[idx], i, idx - from)
    {
      assert r2.draws[idx] == r2.draws[..|r1.draws|][idx];
    }
  }

  /** The round that is not skipped owns the block it appends. */
  lemma RoundBlockLast(x: World, r: World, start: nat, kept: MetaVal -> bool, skip: nat -> bool, per: nat,
                       level: (MetaVal, nat, nat) -> bool, i: nat)
    requires BlockRound(x, r, kept, skip, per, level, i) && !skip(i)
    requires |x.draws| == start + Counted(skip, per, i)
    ensures RoundBlock(r, start, skip, per, level, i)
  {
  }

  /** `n` such rounds: every round `i` that is not skipped owns the block
      after the draws of the rounds before it. */
  lemma {:induction false} BlockLoopLevels(f: (World, nat) -> World, kept: MetaVal -> bool, skip: nat -> bool, per: nat,
                                           level: (MetaVal, nat, nat) -> bool, w: World, n: nat)
    requires BlockSteps(f, kept, skip, per, level) && kept(w.meta)
    ensures forall i: nat {:trigger RoundBlock(Loop(f, w, n), |w.draws|, skip, per, level, i)} :: i < n && !skip(i) ==>
              RoundBlock(Loop(f, w, n), |w.draws|, skip, per, level, i)
    decreases n
  {
    if n > 0 {
      var p := Loop(f, w, n - 1);
      var r := f(p, n - 1);
      BlockLoopLevels(f, kept, skip, per, level, w, n - 1);
      BlockLoopCount(f, kept, skip, per, level, w, n - 1);
      assert BlockRound(p, r, kept, skip, per, level, n - 1);
      forall i: nat | i < n && !skip(i)
        ensures RoundBlock(r, |w.draws|, skip, per, level, i)
      {
        if i < n - 1 {
          RoundBlockExtend(p, r, |w.draws|, skip, per, level, i);
        } else {
          RoundBlockLast(p, r, |w.draws|, kept, skip, per, level, i);
        }
      }
    }
  }
}
