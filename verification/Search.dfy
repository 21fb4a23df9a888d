/** The branch-and-bound search over whole placements (src/engine_scheduling.cpp:715-795).
    The search knows a placement problem only through its candidate lists, its acceptance test,
    its score and its tie-break; `Ranking` and `Planning` supply those. */
module Search {
  import opened Prelude

  const INT64_MIN: int := -0x8000_0000_0000_0000

  /** One eligible resource of one requirement, with its additive factor values. */
  datatype Candidate = Candidate(
    id: U64, slots: U32, exclusive: bool, additive: seq<int>, partial: int)

  type Selection = seq<Candidate>

  datatype Space = Space(
    choices: seq<seq<Candidate>>,
    accept: Selection -> bool,
    raw: Selection -> int,
    tie: Selection -> seq<int>,
    bound: int,
    maxEvaluated: nat,
    maxRanked: nat)

  datatype Ranked = Ranked(selection: Selection, raw: int, tie: seq<int>)

  datatype Outcome = Outcome(ranked: seq<Ranked>, evaluations: nat, truncated: bool, best: int)

  const EMPTY_OUTCOME := Outcome([], 0, false, INT64_MIN)

  predicate Better(left: Ranked, right: Ranked) {
    if left.raw != right.raw then left.raw > right.raw else LexLess(left.tie, right.tie)
  }

  function Rank(sp: Space, sel: Selection): Ranked {
    Ranked(sel, sp.raw(sel), sp.tie(sel))
  }

  function SumPartial(sel: Selection): int {
    if sel == [] then 0 else SumPartial(sel[..|sel| - 1]) + sel[|sel| - 1].partial
  }

  /** The best additive score the requirements from `i` on can still contribute. */
  function RemainingMax(choices: seq<seq<Candidate>>, i: nat): int
    requires i <= |choices|
    decreases |choices| - i
  {
    if i == |choices| then 0
    else RemainingMax(choices, i + 1) + (if choices[i] == [] then 0 else choices[i][0].partial)
  }

  /** Index of the entry the scan keeps as worst, looking at `ranked[k..]` with `w` so far. */
  function WorstFrom(ranked: seq<Ranked>, k: nat, w: nat): (r: nat)
    requires w < |ranked| && k <= |ranked|
    ensures r < |ranked|
    decreases |ranked| - k
  {
    if k == |ranked| then w
    else WorstFrom(ranked, k + 1, if Better(ranked[w], ranked[k]) then k else w)
  }

  /** Keeps at most `limit` ranked entries. With `limit == 0` the source dereferences the end of an
      empty list; every result below asks for `limit >= 1`. */
  function Keep(ranked: seq<Ranked>, limit: nat, c: Ranked): seq<Ranked> {
    if |ranked| < limit then ranked + [c]
    else if ranked == [] then ranked
    else
      var w := WorstFrom(ranked, 0, 0);
      if Better(c, ranked[w]) then ranked[w := c] else ranked
  }

  function Leaf(sp: Space, sel: Selection, o: Outcome): Outcome {
    var counted := o.(evaluations := o.evaluations + 1);
    if !sp.accept(sel) then counted
    else
      var c := Rank(sp, sel);
      counted.(best := Max(o.best, c.raw), ranked := Keep(o.ranked, sp.maxRanked, c))
  }

  /** The recursive search as a function of the outcome so far. */
  function Explore(sp: Space, index: nat, partial: int, current: Selection, o: Outcome): Outcome
    requires index <= |sp.choices|
    decreases |sp.choices| - index, 1, 0
  {
    if o.truncated then o
    else if o.evaluations >= sp.maxEvaluated then o.(truncated := true)
    else if index == |sp.choices| then Leaf(sp, current, o)
    else ExploreFrom(sp, index, 0, partial, current, o)
  }

  function ExploreFrom(sp: Space, index: nat, k: nat, partial: int, current: Selection, o: Outcome): Outcome
    requires index < |sp.choices| && k <= |sp.choices[index]|
    decreases |sp.choices| - index, 0, |sp.choices[index]| - k
  {
    if k == |sp.choices[index]| || Pruned(sp, index, k, partial, o.best) then o
    else
      var c := sp.choices[index][k];
      var o' := Explore(sp, index + 1, partial + c.partial, current + [c], o);
      if o'.truncated then o' else ExploreFrom(sp, index, k + 1, partial, current, o')
  }

  predicate Pruned(sp: Space, index: nat, k: nat, partial: int, best: int)
    requires index < |sp.choices| && k < |sp.choices[index]|
  {
    partial + sp.choices[index][k].partial + RemainingMax(sp.choices, index + 1) + sp.bound < best
  }

  // ---------------------------------------------------------------- what the search promises

  /** A choice of one candidate for every requirement. */
  ghost predicate Full(sp: Space, sel: Selection) {
    |sel| == |sp.choices| && forall i :: 0 <= i < |sel| ==> sel[i] in sp.choices[i]
  }

  /** A prefix of a full selection. */
  ghost predicate Partial(sp: Space, sel: Selection) {
    |sel| <= |sp.choices| && forall i :: 0 <= i < |sel| ==> sel[i] in sp.choices[i]
  }

  ghost predicate Valid(sp: Space, sel: Selection) {
    Full(sp, sel) && sp.accept(sel)
  }

  /** Candidate lists are in descending order of partial score. */
  ghost predicate Descending(choices: seq<seq<Candidate>>) {
    forall i, j, k :: 0 <= i < |choices| && 0 <= j <= k < |choices[i]| ==>
      choices[i][k].partial <= choices[i][j].partial
  }

  /** `bound` covers whatever a valid selection scores beyond its partial scores. */
  ghost predicate Admissible(sp: Space) {
    forall sel {:trigger sp.raw(sel)} :: Valid(sp, sel) ==>
      INT64_MIN <= sp.raw(sel) <= SumPartial(sel) + sp.bound
  }

  ghost predicate WellPosed(sp: Space) {
    Descending(sp.choices) && Admissible(sp) && sp.maxRanked >= 1
  }

  /** Some ranked entry is at least as good as `r`. */
  ghost predicate Covers(ranked: seq<Ranked>, r: Ranked) {
    exists i :: 0 <= i < |ranked| && !Better(r, ranked[i])
  }

  /** Every entry is a valid selection with its own score, and `best` is the best score of them. */
  ghost predicate Sound(sp: Space, o: Outcome) {
    && (forall i :: 0 <= i < |o.ranked| ==>
          Valid(sp, o.ranked[i].selection) && o.ranked[i] == Rank(sp, o.ranked[i].selection)
          && o.ranked[i].raw <= o.best)
    && INT64_MIN <= o.best
    && (o.best > INT64_MIN ==> exists i :: 0 <= i < |o.ranked| && o.ranked[i].raw == o.best)
  }

  /** Selections that take `current` and then a candidate at position `k` or later. */
  ghost predicate Below(sp: Space, current: Selection, k: nat, sel: Selection)
    requires |current| < |sp.choices|
  {
    Valid(sp, sel) && current <= sel
    && exists j :: k <= j < |sp.choices[|current|]| && sel[|current|] == sp.choices[|current|][j]
  }

  ghost predicate CoversAll(sp: Space, current: Selection, o: Outcome) {
    forall sel :: Valid(sp, sel) && current <= sel ==> Covers(o.ranked, Rank(sp, sel))
  }

  ghost predicate CoversBelow(sp: Space, current: Selection, k: nat, o: Outcome)
    requires |current| < |sp.choices|
  {
    forall sel :: Below(sp, current, k, sel) ==> Covers(o.ranked, Rank(sp, sel))
  }

  /** Whatever was covered stays covered. */
  ghost predicate Grows(before: seq<Ranked>, after: seq<Ranked>) {
    forall r :: Covers(before, r) ==> Covers(after, r)
  }

  lemma NotBetterTransitive(a: Ranked, b: Ranked, c: Ranked)
    requires !Better(a, b) && !Better(b, c)
    ensures !Better(a, c)
  {
    if a.raw == b.raw == c.raw && LexLess(a.tie, c.tie) {
      LexTotal(a.tie, b.tie);
      LexTotal(b.tie, c.tie);
      if LexLess(b.tie, a.tie) {
        LexTransitive(b.tie, a.tie, c.tie);
      }
    }
  }

  lemma BetterAsymmetric(a: Ranked, b: Ranked)
    requires Better(a, b)
    ensures !Better(b, a)
  {
    if a.raw == b.raw && LexLess(b.tie, a.tie) {
      LexTransitive(a.tie, b.tie, a.tie);
      LexIrreflexive(a.tie);
    }
  }

  /** Replacing an entry by a better one, or appending, loses no coverage. */
  lemma KeepGrows(ranked: seq<Ranked>, limit: nat, c: Ranked)
    ensures Grows(ranked, Keep(ranked, limit, c))
  {
    var after := Keep(ranked, limit, c);
    forall r | Covers(ranked, r) ensures Covers(after, r) {
      var i :| 0 <= i < |ranked| && !Better(r, ranked[i]);
      if after[i] != ranked[i] {
        BetterAsymmetric(c, ranked[i]);
        NotBetterTransitive(r, ranked[i], c);
      }
      assert !Better(r, after[i]);
    }
  }

  lemma {:induction false} WorstIsWorst(ranked: seq<Ranked>, k: nat, w: nat)
    requires w < |ranked| && k <= |ranked|
    requires forall i :: 0 <= i < k ==> !Better(ranked[w], ranked[i])
    ensures var r := WorstFrom(ranked, k, w);
            forall i :: 0 <= i < |ranked| ==> !Better(ranked[r], ranked[i])
    decreases |ranked| - k
  {
    if k < |ranked| {
      if Better(ranked[w], ranked[k]) {
        BetterAsymmetric(ranked[w], ranked[k]);
        forall i | 0 <= i < k + 1 ensures !Better(ranked[k], ranked[i]) {
          if i < k {
            NotBetterTransitive(ranked[k], ranked[w], ranked[i]);
          } else {
            LexIrreflexive(ranked[k].tie);
          }
        }
        WorstIsWorst(ranked, k + 1, k);
      } else {
        WorstIsWorst(ranked, k + 1, w);
      }
    }
  }

  /** The entry just offered is covered afterwards. */
  lemma KeepCovers(ranked: seq<Ranked>, limit: nat, c: Ranked)
    requires limit >= 1
    ensures Covers(Keep(ranked, limit, c), c)
  {
    LexIrreflexive(c.tie);
    var after := Keep(ranked, limit, c);
    if |ranked| < limit {
      assert !Better(c, after[|ranked|]);
    } else {
      var w := WorstFrom(ranked, 0, 0);
      assert !Better(c, after[w]);
    }
  }

  lemma LeafSound(sp: Space, sel: Selection, o: Outcome)
    requires WellPosed(sp) && Sound(sp, o) && Full(sp, sel)
    ensures Sound(sp, Leaf(sp, sel, o))
    ensures Grows(o.ranked, Leaf(sp, sel, o).ranked)
    ensures sp.accept(sel) ==> Covers(Leaf(sp, sel, o).ranked, Rank(sp, sel))
  {
    if sp.accept(sel) {
      var c := Rank(sp, sel);
      KeepGrows(o.ranked, sp.maxRanked, c);
      KeepCovers(o.ranked, sp.maxRanked, c);
      LeafKeepsBest(sp, sel, o);
    }
  }

  /** Keeping a bounded list never loses an entry of the best score seen. */
  lemma LeafKeepsBest(sp: Space, sel: Selection, o: Outcome)
    requires WellPosed(sp) && Sound(sp, o) && Valid(sp, sel)
    ensures Sound(sp, Leaf(sp, sel, o))
  {
    var c := Rank(sp, sel);
    var o' := Leaf(sp, sel, o);
    assert INT64_MIN <= sp.raw(sel);
    if |o.ranked| < sp.maxRanked {
      assert o'.ranked[|o.ranked|] == c;
      if c.raw <= o.best && o.best > INT64_MIN {
        var i :| 0 <= i < |o.ranked| && o.ranked[i].raw == o.best;
        assert o'.ranked[i].raw == o'.best;
      }
    } else {
      var w := WorstFrom(o.ranked, 0, 0);
      if o'.best > INT64_MIN {
        if c.raw > o.best {
          assert Better(c, o.ranked[w]);
          assert o'.ranked[w].raw == o'.best;
        } else {
          var i :| 0 <= i < |o.ranked| && o.ranked[i].raw == o.best;
          if o'.ranked[i] != o.ranked[i] {
            assert i == w && c.raw >= o.ranked[w].raw;
          }
          assert o'.ranked[i].raw == o'.best;
        }
      }
    }
  }

  lemma {:induction false} SumPartialAppend(sel: Selection, c: Candidate)
    ensures SumPartial(sel + [c]) == SumPartial(sel) + c.partial
  {
    assert (sel + [c])[..|sel|] == sel;
  }

  /** No completion of a prefix gains more than `RemainingMax`. */
  lemma {:induction false} CompletionBound(sp: Space, sel: Selection, i: nat)
    requires Descending(sp.choices) && Full(sp, sel) && i <= |sel|
    ensures SumPartial(sel) <= SumPartial(sel[..i]) + RemainingMax(sp.choices, i)
    decreases |sel| - i
  {
    if i == |sel| {
      assert sel[..i] == sel;
    } else {
      CompletionBound(sp, sel, i + 1);
      assert sel[..i + 1] == sel[..i] + [sel[i]];
      SumPartialAppend(sel[..i], sel[i]);
      assert sel[i] in sp.choices[i];
      var j :| 0 <= j < |sp.choices[i]| && sel[i] == sp.choices[i][j];
      assert sp.choices[i][j].partial <= sp.choices[i][0].partial;
    }
  }

  /** A selection through candidate `j` scores at most the pruning expression of any earlier `k`. */
  lemma SelectionBound(sp: Space, current: Selection, k: nat, j: nat, sel: Selection)
    requires Descending(sp.choices) && Admissible(sp) && Valid(sp, sel) && current <= sel
    requires |current| < |sp.choices| && k <= j < |sp.choices[|current|]|
    requires sel[|current|] == sp.choices[|current|][j]
    ensures sp.raw(sel) <= SumPartial(current) + sp.choices[|current|][k].partial
                           + RemainingMax(sp.choices, |current| + 1) + sp.bound
  {
    var n := |current|;
    CompletionBound(sp, sel, n + 1);
    assert sel[..n + 1] == current + [sel[n]];
    SumPartialAppend(current, sel[n]);
  }

  /** The `break`: once candidate `k` is pruned, no selection from `k` on beats the best score. */
  lemma PruningIsSafe(sp: Space, k: nat, current: Selection, o: Outcome)
    requires WellPosed(sp) && Sound(sp, o)
    requires |current| < |sp.choices| && k < |sp.choices[|current|]|
    requires Pruned(sp, |current|, k, SumPartial(current), o.best)
    ensures CoversBelow(sp, current, k, o)
  {
    forall sel | Below(sp, current, k, sel) ensures Covers(o.ranked, Rank(sp, sel)) {
      var j :| k <= j < |sp.choices[|current|]| && sel[|current|] == sp.choices[|current|][j];
      SelectionBound(sp, current, k, j, sel);
      BelowBestIsCovered(sp, sel, o);
    }
  }

  lemma BelowBestIsCovered(sp: Space, sel: Selection, o: Outcome)
    requires Sound(sp, o) && Admissible(sp) && Valid(sp, sel) && sp.raw(sel) < o.best
    ensures Covers(o.ranked, Rank(sp, sel))
  {
    assert INT64_MIN <= sp.raw(sel);
    var i :| 0 <= i < |o.ranked| && o.ranked[i].raw == o.best;
    assert !Better(Rank(sp, sel), o.ranked[i]);
  }

  lemma {:induction false} ExploreCorrect(sp: Space, index: nat, partial: int, current: Selection, o: Outcome)
    requires WellPosed(sp) && Sound(sp, o)
    requires |current| == index && Partial(sp, current) && partial == SumPartial(current)
    ensures var o' := Explore(sp, index, partial, current, o);
            Sound(sp, o') && Grows(o.ranked, o'.ranked)
            && (!o'.truncated ==> CoversAll(sp, current, o'))
    decreases |sp.choices| - index, 1, 0
  {
    if !o.truncated && o.evaluations < sp.maxEvaluated {
      if index == |sp.choices| {
        LeafSound(sp, current, o);
        forall sel | Valid(sp, sel) && current <= sel
          ensures Covers(Leaf(sp, current, o).ranked, Rank(sp, sel))
        {
          assert sel == current;
        }
      } else {
        ExploreFromCorrect(sp, index, 0, partial, current, o);
        var o' := ExploreFrom(sp, index, 0, partial, current, o);
        if !o'.truncated {
          forall sel | Valid(sp, sel) && current <= sel ensures Covers(o'.ranked, Rank(sp, sel)) {
            assert sel[index] in sp.choices[index];
            assert Below(sp, current, 0, sel);
          }
        }
      }
    }
  }

  lemma {:induction false} ExploreFromCorrect(
    sp: Space, index: nat, k: nat, partial: int, current: Selection, o: Outcome)
    requires WellPosed(sp) && Sound(sp, o)
    requires |current| == index < |sp.choices| && k <= |sp.choices[index]|
    requires Partial(sp, current) && partial == SumPartial(current)
    ensures var o' := ExploreFrom(sp, index, k, partial, current, o);
            Sound(sp, o') && Grows(o.ranked, o'.ranked)
            && (!o'.truncated ==> CoversBelow(sp, current, k, o'))
    decreases |sp.choices| - index, 0, |sp.choices[index]| - k
  {
    hide WellPosed, Sound, Grows, Covers, CoversAll, CoversBelow, Below, Partial, SumPartial, Explore, Pruned;
    GrowsFrom(o.ranked);
    if k == |sp.choices[index]| {
      NothingBelow(sp, current, o);
    } else {
      if Pruned(sp, index, k, partial, o.best) {
        PruningIsSafe(sp, k, current, o);
      } else {
        var c := sp.choices[index][k];
        SumPartialAppend(current, c);
        PartialAppend(sp, current, c);
        var o1 := Explore(sp, index + 1, partial + c.partial, current + [c], o);
        ExploreCorrect(sp, index + 1, partial + c.partial, current + [c], o);
        if !o1.truncated {
          ExploreFromCorrect(sp, index, k + 1, partial, current, o1);
          var o2 := ExploreFrom(sp, index, k + 1, partial, current, o1);
          GrowsOn(o.ranked, o1.ranked, o2.ranked);
          if !o2.truncated {
            TakeThenSkip(sp, current, k, o1, o2);
          }
        }
      }
    }
  }

  lemma PartialAppend(sp: Space, current: Selection, c: Candidate)
    requires Partial(sp, current) && |current| < |sp.choices| && c in sp.choices[|current|]
    ensures Partial(sp, current + [c])
  {
  }

  lemma GrowsFrom(ranked: seq<Ranked>)
    ensures Grows(ranked, ranked)
  {
  }

  lemma GrowsOn(a: seq<Ranked>, b: seq<Ranked>, c: seq<Ranked>)
    requires Grows(a, b) && Grows(b, c)
    ensures Grows(a, c)
  {
  }

  lemma NothingBelow(sp: Space, current: Selection, o: Outcome)
    requires |current| < |sp.choices|
    ensures CoversBelow(sp, current, |sp.choices[|current|]|, o)
  {
  }

  /** What takes candidate `k` and what skips it is all there is. */
  lemma TakeThenSkip(sp: Space, current: Selection, k: nat, o1: Outcome, o2: Outcome)
    requires |current| < |sp.choices| && k < |sp.choices[|current|]|
    requires CoversAll(sp, current + [sp.choices[|current|][k]], o1) && Grows(o1.ranked, o2.ranked)
    requires CoversBelow(sp, current, k + 1, o2)
    ensures CoversBelow(sp, current, k, o2)
  {
    hide Covers, Below;
    forall sel | Below(sp, current, k, sel) ensures Covers(o2.ranked, Rank(sp, sel)) {
      TakeOrSkip(sp, current, k, sel);
      BelowIsValid(sp, current, k, sel);
    }
  }

  lemma BelowIsValid(sp: Space, current: Selection, k: nat, sel: Selection)
    requires |current| < |sp.choices| && Below(sp, current, k, sel)
    ensures Valid(sp, sel)
  {
  }

  lemma TakeOrSkip(sp: Space, current: Selection, k: nat, sel: Selection)
    requires |current| < |sp.choices| && k < |sp.choices[|current|]| && Below(sp, current, k, sel)
    ensures current + [sp.choices[|current|][k]] <= sel || Below(sp, current, k + 1, sel)
  {
    var n := |current|;
    var j :| k <= j < |sp.choices[n]| && sel[n] == sp.choices[n][j];
    if j == k {
      assert sel[..n + 1] == current + [sel[n]];
      assert current + [sel[n]] == sel[..n + 1];
    }
  }

  function Run(sp: Space): Outcome {
    Explore(sp, 0, 0, [], EMPTY_OUTCOME)
  }

  // ---------------------------------------------------------------- when nothing is cut short

  /** How many full selections the lists from `i` on have. */
  function Selections(choices: seq<seq<Candidate>>, i: nat): nat
    requires i <= |choices|
    decreases |choices| - i
  {
    if i == |choices| then 1 else |choices[i]| * Selections(choices, i + 1)
  }

  lemma {:induction false} SelectionsExist(choices: seq<seq<Candidate>>, i: nat)
    requires i <= |choices| && [] !in choices
    ensures Selections(choices, i) >= 1
    decreases |choices| - i
  {
    if i < |choices| {
      SelectionsExist(choices, i + 1);
      assert choices[i] in choices;
      MulMonotone(1, 1, |choices[i]|);
      MulMonotone(|choices[i]|, 1, Selections(choices, i + 1));
    }
  }

  lemma {:induction false} ExploreCompletes(sp: Space, index: nat, partial: int, current: Selection, o: Outcome)
    requires index <= |sp.choices| && [] !in sp.choices && !o.truncated
    requires o.evaluations + Selections(sp.choices, index) <= sp.maxEvaluated
    ensures var t := Explore(sp, index, partial, current, o);
            !t.truncated && t.evaluations <= o.evaluations + Selections(sp.choices, index)
    decreases |sp.choices| - index, 1, 0
  {
    SelectionsExist(sp.choices, index);
    if index < |sp.choices| {
      ExploreFromCompletes(sp, index, 0, partial, current, o);
    }
  }

  lemma {:induction false} ExploreFromCompletes(
    sp: Space, index: nat, k: nat, partial: int, current: Selection, o: Outcome)
    requires index < |sp.choices| && k <= |sp.choices[index]| && [] !in sp.choices && !o.truncated
    requires o.evaluations + (|sp.choices[index]| - k) * Selections(sp.choices, index + 1) <= sp.maxEvaluated
    ensures var t := ExploreFrom(sp, index, k, partial, current, o);
            !t.truncated
            && t.evaluations <= o.evaluations + (|sp.choices[index]| - k) * Selections(sp.choices, index + 1)
    decreases |sp.choices| - index, 0, |sp.choices[index]| - k
  {
    var below := Selections(sp.choices, index + 1);
    MulMonotone(below, 0, |sp.choices[index]| - k);
    if k < |sp.choices[index]| && !Pruned(sp, index, k, partial, o.best) {
      var c := sp.choices[index][k];
      OneFewer(|sp.choices[index]| - k, below);
      ExploreCompletes(sp, index + 1, partial + c.partial, current + [c], o);
      var t := Explore(sp, index + 1, partial + c.partial, current + [c], o);
      ExploreFromCompletes(sp, index, k + 1, partial, current, t);
    }
  }

  lemma OneFewer(n: nat, m: nat)
    requires n >= 1
    ensures n * m == m + (n - 1) * m && (n - 1) * m >= 0
  {
  }

  /** A search with no more full selections than it may evaluate is not cut short. */
  lemma SmallIsComplete(sp: Space)
    requires [] !in sp.choices && Selections(sp.choices, 0) <= sp.maxEvaluated
    ensures !Run(sp).truncated
  {
    ExploreCompletes(sp, 0, 0, [], EMPTY_OUTCOME);
  }

  /** The head of the ranking after the final sort: an entry no other entry beats. */
  function HeadFrom(ranked: seq<Ranked>, k: nat, h: nat): (r: nat)
    requires h < |ranked| && k <= |ranked|
    ensures r < |ranked|
    decreases |ranked| - k
  {
    if k == |ranked| then h
    else HeadFrom(ranked, k + 1, if Better(ranked[k], ranked[h]) then k else h)
  }

  function Head(ranked: seq<Ranked>): Ranked
    requires ranked != []
  {
    ranked[HeadFrom(ranked, 0, 0)]
  }

  lemma {:induction false} HeadIsBest(ranked: seq<Ranked>, k: nat, h: nat)
    requires h < |ranked| && k <= |ranked|
    requires forall i :: 0 <= i < k ==> !Better(ranked[i], ranked[h])
    ensures var r := HeadFrom(ranked, k, h);
            forall i :: 0 <= i < |ranked| ==> !Better(ranked[i], ranked[r])
    decreases |ranked| - k
  {
    if k < |ranked| {
      if Better(ranked[k], ranked[h]) {
        BetterAsymmetric(ranked[k], ranked[h]);
        forall i | 0 <= i < k + 1 ensures !Better(ranked[i], ranked[k]) {
          if i < k {
            NotBetterTransitive(ranked[i], ranked[h], ranked[k]);
          } else {
            LexIrreflexive(ranked[k].tie);
          }
        }
        HeadIsBest(ranked, k + 1, k);
      } else {
        HeadIsBest(ranked, k + 1, h);
      }
    }
  }

  /** Branch-and-bound is exact: an untruncated search that keeps at least one entry ends with a valid
      selection that no valid selection beats, and comes back empty only when there is none. */
  lemma SearchIsExact(sp: Space)
    requires WellPosed(sp)
    ensures var o := Run(sp);
            o.ranked != [] ==>
              var best := Head(o.ranked);
              Valid(sp, best.selection) && best == Rank(sp, best.selection)
              && (!o.truncated ==> forall sel :: Valid(sp, sel) ==> !Better(Rank(sp, sel), best))
    ensures var o := Run(sp);
            !o.truncated ==> (o.ranked == [] <==> forall sel :: !Valid(sp, sel))
  {
    var o := Run(sp);
    ExploreCorrect(sp, 0, 0, [], EMPTY_OUTCOME);
    if o.ranked != [] {
      HeadIsBest(o.ranked, 0, 0);
      var h := HeadFrom(o.ranked, 0, 0);
      assert Valid(sp, o.ranked[h].selection);
      if !o.truncated {
        forall sel | Valid(sp, sel) ensures !Better(Rank(sp, sel), o.ranked[h]) {
          assert [] <= sel && Covers(o.ranked, Rank(sp, sel));
          var i :| 0 <= i < |o.ranked| && !Better(Rank(sp, sel), o.ranked[i]);
          NotBetterTransitive(Rank(sp, sel), o.ranked[i], o.ranked[h]);
        }
      }
    } else if !o.truncated {
      forall sel ensures !Valid(sp, sel) {
        assert Valid(sp, sel) && [] <= sel ==> Covers(o.ranked, Rank(sp, sel));
      }
    }
  }

  /** Truncated or not, and whatever the bound, the ranking only ever holds valid selections. */
  ghost predicate Entries(sp: Space, o: Outcome) {
    forall i :: 0 <= i < |o.ranked| ==> Valid(sp, o.ranked[i].selection)
  }

  lemma {:induction false} ExploreEntries(sp: Space, index: nat, partial: int, current: Selection, o: Outcome)
    requires |current| == index && Partial(sp, current) && Entries(sp, o)
    ensures Entries(sp, Explore(sp, index, partial, current, o))
    decreases |sp.choices| - index, 1, 0
  {
    if !o.truncated && o.evaluations < sp.maxEvaluated && index < |sp.choices| {
      ExploreFromEntries(sp, index, 0, partial, current, o);
    }
  }

  lemma {:induction false} ExploreFromEntries(
    sp: Space, index: nat, k: nat, partial: int, current: Selection, o: Outcome)
    requires |current| == index < |sp.choices| && k <= |sp.choices[index]|
    requires Partial(sp, current) && Entries(sp, o)
    ensures Entries(sp, ExploreFrom(sp, index, k, partial, current, o))
    decreases |sp.choices| - index, 0, |sp.choices[index]| - k
  {
    if k < |sp.choices[index]| && !Pruned(sp, index, k, partial, o.best) {
      var c := sp.choices[index][k];
      ExploreEntries(sp, index + 1, partial + c.partial, current + [c], o);
      var o' := Explore(sp, index + 1, partial + c.partial, current + [c], o);
      if !o'.truncated {
        ExploreFromEntries(sp, index, k + 1, partial, current, o');
      }
    }
  }

  lemma HeadIsValid(sp: Space)
    ensures Run(sp).ranked != [] ==> Valid(sp, Head(Run(sp).ranked).selection)
  {
    ExploreEntries(sp, 0, 0, [], EMPTY_OUTCOME);
    var ranked := Run(sp).ranked;
    if ranked != [] {
      var h := HeadFrom(ranked, 0, 0);
      assert Valid(sp, ranked[h].selection);
    }
  }

  // ---------------------------------------------------------------- the search as the source runs it

  /** The mutable outcome, the current path and the best score, updated in place by the recursion. */
  class Searcher {
    const sp: Space
    var current: Selection
    var ranked: seq<Ranked>
    var evaluations: nat
    var truncated: bool
    var best: int

    constructor (sp: Space)
      ensures this.sp == sp && current == [] && Result() == EMPTY_OUTCOME
    {
      this.sp := sp;
      current, ranked, evaluations, truncated, best := [], [], 0, false, INT64_MIN;
    }

    ghost function Result(): Outcome
      reads this
    {
      Outcome(ranked, evaluations, truncated, best)
    }

    /** Offers one complete selection to the bounded ranking. */
    method EvaluateLeaf()
      modifies this
      ensures current == old(current)
      ensures Result() == Leaf(sp, current, old(Result()))
    {
      evaluations := evaluations + 1;
      if !sp.accept(current) {
        return;
      }
      var candidate := Rank(sp, current);
      if candidate.raw > best {
        best := candidate.raw;
      }
      if |ranked| < sp.maxRanked {
        ranked := ranked + [candidate];
        return;
      }
      if ranked == [] {
        return;
      }
      var worst := 0;
      for k := 0 to |ranked|
        invariant worst < |ranked| && ranked == old(ranked)
        invariant WorstFrom(ranked, 0, 0) == WorstFrom(ranked, k, worst)
      {
        if Better(ranked[worst], ranked[k]) {
          worst := k;
        }
      }
      if Better(candidate, ranked[worst]) {
        ranked := ranked[worst := candidate];
      }
    }

    /** search_recursive: leaves the path as it found it and turns the outcome into `Explore` of it. */
    method SearchRecursive(index: nat, partial: int)
      requires index <= |sp.choices|
      modifies this
      ensures current == old(current)
      ensures Result() == Explore(sp, index, partial, old(current), old(Result()))
      decreases |sp.choices| - index
    {
      if truncated {
        return;
      }
      if evaluations >= sp.maxEvaluated {
        truncated := true;
        return;
      }
      if index == |sp.choices| {
        EvaluateLeaf();
        return;
      }
      ghost var start := Result();
      var k := 0;
      while k < |sp.choices[index]|
        invariant k <= |sp.choices[index]| && current == old(current) && !truncated
        invariant ExploreFrom(sp, index, 0, partial, current, start)
               == ExploreFrom(sp, index, k, partial, current, Result())
      {
        var candidate := sp.choices[index][k];
        if partial + candidate.partial + RemainingMax(sp.choices, index + 1) + sp.bound < best {
          break;  // candidates are in descending order of partial score
        }
        current := current + [candidate];
        SearchRecursive(index + 1, partial + candidate.partial);
        current := current[..|current| - 1];
        if truncated {
          return;
        }
        k := k + 1;
      }
    }
  }
}
