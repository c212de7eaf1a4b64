/**
 * The multi-level grouping engine of pyocr's libtesseract binding, on values.
 *
 * A session declares levels from coarsest (index 0) to finest (the base,
 * index n - 1), one boxer per level and a cursor over leaves 0, 1, 2, ...
 * The engine keeps one accumulator per level. Visiting level j on leaf k
 * (one `Step`):
 *   - at the base level it appends the boxed leaf to accumulator j;
 *   - at any other level it first empties accumulator j + 1 when leaf k
 *     begins a level-j group, then, when leaf k ends that group, appends the
 *     boxed accumulator j + 1 to accumulator j.
 * MultiLevelIterator.nested visits the levels of a leaf coarsest first
 * (`CoarseToFine`), TestMLI.nested finest first (`FineToCoarse`). The lemmas
 * below say what each order leaves in every accumulator and puts into every
 * boxed group. Accumulators are values: boxing takes a snapshot.
 */
module Grouping {

  /** The first argument a boxer receives: the leaf's text at the base level,
      the collected child nodes at every coarser level. */
  datatype Payload<T, N> = Text(text: T) | Children(nodes: seq<N>)

  /** What the cursor reports for the group (or leaf) at one level. */
  datatype Content<T, C, P> = Content(text: T, confidence: C, position: P)

  /** A boxer turns a payload, a confidence and a position into a node. */
  type Boxer<!T, !C, !P, !N> = (Payload<T, N>, C, P) -> N

  /** The cursor's queries, as functions of the leaf index. */
  datatype Cursor<!L, T, C, P> = Cursor(
    beginning: (nat, L) -> bool,
    end: (nat, L, L) -> bool,
    contents: (nat, L) -> Content<T, C, P>)

  /** One grouping session: levels coarsest first, their boxers, the cursor. */
  datatype Session<!L, !T, !C, !P, !N> = Session(
    levels: seq<L>,
    boxers: seq<Boxer<T, C, P, N>>,
    cursor: Cursor<L, T, C, P>)

  /** At least one level (the base is the last one) and a boxer for each level. */
  predicate WellFormed<L, T, C, P, N>(s: Session<L, T, C, P, N>)
  {
    0 < |s.levels| <= |s.boxers|
  }

  /** One accumulator per declared level. */
  predicate Fits<L, T, C, P, N>(s: Session<L, T, C, P, N>, acc: seq<seq<N>>)
  {
    |acc| == |s.levels|
  }

  /** Index j is handled as the base level: its level equals the last one. */
  predicate IsBase<L(==), T, C, P, N>(s: Session<L, T, C, P, N>, j: nat)
    requires j < |s.levels|
  {
    s.levels[j] == s.levels[|s.levels| - 1]
  }

  predicate Begins<L, T, C, P, N>(s: Session<L, T, C, P, N>, k: nat, j: nat)
    requires j < |s.levels|
  {
    s.cursor.beginning(k, s.levels[j])
  }

  /** Leaf k is the last of its level-j group, relative to level j + 1. */
  predicate Ends<L, T, C, P, N>(s: Session<L, T, C, P, N>, k: nat, j: nat)
    requires j + 1 < |s.levels|
  {
    s.cursor.end(k, s.levels[j], s.levels[j + 1])
  }

  /** The node a base visit of leaf k at index j appends. */
  function LeafNode<L, T, C, P, N>(s: Session<L, T, C, P, N>, k: nat, j: nat): N
    requires WellFormed(s) && j < |s.levels|
  {
    var x := s.cursor.contents(k, s.levels[j]);
    s.boxers[j](Text(x.text), x.confidence, x.position)
  }

  /** The node a group visit of leaf k at index j appends, boxing `children`. */
  function GroupNode<L, T, C, P, N>(s: Session<L, T, C, P, N>, k: nat, j: nat, children: seq<N>): N
    requires WellFormed(s) && j < |s.levels|
  {
    var x := s.cursor.contents(k, s.levels[j]);
    s.boxers[j](Children(children), x.confidence, x.position)
  }

  function Empties<N>(n: nat): (r: seq<seq<N>>)
    ensures |r| == n && forall j :: 0 <= j < n ==> r[j] == []
  {
    seq(n, _ => [])
  }

  /** The visit of level j on leaf k. Only accumulators j and j + 1 can change;
      accumulator j only grows and accumulator j + 1 is kept or emptied. */
  function Step<L(==), T, C, P, N>(s: Session<L, T, C, P, N>, k: nat, j: nat, acc: seq<seq<N>>): (r: seq<seq<N>>)
    requires WellFormed(s) && Fits(s, acc) && j < |s.levels|
    ensures Fits(s, r)
    ensures forall i :: 0 <= i < |acc| && i != j && i != j + 1 ==> r[i] == acc[i]
    ensures acc[j] <= r[j] && |r[j]| <= |acc[j]| + 1
    ensures j + 1 < |acc| ==> r[j + 1] == acc[j + 1] || r[j + 1] == []
  {
    if IsBase(s, j) then
      acc[j := acc[j] + [LeafNode(s, k, j)]]
    else
      var reset := if Begins(s, k, j) then acc[j + 1 := []] else acc;
      if Ends(s, k, j) then reset[j := reset[j] + [GroupNode(s, k, j, reset[j + 1])]]
      else reset
  }

  /** Levels 0 .. m - 1 visited on leaf k, coarsest first. Accumulators below
      level m are not touched yet, and the top accumulator gains at most one node. */
  function CoarseToFine<L(==), T, C, P, N>(s: Session<L, T, C, P, N>, k: nat, m: nat, acc: seq<seq<N>>): (r: seq<seq<N>>)
    requires WellFormed(s) && Fits(s, acc) && m <= |s.levels|
    ensures Fits(s, r)
    ensures forall j :: m < j < |s.levels| ==> r[j] == acc[j]
    ensures acc[0] <= r[0] && |r[0]| <= |acc[0]| + 1
  {
    if m == 0 then acc else Step(s, k, m - 1, CoarseToFine(s, k, m - 1, acc))
  }

  /** Levels n - 1 down to n - m visited on leaf k, finest first. Accumulators
      above level n - m are not touched yet, and the top accumulator gains at
      most one node. */
  function FineToCoarse<L(==), T, C, P, N>(s: Session<L, T, C, P, N>, k: nat, m: nat, acc: seq<seq<N>>): (r: seq<seq<N>>)
    requires WellFormed(s) && Fits(s, acc) && m <= |s.levels|
    ensures Fits(s, r)
    ensures forall j :: 0 <= j < |s.levels| - m ==> r[j] == acc[j]
    ensures acc[0] <= r[0] && |r[0]| <= |acc[0]| + 1
  {
    if m == 0 then acc else Step(s, k, |s.levels| - m, FineToCoarse(s, k, m - 1, acc))
  }

  /** The accumulators after leaves lo .. hi - 1, each visited coarsest first;
      the result holds at most one top-level node per leaf. */
  function RunCoarseToFine<L(==), T, C, P, N>(s: Session<L, T, C, P, N>, lo: nat, hi: nat): (r: seq<seq<N>>)
    requires WellFormed(s) && lo <= hi
    ensures Fits(s, r)
    ensures |r[0]| <= hi - lo
    decreases hi
  {
    if hi == lo then Empties(|s.levels|)
    else CoarseToFine(s, hi - 1, |s.levels|, RunCoarseToFine(s, lo, hi - 1))
  }

  /** The accumulators after leaves lo .. hi - 1, each visited finest first;
      the result holds at most one top-level node per leaf. */
  function RunFineToCoarse<L(==), T, C, P, N>(s: Session<L, T, C, P, N>, lo: nat, hi: nat): (r: seq<seq<N>>)
    requires WellFormed(s) && lo <= hi
    ensures Fits(s, r)
    ensures |r[0]| <= hi - lo
    decreases hi
  {
    if hi == lo then Empties(|s.levels|)
    else FineToCoarse(s, hi - 1, |s.levels|, RunFineToCoarse(s, lo, hi - 1))
  }

  /** The base nodes of leaves lo .. hi - 1 boxed at index j, in visit order. */
  function LeafNodes<L, T, C, P, N>(s: Session<L, T, C, P, N>, lo: nat, hi: nat, j: nat): (r: seq<N>)
    requires WellFormed(s) && j < |s.levels| && lo <= hi
    ensures |r| == hi - lo
    ensures forall t :: 0 <= t < |r| ==> r[t] == LeafNode(s, lo + t, j)
    decreases hi
  {
    if hi == lo then [] else LeafNodes(s, lo, hi - 1, j) + [LeafNode(s, hi - 1, j)]
  }

  /** One more leaf extends a coarsest-first run by one pass. */
  lemma RunCoarseToFineStep<L, T, C, P, N>(s: Session<L, T, C, P, N>, lo: nat, hi: nat)
    requires WellFormed(s) && lo <= hi
    ensures RunCoarseToFine(s, lo, hi + 1) == CoarseToFine(s, hi, |s.levels|, RunCoarseToFine(s, lo, hi))
  {
  }

  /** The returned (top) accumulator is never reset: what an earlier leaf put
      there stays, in order, in both traversals. */
  lemma {:induction false} TopAccumulatorOnlyGrows<L, T, C, P, N>(s: Session<L, T, C, P, N>, lo: nat, mid: nat, hi: nat)
    requires WellFormed(s) && lo <= mid <= hi
    ensures RunCoarseToFine(s, lo, mid)[0] <= RunCoarseToFine(s, lo, hi)[0]
    ensures RunFineToCoarse(s, lo, mid)[0] <= RunFineToCoarse(s, lo, hi)[0]
    decreases hi
  {
    if mid < hi {
      TopAccumulatorOnlyGrows(s, lo, mid, hi - 1);
    }
  }

  // ---------------------------------------------------------------------------
  // What one leaf's pass leaves in each accumulator

  /** Leaf k resets accumulator j: level j - 1 is a group level and k begins one of its groups. */
  predicate ResetBy<L(==), T, C, P, N>(s: Session<L, T, C, P, N>, k: nat, j: nat)
    requires j < |s.levels|
  {
    0 < j && !IsBase(s, j - 1) && Begins(s, k, j - 1)
  }

  /** Accumulator j once the reset of leaf k (if any) has happened. */
  function Kept<L(==), T, C, P, N>(s: Session<L, T, C, P, N>, k: nat, j: nat, acc: seq<seq<N>>): seq<N>
    requires Fits(s, acc) && j < |s.levels|
  {
    if ResetBy(s, k, j) then [] else acc[j]
  }

  /** What the coarse-to-fine visit of level j appends on leaf k, given the
      accumulators `acc` as the leaf found them. */
  function EmittedCoarseToFine<L(==), T, C, P, N>(s: Session<L, T, C, P, N>, k: nat, j: nat, acc: seq<seq<N>>): seq<N>
    requires WellFormed(s) && Fits(s, acc) && j < |s.levels|
  {
    if IsBase(s, j) then [LeafNode(s, k, j)]
    else if Ends(s, k, j) then [GroupNode(s, k, j, if Begins(s, k, j) then [] else acc[j + 1])]
    else []
  }

  /** Accumulator j of the fine-to-coarse pass right after level j's own visit:
      finer levels have already been visited, so a boxed group holds the
      child accumulator as this leaf left it. */
  function Grown<L(==), T, C, P, N>(s: Session<L, T, C, P, N>, k: nat, j: nat, acc: seq<seq<N>>): seq<N>
    requires WellFormed(s) && Fits(s, acc) && j < |s.levels|
    decreases |s.levels| - j
  {
    acc[j] + (
      if IsBase(s, j) then [LeafNode(s, k, j)]
      else if Ends(s, k, j) then [GroupNode(s, k, j, if Begins(s, k, j) then [] else Grown(s, k, j + 1, acc))]
      else [])
  }

  /** Accumulator j at the end of the fine-to-coarse pass: the coarser level's reset comes last. */
  function Settled<L(==), T, C, P, N>(s: Session<L, T, C, P, N>, k: nat, j: nat, acc: seq<seq<N>>): seq<N>
    requires WellFormed(s) && Fits(s, acc) && j < |s.levels|
  {
    if ResetBy(s, k, j) then [] else Grown(s, k, j, acc)
  }

  lemma {:induction false} CoarseToFinePrefix<L, T, C, P, N>(s: Session<L, T, C, P, N>, k: nat, m: nat, acc: seq<seq<N>>)
    requires WellFormed(s) && Fits(s, acc) && m <= |s.levels|
    ensures forall j :: 0 <= j < m ==>
      CoarseToFine(s, k, m, acc)[j] == Kept(s, k, j, acc) + EmittedCoarseToFine(s, k, j, acc)
    ensures m < |s.levels| ==> CoarseToFine(s, k, m, acc)[m] == Kept(s, k, m, acc)
    ensures forall j :: m < j < |s.levels| ==> CoarseToFine(s, k, m, acc)[j] == acc[j]
  {
    if m > 0 {
      CoarseToFinePrefix(s, k, m - 1, acc);
    }
  }

  /** The coarse-to-fine pass of leaf k: accumulator j is what the leaf kept of
      it (emptied when level j - 1 begins a group here) followed by what level
      j appends: the leaf node at the base, and at a group level that ends here
      the group boxing accumulator j + 1 AS THE LEAF FOUND IT (or empty when
      level j also begins here) -- without this leaf's finer nodes. */
  lemma CoarseToFineAccumulators<L, T, C, P, N>(s: Session<L, T, C, P, N>, k: nat, acc: seq<seq<N>>)
    requires WellFormed(s) && Fits(s, acc)
    ensures forall j :: 0 <= j < |s.levels| ==>
      CoarseToFine(s, k, |s.levels|, acc)[j] == Kept(s, k, j, acc) + EmittedCoarseToFine(s, k, j, acc)
  {
    CoarseToFinePrefix(s, k, |s.levels|, acc);
  }

  lemma {:induction false} FineToCoarsePrefix<L, T, C, P, N>(s: Session<L, T, C, P, N>, k: nat, m: nat, acc: seq<seq<N>>)
    requires WellFormed(s) && Fits(s, acc) && m <= |s.levels|
    ensures forall j :: |s.levels| - m < j < |s.levels| ==> FineToCoarse(s, k, m, acc)[j] == Settled(s, k, j, acc)
    ensures 0 < m ==> FineToCoarse(s, k, m, acc)[|s.levels| - m] == Grown(s, k, |s.levels| - m, acc)
    ensures forall j :: 0 <= j < |s.levels| - m ==> FineToCoarse(s, k, m, acc)[j] == acc[j]
  {
    if m > 0 {
      FineToCoarsePrefix(s, k, m - 1, acc);
      var j0, prev := |s.levels| - m, FineToCoarse(s, k, m - 1, acc);
      var r := Step(s, k, j0, prev);
      assert FineToCoarse(s, k, m, acc) == r;
      assert prev[j0] == acc[j0];
      if j0 + 1 < |s.levels| {
        assert prev[j0 + 1] == Grown(s, k, j0 + 1, acc);
        assert r[j0 + 1] == Settled(s, k, j0 + 1, acc);
      }
      assert r[j0] == Grown(s, k, j0, acc);
    }
  }

  /** The fine-to-coarse pass of leaf k: every accumulator ends as `Settled`. */
  lemma FineToCoarseAccumulators<L, T, C, P, N>(s: Session<L, T, C, P, N>, k: nat, acc: seq<seq<N>>)
    requires WellFormed(s) && Fits(s, acc)
    ensures forall j :: 0 <= j < |s.levels| ==> FineToCoarse(s, k, |s.levels|, acc)[j] == Settled(s, k, j, acc)
  {
    FineToCoarsePrefix(s, k, |s.levels|, acc);
  }

  // ---------------------------------------------------------------------------
  // What each order puts into a boxed group

  /** Coarse-to-fine: a group level j that ends on leaf k boxes accumulator
      j + 1 as it stood before leaf k was visited, or nothing at all when leaf
      k also begins the group (the reset comes before the end check). */
  lemma CoarseToFineBoxesPriorChildren<L, T, C, P, N>(s: Session<L, T, C, P, N>, k: nat, j: nat, acc: seq<seq<N>>)
    requires WellFormed(s) && Fits(s, acc) && j < |s.levels|
    requires !IsBase(s, j) && Ends(s, k, j)
    ensures CoarseToFine(s, k, |s.levels|, acc)[j] ==
      Kept(s, k, j, acc) + [GroupNode(s, k, j, if Begins(s, k, j) then [] else acc[j + 1])]
  {
    CoarseToFineAccumulators(s, k, acc);
  }

  /** Fine-to-coarse: a group level j that ends on leaf k boxes accumulator
      j + 1 exactly as the whole pass of leaf k leaves it. */
  lemma FineToCoarseBoxesSettledChildren<L, T, C, P, N>(s: Session<L, T, C, P, N>, k: nat, j: nat, acc: seq<seq<N>>)
    requires WellFormed(s) && Fits(s, acc) && j < |s.levels|
    requires !IsBase(s, j) && Ends(s, k, j)
    ensures Grown(s, k, j, acc) == acc[j] + [GroupNode(s, k, j, FineToCoarse(s, k, |s.levels|, acc)[j + 1])]
  {
    FineToCoarseAccumulators(s, k, acc);
  }

  /** Where the closing leaf of a bottom-level group goes. With the group level
      j = n - 2 directly above the base, a leaf that ends (but does not begin)
      a group is appended to the base accumulator AFTER coarse-to-fine has
      boxed it, so the boxed group lacks it; fine-to-coarse boxes it. */
  lemma ClosingLeafPlacement<L, T, C, P, N>(s: Session<L, T, C, P, N>, k: nat, acc: seq<seq<N>>)
    requires WellFormed(s) && Fits(s, acc) && 2 <= |s.levels|
    requires !IsBase(s, |s.levels| - 2) && Ends(s, k, |s.levels| - 2) && !Begins(s, k, |s.levels| - 2)
    ensures var n := |s.levels|;
      && CoarseToFine(s, k, n, acc)[n - 2] == Kept(s, k, n - 2, acc) + [GroupNode(s, k, n - 2, acc[n - 1])]
      && CoarseToFine(s, k, n, acc)[n - 1] == acc[n - 1] + [LeafNode(s, k, n - 1)]
    ensures var n := |s.levels|;
      Grown(s, k, n - 2, acc) == acc[n - 2] + [GroupNode(s, k, n - 2, acc[n - 1] + [LeafNode(s, k, n - 1)])]
  {
    CoarseToFineAccumulators(s, k, acc);
  }

  /** A leaf that begins and ends a group level j boxes an empty child list, in
      either order: the reset of accumulator j + 1 precedes the end check. */
  lemma ResetBeforeEnd<L, T, C, P, N>(s: Session<L, T, C, P, N>, k: nat, j: nat, acc: seq<seq<N>>)
    requires WellFormed(s) && Fits(s, acc) && j < |s.levels|
    requires !IsBase(s, j) && Begins(s, k, j) && Ends(s, k, j)
    ensures CoarseToFine(s, k, |s.levels|, acc)[j] == Kept(s, k, j, acc) + [GroupNode(s, k, j, [])]
    ensures Grown(s, k, j, acc) == acc[j] + [GroupNode(s, k, j, [])]
  {
    CoarseToFineAccumulators(s, k, acc);
  }

  /** The tie-break scenario: a one-leaf stream whose leaf begins and ends a
      group at every coarser level. Both orders return the single top node
      boxing an empty child list. */
  lemma TieBreak<L, T, C, P, N>(s: Session<L, T, C, P, N>, k: nat)
    requires WellFormed(s) && 2 <= |s.levels|
    requires forall j :: 0 <= j < |s.levels| - 1 ==> !IsBase(s, j) && Begins(s, k, j) && Ends(s, k, j)
    ensures RunCoarseToFine(s, k, k + 1)[0] == [GroupNode(s, k, 0, [])]
    ensures RunFineToCoarse(s, k, k + 1)[0] == [GroupNode(s, k, 0, [])]
  {
    var e := Empties(|s.levels|);
    CoarseToFineAccumulators(s, k, e);
    FineToCoarseAccumulators(s, k, e);
  }

  // ---------------------------------------------------------------------------
  // Runs over many leaves

  /** Leaf t begins a group of level n - 2, the level directly above the base. */
  predicate OpensBottomGroup<L, T, C, P, N>(s: Session<L, T, C, P, N>, t: nat)
    requires 2 <= |s.levels|
  {
    Begins(s, t, |s.levels| - 2)
  }

  /** With a single declared level, both orders produce the base boxer applied
      to every leaf in visit order; no boundary predicate is consulted. */
  lemma {:induction false} SingleLevel<L, T, C, P, N>(s: Session<L, T, C, P, N>, lo: nat, hi: nat)
    requires WellFormed(s) && |s.levels| == 1 && lo <= hi
    ensures RunCoarseToFine(s, lo, hi) == [LeafNodes(s, lo, hi, 0)]
    ensures RunFineToCoarse(s, lo, hi) == [LeafNodes(s, lo, hi, 0)]
    decreases hi
  {
    if hi > lo {
      SingleLevel(s, lo, hi - 1);
      CoarseToFineAccumulators(s, hi - 1, RunCoarseToFine(s, lo, hi - 1));
      FineToCoarseAccumulators(s, hi - 1, RunFineToCoarse(s, lo, hi - 1));
    }
  }

  /** The leaves' part in a group, coarse-to-fine: if leaf `start` begins a
      group of level n - 2 and no later leaf up to m begins another, the base
      accumulator holds the nodes of leaves start .. m. */
  lemma {:induction false} BaseAccumulatorCoarseToFine<L, T, C, P, N>(s: Session<L, T, C, P, N>, lo: nat, start: nat, m: nat)
    requires WellFormed(s) && 2 <= |s.levels| && !IsBase(s, |s.levels| - 2)
    requires lo <= start <= m && OpensBottomGroup(s, start)
    requires forall t :: start < t <= m ==> !OpensBottomGroup(s, t)
    ensures RunCoarseToFine(s, lo, m + 1)[|s.levels| - 1] == LeafNodes(s, start, m + 1, |s.levels| - 1)
    decreases m
  {
    var n := |s.levels|;
    var prev := RunCoarseToFine(s, lo, m);
    assert RunCoarseToFine(s, lo, m + 1) == CoarseToFine(s, m, n, prev);
    CoarseToFineAccumulators(s, m, prev);
    assert IsBase(s, n - 1);
    if m > start {
      BaseAccumulatorCoarseToFine(s, lo, start, m - 1);
      assert !OpensBottomGroup(s, m);
    } else {
      assert ResetBy(s, m, n - 1);
    }
  }

  /** Group closure, coarse-to-fine: the group of level n - 2 that begins at
      leaf `start` and ends at leaf k is boxed with the nodes of leaves
      start .. k - 1 -- one per leaf, except the closing leaf k. */
  lemma GroupClosureCoarseToFine<L, T, C, P, N>(s: Session<L, T, C, P, N>, lo: nat, start: nat, k: nat)
    requires WellFormed(s) && 2 <= |s.levels| && !IsBase(s, |s.levels| - 2)
    requires lo <= start <= k && OpensBottomGroup(s, start) && Ends(s, k, |s.levels| - 2)
    requires forall t :: start < t <= k ==> !OpensBottomGroup(s, t)
    ensures var after := RunCoarseToFine(s, lo, k + 1)[|s.levels| - 2];
      |after| > 0 && after[|after| - 1] == GroupNode(s, k, |s.levels| - 2, LeafNodes(s, start, k, |s.levels| - 1))
  {
    var n := |s.levels|;
    var prev := RunCoarseToFine(s, lo, k);
    assert RunCoarseToFine(s, lo, k + 1) == CoarseToFine(s, k, n, prev);
    CoarseToFineAccumulators(s, k, prev);
    if k > start {
      BaseAccumulatorCoarseToFine(s, lo, start, k - 1);
      assert !OpensBottomGroup(s, k);
    }
    assert EmittedCoarseToFine(s, k, n - 2, prev) == [GroupNode(s, k, n - 2, LeafNodes(s, start, k, n - 1))];
  }

  /** The leaves' part in a group, fine-to-coarse: the leaf that begins a group
      of level n - 2 is appended and then wiped by the reset, so the base
      accumulator holds the nodes of leaves start + 1 .. m. */
  lemma {:induction false} BaseAccumulatorFineToCoarse<L, T, C, P, N>(s: Session<L, T, C, P, N>, lo: nat, start: nat, m: nat)
    requires WellFormed(s) && 2 <= |s.levels| && !IsBase(s, |s.levels| - 2)
    requires lo <= start <= m && OpensBottomGroup(s, start)
    requires forall t :: start < t <= m ==> !OpensBottomGroup(s, t)
    ensures RunFineToCoarse(s, lo, m + 1)[|s.levels| - 1] == LeafNodes(s, start + 1, m + 1, |s.levels| - 1)
    decreases m
  {
    var n := |s.levels|;
    var prev := RunFineToCoarse(s, lo, m);
    assert RunFineToCoarse(s, lo, m + 1) == FineToCoarse(s, m, n, prev);
    FineToCoarseAccumulators(s, m, prev);
    assert IsBase(s, n - 1);
    if m > start {
      BaseAccumulatorFineToCoarse(s, lo, start, m - 1);
      assert !OpensBottomGroup(s, m);
    } else {
      assert ResetBy(s, m, n - 1);
    }
  }

  /** Group closure, fine-to-coarse: the group of level n - 2 that begins at
      leaf `start` and ends at leaf k is boxed, during the visit of leaf k,
      with the nodes of leaves start + 1 .. k -- the opening leaf is missing. */
  lemma GroupClosureFineToCoarse<L, T, C, P, N>(s: Session<L, T, C, P, N>, lo: nat, start: nat, k: nat)
    requires WellFormed(s) && 2 <= |s.levels| && !IsBase(s, |s.levels| - 2)
    requires lo <= start <= k && OpensBottomGroup(s, start) && Ends(s, k, |s.levels| - 2)
    requires forall t :: start < t <= k ==> !OpensBottomGroup(s, t)
    ensures var before := RunFineToCoarse(s, lo, k);
      Grown(s, k, |s.levels| - 2, before) ==
        before[|s.levels| - 2] + [GroupNode(s, k, |s.levels| - 2, LeafNodes(s, start + 1, k + 1, |s.levels| - 1))]
  {
    BaseAccumulatorFineToCoarse(s, lo, start, k);
    FineToCoarseBoxesSettledChildren(s, k, |s.levels| - 2, RunFineToCoarse(s, lo, k));
  }
}
