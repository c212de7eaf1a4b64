/**
 * MultiLevelIterator: the grouping engine driven by a Tesseract page iterator.
 * The iterator is reduced to the queries the class makes on it, as functions
 * of the leaf index; its position is the field `pos`.
 */
module MultiLevel {
  import opened Wrappers
  import opened Grouping
  import opened Boxes

  /** The page iterator over leaves 0 .. last, in document order. The
      bounding-box query also returns a success flag, which is ignored. */
  datatype PageIterator<!L> = PageIterator(
    last: nat,
    isAtBeginningOf: (nat, L) -> bool,
    isAtFinalElement: (nat, L, L) -> bool,
    utf8Text: (nat, L) -> string,
    boundingBox: (nat, L) -> (bool, TessBox))

  /** ValueError("Unknown level") */
  datatype LevelError = UnknownLevel

  /** get_contents at leaf k: the text, a "confidence" read with the same text
      accessor (so it is the text again), and the box regrouped into corners. */
  function ContentsAt<L>(it: PageIterator<L>, k: nat, level: L): (r: Content<string, string, PyocrBox>)
    ensures r.text == it.utf8Text(k, level)
    ensures r.confidence == r.text
    ensures PyocrBoxToTessBox(r.position) == it.boundingBox(k, level).1
  {
    var text := it.utf8Text(k, level);
    var confidence := it.utf8Text(k, level);
    var (_, box) := it.boundingBox(k, level);
    Content(text, confidence, TessBoxToPyocrBox(box))
  }

  /** The engine's view of the page iterator. */
  function AsCursor<L>(it: PageIterator<L>): Cursor<L, string, string, PyocrBox>
  {
    Cursor(it.isAtBeginningOf, it.isAtFinalElement, (k: nat, level: L) => ContentsAt(it, k, level))
  }

  class MultiLevelIterator<L(==), N> {
    /** Declared levels, coarsest first. */
    const levels: seq<L>
    const boxers: seq<Boxer<string, string, PyocrBox, N>>
    const baseLevel: L
    const baseBoxer: Boxer<string, string, PyocrBox, N>
    const pageIterator: PageIterator<L>
    /** The leaf the page iterator stands on; past `pageIterator.last` once exhausted. */
    var pos: nat
    /** How many times `Next` has been called. */
    ghost var advances: nat

    ghost predicate Valid()
    {
      0 < |levels| && 0 < |boxers| &&
      baseLevel == levels[|levels| - 1] && baseBoxer == boxers[|boxers| - 1]
    }

    /** The base level and its boxer are the last of each list; the page iterator
        stands on its first leaf. Empty lists fail in Python (IndexError). */
    constructor (levels: seq<L>, boxers: seq<Boxer<string, string, PyocrBox, N>>, pageIterator: PageIterator<L>)
      requires 0 < |levels| && 0 < |boxers|
      ensures Valid()
      ensures this.levels == levels && this.boxers == boxers && this.pageIterator == pageIterator
      ensures pos == 0 && advances == 0
    {
      this.levels := levels;
      this.boxers := boxers;
      this.baseLevel := levels[|levels| - 1];
      this.baseBoxer := boxers[|boxers| - 1];
      this.pageIterator := pageIterator;
      pos := 0;
      advances := 0;
    }

    /** The session the engine runs. */
    function Engine(): Session<L, string, string, PyocrBox, N>
    {
      Session(levels, boxers, AsCursor(pageIterator))
    }

    function GetContents(level: L): Content<string, string, PyocrBox>
      reads this
    {
      ContentsAt(pageIterator, pos, level)
    }

    /** Moves to the next leaf; false (Python's StopIteration) when there is none. */
    method Next() returns (more: bool)
      modifies this`pos, this`advances
      ensures pos == old(pos) + 1 && advances == old(advances) + 1
      ensures more <==> pos <= pageIterator.last
    {
      pos := pos + 1;
      advances := advances + 1;
      more := pos <= pageIterator.last;
    }

    /** Fails exactly for an undeclared level; otherwise asks the page iterator. */
    function IsAtBeginning(level: L): (r: Result<bool, LevelError>)
      reads this
      ensures r.Err? <==> level !in levels
      ensures r.Ok? ==> r.value == pageIterator.isAtBeginningOf(pos, level)
    {
      if level !in levels then Err(UnknownLevel)
      else Ok(pageIterator.isAtBeginningOf(pos, level))
    }

    /** Fails exactly when either level is undeclared; otherwise asks the page iterator. */
    function IsAtEnd(level: L, lowerLevel: L): (r: Result<bool, LevelError>)
      reads this
      ensures r.Err? <==> level !in levels || lowerLevel !in levels
      ensures r.Ok? ==> r.value == pageIterator.isAtFinalElement(pos, level, lowerLevel)
    {
      if level !in levels || lowerLevel !in levels then Err(UnknownLevel)
      else Ok(pageIterator.isAtFinalElement(pos, level, lowerLevel))
    }

    /** One pass of nested()'s `for` loop: the visit of level i on the current leaf. */
    method VisitLevel(toBox: array<seq<N>>, i: nat)
      requires Valid() && |levels| <= |boxers| && toBox.Length == |levels| && i < |levels|
      modifies toBox
      ensures toBox[..] == Step(Engine(), pos, i, old(toBox[..]))
    {
      var level := levels[i];
      var boxer := boxers[i];
      if level == baseLevel {
        var x := GetContents(level);
        toBox[i] := toBox[i] + [boxer(Text(x.text), x.confidence, x.position)];
      } else {
        var lowerLevel := levels[i + 1];
        if IsAtBeginning(level).value {
          toBox[i + 1] := [];
        }
        if IsAtEnd(level, lowerLevel).value {
          var x := GetContents(level);
          toBox[i] := toBox[i] + [boxer(Children(toBox[i + 1]), x.confidence, x.position)];
        }
      }
    }

    /** The body of nested()'s `for` loop: the current leaf visited at every level, coarsest first. */
    method VisitLeaf(toBox: array<seq<N>>)
      requires Valid() && |levels| <= |boxers| && toBox.Length == |levels|
      modifies toBox
      ensures toBox[..] == CoarseToFine(Engine(), pos, |levels|, old(toBox[..]))
    {
      for i := 0 to |levels|
        invariant toBox[..] == CoarseToFine(Engine(), pos, i, old(toBox[..]))
      {
        VisitLevel(toBox, i);
      }
    }

    /** nested(): visits the current leaf, levels coarsest first, then advances,
        until the page iterator is exhausted. Returns the coarsest accumulator.
        `visited` records the leaves the loop body ran on. */
    method Nested() returns (r: seq<N>, ghost visited: seq<nat>)
      requires Valid() && |levels| <= |boxers| && pos <= pageIterator.last
      modifies this`pos, this`advances
      ensures pos == pageIterator.last + 1
      ensures |visited| == pageIterator.last + 1 - old(pos) == advances - old(advances)
      ensures forall t :: 0 <= t < |visited| ==> visited[t] == old(pos) + t
      ensures r == RunCoarseToFine(Engine(), old(pos), pageIterator.last + 1)[0]
    {
      var n := |levels|;
      var toBox := new seq<N>[n](_ => []);
      ghost var e, lo := Engine(), pos;
      assert toBox[..] == Empties(n) == RunCoarseToFine(e, lo, lo);
      visited := [];
      var more := true;
      while more
        invariant toBox.Length == n
        invariant lo <= pos <= pageIterator.last + 1
        invariant more <==> pos <= pageIterator.last
        invariant toBox[..] == RunCoarseToFine(e, lo, pos)
        invariant |visited| == pos - lo == advances - old(advances)
        invariant forall t :: 0 <= t < |visited| ==> visited[t] == lo + t
        decreases pageIterator.last + 1 - pos
      {
        VisitLeaf(toBox);
        RunCoarseToFineStep(e, lo, pos);
        visited := visited + [pos];
        more := Next();
      }
      r := toBox[0];
    }
  }
}
