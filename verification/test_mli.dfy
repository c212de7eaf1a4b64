/**
 * TestMLI: the second traversal, on a toy cursor. The leaves are the values
 * 0, 1, 2, ... drawn from a counter; a value above 100 stops the loop. Levels
 * are 3, 2, 1 (1 is the base); a leaf "begins" a level when the level does
 * not divide it and "ends" it when the level does not divide the next value.
 * Every boxer returns its first argument.
 */
module ToyIterator {
  import opened Grouping

  /** A node built by the identity boxers: a leaf value or a list of nodes. */
  datatype TestNode = Value(v: int) | Group(children: seq<TestNode>)

  /** The boxer `lambda l, c, p: l`: it returns its first argument and ignores
      the other two. */
  function Echo(payload: Payload<int, TestNode>, confidence: string, position: string): (r: TestNode)
    ensures r.Value? <==> payload.Text?
    ensures payload.Text? ==> r.v == payload.text
    ensures payload.Children? ==> r.children == payload.nodes
  {
    match payload
    case Text(v) => Value(v)
    case Children(nodes) => Group(nodes)
  }

  /** The toy cursor as the engine sees it; level 0 never occurs. */
  function ToyCursor(): Cursor<int, int, string, string>
  {
    Cursor(
      (k: nat, level: int) => level != 0 && k % level != 0,
      (k: nat, level: int, lowerLevel: int) => level != 0 && (k + 1) % level != 0,
      (k: nat, level: int) => Content(k as int, "a", "b"))
  }

  function ToySession(): (s: Session<int, int, string, string, TestNode>)
    ensures WellFormed(s)
  {
    Session([3, 2, 1], [Echo, Echo, Echo], ToyCursor())
  }

  function Max(a: int, b: int): int
  {
    if a < b then b else a
  }

  class TestMli {
    const levels: seq<int> := [3, 2, 1]
    const boxers: seq<Boxer<int, string, string, TestNode>> := [Echo, Echo, Echo]
    const baseLevel: int := 1
    const baseBoxer: Boxer<int, string, string, TestNode> := Echo
    /** The last value drawn from the counter (unset in Python before the first draw). */
    var value: int
    /** The next value the counter (itertools.count()) yields. */
    var counter: nat

    constructor ()
      ensures counter == 0
    {
      value := 0;
      counter := 0;
    }

    /** The current value with the fixed confidence "a" and position "b", as the
        toy cursor reports it for any level. */
    function GetContents(level: int): (r: Content<int, string, string>)
      reads this
      ensures r.text == value
      ensures 0 <= value ==> r == ToyCursor().contents(value, level)
    {
      Content(value, "a", "b")
    }

    /** Draws the next value; false (StopIteration) once it exceeds 100. */
    method Next() returns (more: bool)
      modifies this
      ensures value == old(counter) && counter == old(counter) + 1
      ensures more <==> value <= 100
    {
      value := counter;
      counter := counter + 1;
      more := value <= 100;
    }

    /** Python's truthiness of `value % level`: zero division aside, it holds
        exactly when the level does not divide the value. */
    function IsAtBeginning(level: int): (r: bool)
      reads this
      requires level != 0
      ensures 0 <= value ==> (r <==> ToyCursor().beginning(value, level))
      ensures r <==> value % level != 0
      ensures level == 1 ==> !r
    {
      value % level != 0
    }

    /** Python's truthiness of `(value + 1) % level`: the next value is not a
        multiple of the level. */
    function IsAtEnd(level: int, lowerLevel: int): (r: bool)
      reads this
      requires level != 0
      ensures 0 <= value ==> (r <==> ToyCursor().end(value, level, lowerLevel))
      ensures r <==> (value + 1) % level != 0
      ensures level == 1 ==> !r
    {
      (value + 1) % level != 0
    }

    /** One pass of nested()'s `for` loop: the visit of level j = n - 1 - i on
        the current value (Python indexes from the end with -1 - i). */
    method VisitLevel(toBox: array<seq<TestNode>>, j: nat)
      requires toBox.Length == |levels| && j < |levels| && 0 <= value
      modifies toBox
      ensures toBox[..] == Step(ToySession(), value, j, old(toBox[..]))
    {
      var level := levels[j];
      var boxer := boxers[j];
      if level == baseLevel {
        var x := GetContents(level);
        toBox[j] := toBox[j] + [boxer(Text(x.text), x.confidence, x.position)];
      } else {
        var lowerLevel := levels[j + 1];
        if IsAtBeginning(level) {
          toBox[j + 1] := [];
        }
        if IsAtEnd(level, lowerLevel) {
          var x := GetContents(level);
          toBox[j] := toBox[j] + [boxer(Children(toBox[j + 1]), x.confidence, x.position)];
        }
      }
    }

    /** The body of nested()'s `for` loop: the current value visited at every
        level, finest first. */
    method VisitLeaf(toBox: array<seq<TestNode>>)
      requires toBox.Length == |levels| && 0 <= value
      modifies toBox
      ensures toBox[..] == FineToCoarse(ToySession(), value, |levels|, old(toBox[..]))
    {
      for i := 0 to |levels|
        invariant toBox[..] == FineToCoarse(ToySession(), value, i, old(toBox[..]))
      {
        VisitLevel(toBox, |levels| - 1 - i);
      }
    }

    /** nested(): draws a value first, stops once it exceeds 100, then visits
        it finest level first. The values processed are old(counter) .. 100. */
    method Nested() returns (r: seq<TestNode>)
      modifies this
      ensures value == Max(old(counter), 101) && counter == value + 1
      ensures r == RunFineToCoarse(ToySession(), old(counter), Max(old(counter), 101))[0]
    {
      var n := |levels|;
      var toBox := new seq<TestNode>[n](_ => []);
      ghost var e, lo := ToySession(), counter;
      assert toBox[..] == RunFineToCoarse(e, lo, lo);
      while true
        invariant toBox.Length == n
        invariant lo <= counter && (counter == lo || counter <= 101)
        invariant toBox[..] == RunFineToCoarse(e, lo, counter)
        decreases 101 - counter
      {
        var more := Next();
        if !more {
          assert value == Max(lo, 101) && toBox[..] == RunFineToCoarse(e, lo, value);
          break;
        }
        ghost var prev := toBox[..];
        VisitLeaf(toBox);
        assert toBox[..] == FineToCoarse(e, value, 3, prev) == RunFineToCoarse(e, lo, counter);
      }
      r := toBox[0];
    }
  }

  // ---------------------------------------------------------------------------
  // What the toy traversal produces

  /** The toy boundaries: level 2 begins on odd values and ends on even ones;
      level 3 begins off multiples of 3 and ends except one before a multiple of 3. */
  lemma ToyBoundaries(k: nat)
    ensures Begins(ToySession(), k, 1) <==> k % 2 == 1
    ensures Ends(ToySession(), k, 1) <==> k % 2 == 0
    ensures Begins(ToySession(), k, 0) <==> k % 3 != 0
    ensures Ends(ToySession(), k, 0) <==> k % 3 != 2
  {
  }

  /** The base accumulator after values 0 .. m - 1: an odd value is wiped by
      the level-2 reset right after it is appended. */
  function BaseAfter(m: nat): seq<TestNode>
  {
    if m == 0 || (m - 1) % 2 == 1 then [] else [Value(m - 1)]
  }

  /** The level-2 accumulator after values 0 .. m - 1: only a multiple of 6
      survives both resets, as a group holding just itself. */
  function MidAfter(m: nat): seq<TestNode>
  {
    if m == 0 || (m - 1) % 6 != 0 then [] else [Group([Value(m - 1)])]
  }

  /** The level-3 accumulator after values 0 .. m - 1: one group per value
      that is not one short of a multiple of 3. */
  function TopAfter(m: nat): seq<TestNode>
  {
    if m == 0 then [] else TopAfter(m - 1) + (if (m - 1) % 3 == 2 then [] else [Group(MidAfter(m))])
  }

  /** Level-2 accumulator right after the level-2 visit of value k. */
  function MidDuring(k: nat): seq<TestNode>
  {
    MidAfter(k) + (if k % 2 == 0 then [Group([Value(k)])] else [])
  }

  lemma ToyBaseVisit(k: nat)
    ensures Step(ToySession(), k, 2, [TopAfter(k), MidAfter(k), BaseAfter(k)]) ==
      [TopAfter(k), MidAfter(k), BaseAfter(k) + [Value(k)]]
  {
  }

  lemma ToyPairVisit(k: nat)
    ensures Step(ToySession(), k, 1, [TopAfter(k), MidAfter(k), BaseAfter(k) + [Value(k)]]) ==
      [TopAfter(k), MidDuring(k), BaseAfter(k + 1)]
  {
    var s := ToySession();
    var a := [TopAfter(k), MidAfter(k), BaseAfter(k) + [Value(k)]];
    ToyBoundaries(k);
    assert !IsBase(s, 1);
    if k % 2 == 0 {
      assert BaseAfter(k) == [] && a[2] == [Value(k)] == BaseAfter(k + 1);
      assert GroupNode(s, k, 1, a[2]) == Group([Value(k)]);
      assert Step(s, k, 1, a) == a[1 := a[1] + [GroupNode(s, k, 1, a[2])]];
    } else {
      assert BaseAfter(k + 1) == [] && MidDuring(k) == MidAfter(k);
      assert Step(s, k, 1, a) == a[2 := []];
    }
  }

  lemma ToyTripleVisit(k: nat)
    ensures Step(ToySession(), k, 0, [TopAfter(k), MidDuring(k), BaseAfter(k + 1)]) ==
      [TopAfter(k + 1), MidAfter(k + 1), BaseAfter(k + 1)]
  {
    var s := ToySession();
    var b := [TopAfter(k), MidDuring(k), BaseAfter(k + 1)];
    ToyBoundaries(k);
    assert !IsBase(s, 0);
    if k % 3 == 0 {
      assert k % 6 == 0 <==> k % 2 == 0;
      assert MidAfter(k) == [];
      assert MidDuring(k) == MidAfter(k + 1);
      assert Step(s, k, 0, b) == b[0 := b[0] + [GroupNode(s, k, 0, b[1])]];
    } else if k % 3 == 1 {
      assert Step(s, k, 0, b) == b[1 := []][0 := b[0] + [GroupNode(s, k, 0, [])]];
    } else {
      assert k % 6 != 0 && TopAfter(k + 1) == TopAfter(k);
      assert Step(s, k, 0, b) == b[1 := []];
    }
  }

  /** The fine-to-coarse run of the toy cursor over values 0 .. m - 1. */
  lemma {:induction false} ToyRun(m: nat)
    ensures RunFineToCoarse(ToySession(), 0, m) == [TopAfter(m), MidAfter(m), BaseAfter(m)]
  {
    var s := ToySession();
    if m > 0 {
      var k := m - 1;
      ToyRun(k);
      ToyBaseVisit(k);
      ToyPairVisit(k);
      ToyTripleVisit(k);
      var prev := RunFineToCoarse(s, 0, k);
      assert |s.levels| == 3;
      assert FineToCoarse(s, k, 1, prev) == Step(s, k, 2, prev);
      assert FineToCoarse(s, k, 2, prev) == Step(s, k, 1, FineToCoarse(s, k, 1, prev));
      assert RunFineToCoarse(s, 0, m) == FineToCoarse(s, k, 3, prev) == Step(s, k, 0, FineToCoarse(s, k, 2, prev));
    }
  }

  /** TestMLI.nested on a fresh counter returns one group per value 0 .. 100
      that is not one short of a multiple of 3; a group holds [[v]] when v is
      a multiple of 6 and is empty otherwise. */
  lemma ToyNested()
    ensures RunFineToCoarse(ToySession(), 0, 101)[0] == TopAfter(101)
  {
    ToyRun(101);
  }
}
