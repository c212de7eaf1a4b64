/** clevel_od: the level names pyocr accepts and the Tesseract iterator level each stands for. */
module Levels {
  import opened Wrappers

  /** Tesseract's page iterator levels, coarsest first. */
  datatype PageIteratorLevel = Block | Para | TextLine | Word | Symbol

  /** Position in the coarse-to-fine order. */
  function Depth(level: PageIteratorLevel): nat
  {
    match level
    case Block => 0
    case Para => 1
    case TextLine => 2
    case Word => 3
    case Symbol => 4
  }

  /** The ordered table of level names. */
  const ClevelOd: seq<(string, PageIteratorLevel)> := [
    ("block", Block),
    ("para", Para),
    ("line", TextLine),
    ("word", Word),
    ("symbol", Symbol)
  ]

  /** Looks a name up in an ordered table; None stands for Python's KeyError. */
  function Lookup(table: seq<(string, PageIteratorLevel)>, name: string): (r: Option<PageIteratorLevel>)
    ensures r.None? <==> forall i :: 0 <= i < |table| ==> table[i].0 != name
    ensures r.Some? ==> exists i :: 0 <= i < |table| && table[i] == (name, r.value)
  {
    if table == [] then None
    else if table[0].0 == name then Some(table[0].1)
    else
      var r := Lookup(table[1..], name);
      assert forall i :: 1 <= i < |table| ==> table[i] == table[1..][i - 1];
      r
  }

  /** clevel_od[name]: exactly the five names of the table are known, and
      each maps to the level listed under it. */
  function LevelCode(name: string): (r: Option<PageIteratorLevel>)
    ensures r.None? <==> name !in {"block", "para", "line", "word", "symbol"}
    ensures r.Some? ==> LevelName(r.value) == name
  {
    Lookup(ClevelOd, name)
  }

  /** The name under which clevel_od lists a level. */
  function LevelName(level: PageIteratorLevel): string
  {
    match level
    case Block => "block"
    case Para => "para"
    case TextLine => "line"
    case Word => "word"
    case Symbol => "symbol"
  }

  /** The table lists its levels strictly from coarsest to finest, under distinct names. */
  lemma ClevelOdIsCoarseToFine()
    ensures forall i, j :: 0 <= i < j < |ClevelOd| ==> Depth(ClevelOd[i].1) < Depth(ClevelOd[j].1)
    ensures forall i, j :: 0 <= i < j < |ClevelOd| ==> ClevelOd[i].0 != ClevelOd[j].0
  {
  }

  /** Every level is reachable from its name. */
  lemma LevelNameRoundTrip(level: PageIteratorLevel)
    ensures LevelCode(LevelName(level)) == Some(level)
  {
  }
}
