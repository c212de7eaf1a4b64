# pyocr libtesseract: the multi-level grouping engine, in Dafny

pyocr's libtesseract binding walks Tesseract's page iterator leaf by leaf and
turns the flat stream into nested groups: lines holding words, for example.
The levels are declared coarsest first. Each level has a *boxer*, a function
that builds a node from a payload, a confidence and a position. The engine
keeps one accumulator per level, `to_box`. On every leaf it visits each level:

- the base (finest) level appends the boxed leaf;
- any other level first empties the accumulator of the level below when the
  leaf begins one of its groups;
- then, when the leaf ends one of its groups, it appends the boxed
  accumulator of the level below.

The binding has two versions of this traversal:

- `MultiLevelIterator.nested` visits the current leaf coarsest level first,
  then advances.
- The toy `TestMLI.nested` advances first, then visits finest level first.

This project models both and proves what each order leaves in every
accumulator and puts into every group. It also models the pieces around
them:

- the level checks;
- the contents triple;
- the box regrouping;
- the level-name table;
- `get_version` and the version gate of `is_available`;
- the decision part of `detect_orientation`.

Files:

- `grouping.dfy` (`Grouping`): the engine on values. One `Step` is the visit
  of one level on one leaf. `CoarseToFine` and `FineToCoarse` are the two
  per-leaf orders, and `RunCoarseToFine` and `RunFineToCoarse` run them over
  leaves `lo .. hi - 1`. It also holds the lemmas about both orders.
- `multi_level_iterator.dfy` (`MultiLevel`): the class `MultiLevelIterator`,
  driven by a page iterator. Its `to_box` is an `array<seq<N>>`, and its
  `Nested` loop is proved equal to `RunCoarseToFine`.
- `test_mli.dfy` (`ToyIterator`): the class `TestMli` with its counter and
  modulo boundaries. Its `Nested` loop is proved equal to `RunFineToCoarse`,
  and the lemmas compute the whole result.
- `boxes.dfy` (`Boxes`): `_tess_box_to_pyocr_box` and its inverse.
- `levels.dfy` (`Levels`): `clevel_od`.
- `version.dfy` (`Version`): `get_version` and `is_available`, each both as
  written and with the corrected "dev" cut.
- `orientation.dfy` (`Orientation`): the confidence check and angle table of
  `detect_orientation`.
- `wrappers.dfy` (`Wrappers`): `Option` and `Result`.

Every call into Tesseract's C API is a parameter. The page iterator becomes a
value holding its last leaf index and its queries as functions of the leaf
index. Tesseract's version string is an input. The orientation detector's
result is an input too.

## Model

| member | source | states |
|---|---|---|
| Grouping.Step | src/pyocr/libtesseract/__init__.py:201-214 | visiting one level changes only that level's accumulator and the one below; the level's own accumulator only grows, by at most one node; the one below is kept or emptied |
| Grouping.CoarseToFine | src/pyocr/libtesseract/__init__.py:201-214 | visiting levels 0 .. m - 1 of one leaf, coarsest first, leaves every accumulator below level m untouched and adds at most one node to the top accumulator, which it never shortens |
| Grouping.FineToCoarse | src/pyocr/libtesseract/__init__.py:128-142 | visiting the m finest levels of one leaf, finest first, leaves every coarser accumulator untouched and adds at most one node to the top accumulator, which it never shortens |
| Grouping.RunCoarseToFine | src/pyocr/libtesseract/__init__.py:199-218 | the coarsest-first run over leaves lo .. hi - 1 keeps one accumulator per level, and the returned one holds at most one node per leaf |
| Grouping.RunFineToCoarse | src/pyocr/libtesseract/__init__.py:122-142 | the finest-first run over leaves lo .. hi - 1 keeps one accumulator per level, and the returned one holds at most one node per leaf |
| Grouping.LeafNodes | src/pyocr/libtesseract/__init__.py:204-205 | node t of the base nodes of leaves lo .. hi - 1 is the base boxer applied to the contents of leaf lo + t |
| Grouping.TopAccumulatorOnlyGrows | src/pyocr/libtesseract/__init__.py:197-220 | in both orders, the returned accumulator is never reset: its nodes after some leaves are a prefix of its nodes after more leaves |
| Grouping.CoarseToFineAccumulators | src/pyocr/libtesseract/__init__.py:199-214 | after one coarsest-first pass over a leaf, accumulator j is what survived the reset by level j - 1, followed by what level j appended: the leaf node at the base, or the group boxed from the accumulator below as the leaf found it |
| Grouping.FineToCoarseAccumulators | src/pyocr/libtesseract/__init__.py:122-142 | after one finest-first pass over a leaf, each accumulator is the grown accumulator, then reset by the coarser level's beginning check, which comes last |
| Grouping.CoarseToFineBoxesPriorChildren | src/pyocr/libtesseract/__init__.py:204-214 | coarsest first, a group that ends on leaf k boxes the child accumulator as it stood before leaf k, or an empty list when k also begins the group |
| Grouping.FineToCoarseBoxesSettledChildren | src/pyocr/libtesseract/__init__.py:128-142 | finest first, a group that ends on leaf k boxes the child accumulator exactly as the whole pass of leaf k leaves it |
| Grouping.ClosingLeafPlacement | src/pyocr/libtesseract/__init__.py:199-214 | for the group level just above the base, a leaf that closes a group is boxed inside it finest first, but is appended to the base only after boxing coarsest first |
| Grouping.ResetBeforeEnd | src/pyocr/libtesseract/__init__.py:208-214 | in either order, a leaf that both begins and ends a group boxes an empty child list, because the reset precedes the end check |
| Grouping.TieBreak | src/pyocr/libtesseract/__init__.py:197-220 | a one-leaf stream that begins and ends a group at every coarser level yields the single top node over an empty list, in both orders |
| Grouping.SingleLevel | src/pyocr/libtesseract/__init__.py:199-220 | with one declared level, both orders return the base boxer applied to every leaf in visit order, with no boundary query involved |
| Grouping.BaseAccumulatorCoarseToFine | src/pyocr/libtesseract/__init__.py:199-218 | coarsest first, from the leaf that opens a bottom group until the next opening, the base accumulator holds exactly the nodes of those leaves, in order |
| Grouping.GroupClosureCoarseToFine | src/pyocr/libtesseract/__init__.py:199-218 | coarsest first, a bottom group opened at leaf `start` and closed at leaf k is boxed with the nodes of leaves start .. k - 1, so the closing leaf is missing |
| Grouping.BaseAccumulatorFineToCoarse | src/pyocr/libtesseract/__init__.py:122-142 | finest first, the opening leaf is appended and then wiped by the reset, so the base accumulator holds leaves start + 1 .. m |
| Grouping.GroupClosureFineToCoarse | src/pyocr/libtesseract/__init__.py:122-142 | finest first, a bottom group opened at `start` and closed at k is boxed with the nodes of leaves start + 1 .. k, so the opening leaf is missing |
| Boxes.TessBoxToPyocrBox | src/pyocr/libtesseract/__init__.py:79-83 | regrouping four coordinates into two corners loses nothing: flattening gives the box back |
| Boxes.TessBoxToPyocrBoxInjective | src/pyocr/libtesseract/__init__.py:79-83 | distinct boxes regroup to distinct corner pairs |
| Boxes.PyocrBoxRoundTrip | src/pyocr/libtesseract/__init__.py:79-83 | every corner pair is the regrouping of exactly one box |
| Levels.Lookup | src/pyocr/libtesseract/__init__.py:86-93 | looking a name up in the ordered table fails exactly when no entry has that name; a found level is listed under that name |
| Levels.ClevelOdIsCoarseToFine | src/pyocr/libtesseract/__init__.py:86-93 | the table lists "block", "para", "line", "word" and "symbol" strictly from coarsest to finest, under distinct names |
| Levels.LevelNameRoundTrip | src/pyocr/libtesseract/__init__.py:86-93 | every Tesseract level is reached from its name in the table |
| Levels.LevelCode | src/pyocr/libtesseract/__init__.py:86-93 | `clevel_od[name]` is defined exactly for the five listed names, and each maps to the level listed under that name |
| MultiLevel.ContentsAt | src/pyocr/libtesseract/__init__.py:159-170 | the contents are the leaf's text, a "confidence" equal to that text, and the iterator's box regrouped into corners |
| MultiLevel.MultiLevelIterator.constructor | src/pyocr/libtesseract/__init__.py:148-157 | the base level and base boxer are the last of their lists; the iterator stands on its first leaf |
| MultiLevel.MultiLevelIterator.Next | src/pyocr/libtesseract/__init__.py:172-178 | moves one leaf on and reports false exactly when it has moved past the last leaf |
| MultiLevel.MultiLevelIterator.IsAtBeginning | src/pyocr/libtesseract/__init__.py:180-186 | fails exactly for an undeclared level; otherwise answers the iterator's beginning query at the current leaf |
| MultiLevel.MultiLevelIterator.IsAtEnd | src/pyocr/libtesseract/__init__.py:188-195 | fails exactly when either level is undeclared; otherwise answers the iterator's final-element query |
| MultiLevel.MultiLevelIterator.VisitLevel | src/pyocr/libtesseract/__init__.py:201-214 | one pass of the inner loop updates `to_box` exactly as `Grouping.Step` |
| MultiLevel.MultiLevelIterator.VisitLeaf | src/pyocr/libtesseract/__init__.py:201-214 | the inner loop visits the current leaf at every level, coarsest first, and leaves `to_box` as `Grouping.CoarseToFine` does |
| MultiLevel.MultiLevelIterator.Nested | src/pyocr/libtesseract/__init__.py:197-220 | the loop body runs once per remaining leaf, in order, and `next()` is called exactly as often; the iterator ends past the last leaf; the result is the coarsest accumulator of the coarsest-first run over those leaves |
| ToyIterator.TestMli.constructor | src/pyocr/libtesseract/__init__.py:97-104 | the counter starts at 0 |
| ToyIterator.TestMli.Next | src/pyocr/libtesseract/__init__.py:109-112 | draws the counter's next value and reports false exactly when that value exceeds 100 |
| ToyIterator.Echo | src/pyocr/libtesseract/__init__.py:99-101 | the boxer returns its first argument, the leaf value or the child list, and ignores the other two |
| ToyIterator.TestMli.GetContents | src/pyocr/libtesseract/__init__.py:106-107 | the contents are the current value with the fixed confidence and position, as the toy cursor reports them |
| ToyIterator.TestMli.IsAtBeginning | src/pyocr/libtesseract/__init__.py:114-115 | true exactly when the level does not divide the current value, which is the toy cursor's beginning query; never true for level 1 |
| ToyIterator.TestMli.IsAtEnd | src/pyocr/libtesseract/__init__.py:117-118 | true exactly when the level does not divide the next value, which is the toy cursor's end query; never true for level 1 |
| ToyIterator.ToyBoundaries | src/pyocr/libtesseract/__init__.py:114-118 | on the toy cursor, level 2 begins on odd values and ends on even ones; level 3 begins off multiples of 3 and ends except on values one short of a multiple of 3 |
| ToyIterator.TestMli.VisitLevel | src/pyocr/libtesseract/__init__.py:128-142 | one pass of the inner loop updates `to_box` exactly as `Grouping.Step` |
| ToyIterator.TestMli.VisitLeaf | src/pyocr/libtesseract/__init__.py:128-142 | the inner loop visits the current value at every level, finest first, and leaves `to_box` as `Grouping.FineToCoarse` does |
| ToyIterator.TestMli.Nested | src/pyocr/libtesseract/__init__.py:120-144 | draws values up to and including the first one above 100, processes every one drawn before it finest level first, and returns the coarsest accumulator of that run |
| ToyIterator.ToyRun | src/pyocr/libtesseract/__init__.py:120-144 | after values 0 .. m - 1, the three toy accumulators are those given by the functions `BaseAfter`, `MidAfter` and `TopAfter`, defined on the value count by cases on divisibility by 2, 3 and 6 |
| ToyIterator.ToyNested | src/pyocr/libtesseract/__init__.py:96-144 | on a fresh counter the result has one group per value 0 .. 100 that is not one short of a multiple of 3; a group holds the value's own group when the value is a multiple of 6, and is empty otherwise |
| Version.FirstWord | src/pyocr/libtesseract/__init__.py:305 | the result is the longest prefix without a space, followed in the input by a space or by nothing |
| Version.Find | src/pyocr/libtesseract/__init__.py:308 | never below -1; -1 exactly when the pattern does not occur; otherwise the first index where it occurs |
| Version.Split | src/pyocr/libtesseract/__init__.py:312 | gives at least one field, and no field contains the separator |
| Version.JoinSplit | src/pyocr/libtesseract/__init__.py:312 | joining the fields back with the separator restores the text |
| Version.SplitJoin | src/pyocr/libtesseract/__init__.py:312 | splitting separator-free fields joined by the separator restores those fields |
| Version.ParseNat | src/pyocr/libtesseract/__init__.py:313-317 | a field parses exactly when it is a non-empty run of decimal digits, and then to its decimal value |
| Version.ParseFields | src/pyocr/libtesseract/__init__.py:312-318 | succeeds exactly when there are two numeral fields, plus a numeral third one if there is a third; the result is their values, with an update number of 0 when there is no third field; a missing minor field (IndexError) is reported exactly when the major field is a numeral and stands alone |
| Version.CutDevAsWritten | src/pyocr/libtesseract/__init__.py:307-310 | as written: with no "dev" the last character is dropped, with "dev" at 0 nothing is cut, and with "dev" at k > 0 the text is cut at k |
| Version.CutDev | src/pyocr/libtesseract/__init__.py:307-310 | as intended: the text is cut exactly at the first "dev", or kept whole when there is none, and the result contains no "dev" |
| Version.VersionText | src/pyocr/libtesseract/__init__.py:305-310 | as intended, the text read is a prefix of the raw version with neither a space nor "dev" in it, ending at the end of the raw text, at its first space or where "dev" begins |
| Version.GetVersion | src/pyocr/libtesseract/__init__.py:303-318 | as intended, the version is read from the dotted fields of that text: it succeeds exactly when those fields make a version, and returns their values |
| Version.GetVersionAsWritten | src/pyocr/libtesseract/__init__.py:303-318 | as written, the version is read from the dotted fields of the first word after the truthiness cut: it succeeds exactly when those fields make a version, and returns their values |
| Version.GetVersionRoundTrip | src/pyocr/libtesseract/__init__.py:303-318 | a three-field version, with or without "dev", followed by nothing or by a space and anything, parses to its three numbers |
| Version.GetVersionTwoFields | src/pyocr/libtesseract/__init__.py:303-318 | a two-field version parses to its two numbers, with an update number of 0 |
| Version.GetVersionAsWrittenDropsLastDigit | src/pyocr/libtesseract/__init__.py:303-318 | as written, a two-field version without "dev" loses the last digit of its minor number, and fails when that number has one digit |
| Version.GetVersionAsWrittenDropsLastUpdateDigit | src/pyocr/libtesseract/__init__.py:303-318 | as written, a three-field version without "dev" loses the last digit of its update number, and fails when that number has one digit |
| Version.Version304AsWritten | src/pyocr/libtesseract/__init__.py:281-318 | as written, "3.04" reads as (3, 0, 0), and `is_available` reports false for it |
| Version.Version304 | src/pyocr/libtesseract/__init__.py:281-318 | with the intended cut, "3.04" reads as (3, 4, 0), and the library is then available |
| Version.Version411AsWritten | src/pyocr/libtesseract/__init__.py:303-318 | as written, "4.1.1" fails, because the cut leaves an empty update field |
| Version.Version411 | src/pyocr/libtesseract/__init__.py:303-318 | with the intended cut, "4.1.1" reads as (4, 1, 1) |
| Version.MeetsMinimum | src/pyocr/libtesseract/__init__.py:289-292 | the gate accepts exactly the versions from 3.4 on |
| Version.MeetsMinimumIsMonotonic | src/pyocr/libtesseract/__init__.py:289-292 | any version with a later or equal major.minor than an accepted one is accepted too |
| Version.IsAvailableAsWritten | src/pyocr/libtesseract/__init__.py:281-292 | over get_version as written: available exactly when the library is present, its version parses as written, and the version passes the gate; an error exactly when the library is present but its version does not parse |
| Version.IsAvailable | src/pyocr/libtesseract/__init__.py:281-292 | over the corrected get_version: available exactly when the library is present, its version parses, and the version passes the gate; an error exactly when the library is present but its version does not parse |
| Orientation.Angle | src/pyocr/libtesseract/__init__.py:54-59 | every orientation maps to a right angle below 360 |
| Orientation.OrientationOfAngle | src/pyocr/libtesseract/__init__.py:54-59 | the inverse table is defined exactly on the right angles below 360 |
| Orientation.AngleRoundTrip | src/pyocr/libtesseract/__init__.py:54-59 | the table and its inverse undo each other, so the table is one-to-one |
| Orientation.DetectOrientation | src/pyocr/libtesseract/__init__.py:50-63 | fails with "no script" exactly when the confidence is not positive; otherwise returns the reported orientation's angle and the same confidence |

## Left out

- Tesseract's C API is not part of this model: initialisation, page
  segmentation mode, image, recognition, iterator creation, orientation
  detection, version query and cleanup. The iterator's queries, the version
  text and the detector's result are parameters instead.
- The try/finally handle management in `detect_orientation`, `test_mli`,
  `image_to_string` and `get_available_languages` is resource plumbing with
  no logic.
  - `test_mli` only builds a `MultiLevelIterator` over the levels "line"
    and "word" and calls `nested`.
  - `image_to_string` builds a `MultiLevelIterator` from its builder and
    calls `nested`. It also raises TesseractError("no script") when
    Tesseract returns no result iterator. That check is not modelled.
  - `get_available_languages` is a plain foreign call.
  - `get_name`, `can_detect_orientation` and `get_available_builders` return
    constants.
- The `builders` module is not part of this model. Levels and boxers are
  parameters.
- Python list aliasing through boxers is not modelled. The identity boxers
  hand back the accumulator list itself, so a later append to that list shows
  up inside a group that was already boxed. Here accumulators are values, and
  boxing takes a snapshot. As a consequence:
  - `Grouping.GroupClosureCoarseToFine` says the closing leaf is missing from
    its group. That holds for boxers that copy their argument. With the
    identity boxer, Python's group would see the closing leaf appended later.
  - The toy results in `ToyIterator.ToyNested` describe snapshots as well.
- `MultiLevel.MultiLevelIterator.Nested` requires that the page iterator
  stand on a leaf. It also requires at least as many boxers as levels, where
  Python raises IndexError.
- The engine is generic in the level type. `clevel_od[level]` raising
  KeyError on an unknown level name is modelled only by `Levels.LevelCode`.
- The constructor's requirement of non-empty lists stands for Python's
  IndexError on `levels[-1]` and `boxers[-1]`.
- `ToyIterator.TestMli`:
  - `value` starts at 0, where Python leaves it unset until the first draw.
  - `IsAtBeginning` and `IsAtEnd` require a non-zero level. Python would
    raise ZeroDivisionError, but the toy levels are 3, 2 and 1.
- StopIteration and `itertools.count` become a boolean result and a counter.
- Python's `int()` also accepts whitespace, signs and underscores. Here a
  version field must be plain decimal digits.
- `detect_orientation`: the detector's confidence is a real number, not a
  float. An orientation outside the four known values, which raises KeyError
  in Python, cannot be represented.

## Findings

| source | as written | input that shows it | evidently intended | confidence | as-written member | corrected member |
|---|---|---|---|---|---|---|
| src/pyocr/libtesseract/__init__.py:307-310 | `if index:` is also true when `find("dev")` returns -1, so `version[:-1]` drops the last character of a version without "dev" | "3.04" reads as (3, 0, 0), and `is_available` then reports False; "4.1.1" becomes "4.1.", and `int("")` raises ValueError | cut only when "dev" occurs (`index >= 0`), as the comment on the line above says | not executed | Version.CutDevAsWritten, Version.GetVersionAsWritten, Version.IsAvailableAsWritten, Version.GetVersionAsWrittenDropsLastDigit, Version.GetVersionAsWrittenDropsLastUpdateDigit, Version.Version304AsWritten, Version.Version411AsWritten | Version.CutDev, Version.GetVersion, Version.IsAvailable, Version.GetVersionRoundTrip, Version.GetVersionTwoFields, Version.Version304, Version.Version411 |
