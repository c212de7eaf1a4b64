/**
 * get_version and the version gate of is_available. The raw version text is
 * a parameter (Tesseract's own get_version is a foreign call). Python's int()
 * is restricted to plain decimal digits.
 */
module Version {
  import opened Wrappers

  /** ValueError from int(), IndexError from a missing field. */
  datatype VersionError = NotANumber | MissingField

  // ---------------------------------------------------------------------------
  // String helpers with Python's meaning

  /** version.split(" ", 1)[0]: the text before the first space. */
  function FirstWord(s: string): (r: string)
    ensures r <= s && ' ' !in r
    ensures |r| < |s| ==> s[|r|] == ' '
  {
    if s == [] || s[0] == ' ' then [] else [s[0]] + FirstWord(s[1..])
  }

  predicate OccursAt(s: string, pat: string, i: nat)
  {
    i + |pat| <= |s| && s[i..i + |pat|] == pat
  }

  function FindFrom(s: string, pat: string, i: nat): (r: int)
    requires i <= |s|
    ensures r == -1 || i <= r
    ensures r == -1 ==> forall t :: i <= t ==> !OccursAt(s, pat, t)
    ensures r >= 0 ==> OccursAt(s, pat, r) && forall t :: i <= t < r ==> !OccursAt(s, pat, t)
    decreases |s| - i
  {
    if i + |pat| > |s| then -1
    else if s[i..i + |pat|] == pat then i
    else FindFrom(s, pat, i + 1)
  }

  /** str.find: the first index where `pat` occurs, or -1. */
  function Find(s: string, pat: string): (r: int)
    ensures r >= -1
    ensures r == -1 <==> forall t :: 0 <= t ==> !OccursAt(s, pat, t)
    ensures r >= 0 ==> OccursAt(s, pat, r) && forall t :: 0 <= t < r ==> !OccursAt(s, pat, t)
  {
    FindFrom(s, pat, 0)
  }

  /** s[:i]: a negative i counts from the end. */
  function PrefixTo(s: string, i: int): (r: string)
    ensures r <= s
  {
    if i < 0 then (if |s| + i > 0 then s[..|s| + i] else [])
    else if i < |s| then s[..i] else s
  }

  /** str.split(sep): the maximal separator-free fields, in order. */
  function Split(s: string, sep: char): (r: seq<string>)
    ensures |r| >= 1
    ensures forall i :: 0 <= i < |r| ==> sep !in r[i]
  {
    if s == [] then [[]]
    else
      var rest := Split(s[1..], sep);
      if s[0] == sep then [[]] + rest else [[s[0]] + rest[0]] + rest[1..]
  }

  /** sep.join(fields) */
  function Join(fields: seq<string>, sep: char): string
    requires |fields| >= 1
  {
    if |fields| == 1 then fields[0] else fields[0] + [sep] + Join(fields[1..], sep)
  }

  /** Splitting loses nothing: the fields joined back give the text. */
  lemma {:induction false} JoinSplit(s: string, sep: char)
    ensures Join(Split(s, sep), sep) == s
  {
    if s != [] {
      JoinSplit(s[1..], sep);
      var rest := Split(s[1..], sep);
      if s[0] != sep {
        if |rest| > 1 {
          assert rest[1..][1..] == rest[2..];
        }
      }
    }
  }

  lemma {:induction false} SplitNoSeparator(f: string, sep: char)
    requires sep !in f
    ensures Split(f, sep) == [f]
  {
    if f != [] {
      SplitNoSeparator(f[1..], sep);
      assert [f[0]] + f[1..] == f;
    }
  }

  lemma {:induction false} SplitFirstField(f: string, sep: char, rest: string)
    requires sep !in f
    ensures Split(f + [sep] + rest, sep) == [f] + Split(rest, sep)
  {
    if f == [] {
      assert (f + [sep] + rest)[1..] == rest;
    } else {
      assert (f + [sep] + rest)[1..] == f[1..] + [sep] + rest;
      SplitFirstField(f[1..], sep, rest);
      assert [f[0]] + f[1..] == f;
    }
  }

  /** Joining separator-free fields and splitting again gives the fields back. */
  lemma {:induction false} SplitJoin(fields: seq<string>, sep: char)
    requires |fields| >= 1 && forall i :: 0 <= i < |fields| ==> sep !in fields[i]
    ensures Split(Join(fields, sep), sep) == fields
  {
    if |fields| == 1 {
      SplitNoSeparator(fields[0], sep);
    } else {
      SplitJoin(fields[1..], sep);
      SplitFirstField(fields[0], sep, Join(fields[1..], sep));
    }
  }

  // ---------------------------------------------------------------------------
  // int() on decimal digits

  predicate IsDigit(c: char)
  {
    '0' <= c <= '9'
  }

  predicate AllDigits(s: string)
  {
    forall i :: 0 <= i < |s| ==> IsDigit(s[i])
  }

  function DigitsValue(s: string): nat
    requires AllDigits(s)
  {
    if s == [] then 0 else DigitsValue(s[..|s| - 1]) * 10 + ((s[|s| - 1] as int) - ('0' as int))
  }

  /** int(field); None stands for ValueError (an empty field included). */
  function ParseNat(s: string): (r: Option<nat>)
    ensures r.Some? <==> s != [] && AllDigits(s)
    ensures r.Some? ==> r.value == DigitsValue(s)
  {
    if s != [] && AllDigits(s) then Some(DigitsValue(s)) else None
  }

  // ---------------------------------------------------------------------------
  // get_version

  /** A field is a numeral: a non-empty run of decimal digits. */
  predicate IsNumeral(x: string)
  {
    x != [] && AllDigits(x)
  }

  /** Dotted fields that make a version: a numeral major and minor number, and
      a numeral update number when there is a third field; later fields are
      ignored. */
  predicate VersionFields(fields: seq<string>)
  {
    |fields| >= 2 && IsNumeral(fields[0]) && IsNumeral(fields[1]) && (|fields| >= 3 ==> IsNumeral(fields[2]))
  }

  /** The version such fields stand for; the update number defaults to 0. */
  function FieldValues(fields: seq<string>): (nat, nat, nat)
    requires VersionFields(fields)
  {
    (DigitsValue(fields[0]), DigitsValue(fields[1]), if |fields| >= 3 then DigitsValue(fields[2]) else 0)
  }

  /** The dotted fields of the cut version, read in get_version's order: the
      major number first, then the minor number (a missing one is an
      IndexError), then the optional update number. */
  function ParseFields(v: string): (r: Result<(nat, nat, nat), VersionError>)
    ensures r.Ok? <==> VersionFields(Split(v, '.'))
    ensures r.Ok? ==> r.value == FieldValues(Split(v, '.'))
    ensures r == Err(MissingField) <==> IsNumeral(Split(v, '.')[0]) && |Split(v, '.')| < 2
  {
    var fields := Split(v, '.');
    var major := ParseNat(fields[0]);
    if major.None? then Err(NotANumber)
    else if |fields| < 2 then Err(MissingField)
    else
      var minor := ParseNat(fields[1]);
      if minor.None? then Err(NotANumber)
      else if |fields| < 3 then Ok((major.value, minor.value, 0))
      else
        var upd := ParseNat(fields[2]);
        if upd.None? then Err(NotANumber) else Ok((major.value, minor.value, upd.value))
  }

  /** `if index: version = version[:index]` with index = version.find("dev").
      Python's truthiness makes -1 (no "dev") cut the last character, and an
      index of 0 cut nothing. */
  function CutDevAsWritten(v: string): (r: string)
    ensures Find(v, "dev") == -1 ==> r == (if v == [] then [] else v[..|v| - 1])
    ensures Find(v, "dev") == 0 ==> r == v
    ensures Find(v, "dev") > 0 ==> r == v[..Find(v, "dev")]
  {
    var index := Find(v, "dev");
    if index != 0 then PrefixTo(v, index) else v
  }

  /** The cut the comment in get_version describes: drop "dev" and what
      follows when "dev" occurs, and nothing otherwise. */
  function CutDev(v: string): (r: string)
    ensures r <= v
    ensures forall t :: 0 <= t ==> !OccursAt(r, "dev", t)
    ensures Find(v, "dev") == -1 ==> r == v
    ensures Find(v, "dev") >= 0 ==> r == v[..Find(v, "dev")]
  {
    var index := Find(v, "dev");
    if index >= 0 then
      var r := v[..index];
      assert forall t :: 0 <= t ==> OccursAt(r, "dev", t) ==> OccursAt(v, "dev", t);
      r
    else v
  }

  /** get_version as written: the fields of the first word, cut by the
      truthiness test. */
  function GetVersionAsWritten(raw: string): (r: Result<(nat, nat, nat), VersionError>)
    ensures r.Ok? <==> VersionFields(Split(CutDevAsWritten(FirstWord(raw)), '.'))
    ensures r.Ok? ==> r.value == FieldValues(Split(CutDevAsWritten(FirstWord(raw)), '.'))
  {
    ParseFields(CutDevAsWritten(FirstWord(raw)))
  }

  /** The text get_version means to read: it starts the raw version, contains
      neither a space nor "dev", and stops at the end, at the first space or
      where "dev" begins. */
  function VersionText(raw: string): (r: string)
    ensures r <= raw && ' ' !in r
    ensures forall t :: 0 <= t ==> !OccursAt(r, "dev", t)
    ensures |r| == |raw| || raw[|r|] == ' ' || OccursAt(raw, "dev", |r|)
  {
    var word := FirstWord(raw);
    var r := CutDev(word);
    var i := Find(word, "dev");
    assert i >= 0 ==> raw[i..i + 3] == word[i..i + 3];
    r
  }

  /** get_version with the "dev" cut it intends: the fields of the version text. */
  function GetVersion(raw: string): (r: Result<(nat, nat, nat), VersionError>)
    ensures r.Ok? <==> VersionFields(Split(VersionText(raw), '.'))
    ensures r.Ok? ==> r.value == FieldValues(Split(VersionText(raw), '.'))
  {
    ParseFields(VersionText(raw))
  }

  lemma {:induction false} FirstWordStops(v: string, tail: string)
    requires ' ' !in v && (tail == [] || tail[0] == ' ')
    ensures FirstWord(v + tail) == v
  {
    if v == [] {
      assert v + tail == tail;
    } else {
      assert (v + tail)[1..] == v[1..] + tail;
      FirstWordStops(v[1..], tail);
      assert [v[0]] + v[1..] == v;
    }
  }

  /** The intended cut takes a trailing "dev" off text without a 'd', and
      leaves such text alone otherwise. */
  lemma CutDevOfNumeral(v: string, dev: bool)
    requires 'd' !in v
    ensures CutDev(v + (if dev then "dev" else "")) == v
  {
    FindDev(v, []);
    if dev {
      assert v + "dev" + [] == v + "dev";
    } else {
      assert v + "" == v;
    }
  }

  /** Text without a 'd' has no "dev"; after such text, "dev" is found where it starts. */
  lemma FindDev(v: string, tail: string)
    requires 'd' !in v
    ensures Find(v, "dev") == -1
    ensures Find(v + "dev" + tail, "dev") == |v|
  {
    forall t | 0 <= t && t + 3 <= |v|
      ensures !OccursAt(v, "dev", t)
    {
      assert v[t..t + 3][0] == v[t];
    }
    var w := v + "dev" + tail;
    assert OccursAt(w, "dev", |v|) by {
      assert w[|v|..|v| + 3] == "dev";
    }
    forall t | 0 <= t < |v|
      ensures !OccursAt(w, "dev", t)
    {
      assert w[t..t + 3][0] == w[t] == v[t];
    }
  }

  lemma SplitThree(x: string, y: string, z: string)
    requires '.' !in x && '.' !in y && '.' !in z
    ensures Split(x + "." + y + "." + z, '.') == [x, y, z]
  {
    var fields := [x, y, z];
    assert Join(fields, '.') == x + "." + y + "." + z by {
      assert Join(fields[1..], '.') == y + "." + z by {
        assert fields[1..][1..] == [z];
      }
    }
    SplitJoin(fields, '.');
  }

  lemma SplitTwo(x: string, y: string)
    requires '.' !in x && '.' !in y
    ensures Split(x + "." + y, '.') == [x, y]
  {
    var fields := [x, y];
    assert Join(fields, '.') == x + "." + y by {
      assert fields[1..] == [y];
    }
    SplitJoin(fields, '.');
  }

  lemma DigitsHaveNoMarks(x: string)
    requires AllDigits(x)
    ensures '.' !in x && ' ' !in x && 'd' !in x
  {
  }

  /** A three-field version, possibly followed by "dev" and by a space and
      anything: get_version returns its three numbers. */
  lemma GetVersionRoundTrip(x: string, y: string, z: string, dev: bool, tail: string)
    requires IsNumeral(x) && IsNumeral(y) && IsNumeral(z)
    requires tail == [] || tail[0] == ' '
    ensures GetVersion(x + "." + y + "." + z + (if dev then "dev" else "") + tail) ==
      Ok((DigitsValue(x), DigitsValue(y), DigitsValue(z)))
  {
    DigitsHaveNoMarks(x);
    DigitsHaveNoMarks(y);
    DigitsHaveNoMarks(z);
    var v := x + "." + y + "." + z;
    var word := v + (if dev then "dev" else "");
    FirstWordStops(word, tail);
    CutDevOfNumeral(v, dev);
    SplitThree(x, y, z);
  }

  /** A two-field version: the update number is 0. */
  lemma GetVersionTwoFields(x: string, y: string, dev: bool, tail: string)
    requires IsNumeral(x) && IsNumeral(y)
    requires tail == [] || tail[0] == ' '
    ensures GetVersion(x + "." + y + (if dev then "dev" else "") + tail) ==
      Ok((DigitsValue(x), DigitsValue(y), 0))
  {
    DigitsHaveNoMarks(x);
    DigitsHaveNoMarks(y);
    var v := x + "." + y;
    var word := v + (if dev then "dev" else "");
    FirstWordStops(word, tail);
    CutDevOfNumeral(v, dev);
    SplitTwo(x, y);
  }

  /** As written, a two-field version without "dev" loses the last digit of
      its minor number, and a one-digit minor number fails. */
  lemma GetVersionAsWrittenDropsLastDigit(x: string, y: string)
    requires IsNumeral(x) && IsNumeral(y)
    ensures GetVersionAsWritten(x + "." + y) ==
      if |y| == 1 then Err(NotANumber) else Ok((DigitsValue(x), DigitsValue(y[..|y| - 1]), 0))
  {
    DigitsHaveNoMarks(x);
    DigitsHaveNoMarks(y);
    var v := x + "." + y;
    FirstWordStops(v, []);
    assert v + [] == v;
    FindDev(v, []);
    var cut := y[..|y| - 1];
    assert CutDevAsWritten(v) == x + "." + cut;
    SplitTwo(x, cut);
  }

  // ---------------------------------------------------------------------------
  // is_available

  /** The C API is used only from Tesseract 3.4 on. */
  function MeetsMinimum(version: (nat, nat, nat)): (ok: bool)
    ensures ok <==> version.0 > 3 || (version.0 == 3 && version.1 >= 4)
  {
    !(version.0 < 3 || (version.0 == 3 && version.1 < 4))
  }

  /** A newer major.minor than an accepted version is accepted too; the update number is irrelevant. */
  lemma MeetsMinimumIsMonotonic(v: (nat, nat, nat), w: (nat, nat, nat))
    requires v.0 < w.0 || (v.0 == w.0 && v.1 <= w.1)
    ensures MeetsMinimum(v) ==> MeetsMinimum(w)
  {
  }

  /** is_available as written, over get_version as written. */
  function IsAvailableAsWritten(libraryAvailable: bool, rawVersion: string): (r: Result<bool, VersionError>)
    ensures r == Ok(true) <==> libraryAvailable && GetVersionAsWritten(rawVersion).Ok? && MeetsMinimum(GetVersionAsWritten(rawVersion).value)
    ensures r.Err? <==> libraryAvailable && GetVersionAsWritten(rawVersion).Err?
  {
    if !libraryAvailable then Ok(false)
    else
      var version := GetVersionAsWritten(rawVersion);
      if version.Err? then Err(version.error) else Ok(MeetsMinimum(version.value))
  }

  /** is_available over the corrected get_version: false without the library;
      otherwise the version gate, with get_version's failure propagated. */
  function IsAvailable(libraryAvailable: bool, rawVersion: string): (r: Result<bool, VersionError>)
    ensures r == Ok(true) <==> libraryAvailable && GetVersion(rawVersion).Ok? && MeetsMinimum(GetVersion(rawVersion).value)
    ensures r.Err? <==> libraryAvailable && GetVersion(rawVersion).Err?
  {
    if !libraryAvailable then Ok(false)
    else
      var version := GetVersion(rawVersion);
      if version.Err? then Err(version.error) else Ok(MeetsMinimum(version.value))
  }

  /** Tesseract "3.04" as written: it reads (3, 0, 0), which the gate rejects,
      so is_available reports false. */
  lemma Version304AsWritten()
    ensures GetVersionAsWritten("3.04") == Ok((3, 0, 0))
    ensures IsAvailableAsWritten(true, "3.04") == Ok(false)
  {
    var x, y, w := "3", "04", "3.04";
    assert w == x + "." + y;
    GetVersionAsWrittenDropsLastDigit(x, y);
    assert y[..1] == "0" && DigitsValue(x) == 3 && DigitsValue("0") == 0;
    assert GetVersionAsWritten(w) == Ok((3, 0, 0));
  }

  /** Tesseract "3.04" with the intended cut: it reads (3, 4, 0) and passes the gate. */
  lemma Version304()
    ensures GetVersion("3.04") == Ok((3, 4, 0)) && IsAvailable(true, "3.04") == Ok(true)
  {
    var x, y, w := "3", "04", "3.04";
    assert w == x + "." + y + "" + [];
    GetVersionTwoFields(x, y, false, []);
    assert DigitsValue(x) == 3 && DigitsValue(y) == 4;
    assert GetVersion(w) == Ok((3, 4, 0));
  }

  /** As written, a three-field version without "dev" loses the last digit of
      its update number, and fails when that number has one digit. */
  lemma GetVersionAsWrittenDropsLastUpdateDigit(x: string, y: string, z: string)
    requires IsNumeral(x) && IsNumeral(y) && IsNumeral(z)
    ensures GetVersionAsWritten(x + "." + y + "." + z) ==
      if |z| == 1 then Err(NotANumber) else Ok((DigitsValue(x), DigitsValue(y), DigitsValue(z[..|z| - 1])))
  {
    DigitsHaveNoMarks(x);
    DigitsHaveNoMarks(y);
    DigitsHaveNoMarks(z);
    var v := x + "." + y + "." + z;
    FirstWordStops(v, []);
    assert v + [] == v;
    FindDev(v, []);
    var cut := z[..|z| - 1];
    assert CutDevAsWritten(v) == x + "." + y + "." + cut;
    SplitThree(x, y, cut);
  }

  /** Tesseract "4.1.1" as written: the cut leaves "4.1." and int("") fails. */
  lemma Version411AsWritten()
    ensures GetVersionAsWritten("4.1.1") == Err(NotANumber)
  {
    var x := "1";
    assert "4.1.1" == "4" + "." + x + "." + x;
    GetVersionAsWrittenDropsLastUpdateDigit("4", x, x);
  }

  /** Tesseract "4.1.1" with the intended cut: it reads (4, 1, 1). */
  lemma Version411()
    ensures GetVersion("4.1.1") == Ok((4, 1, 1))
  {
    var x, w := "1", "4.1.1";
    assert w == "4" + "." + x + "." + x + "" + [];
    assert DigitsValue("4") == 4 && DigitsValue(x) == 1;
    GetVersionRoundTrip("4", x, x, false, []);
  }
}
