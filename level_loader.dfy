/** Reading a level file (main.py `load_level`): every line is stripped of
    surrounding whitespace, then right-padded with '.' to the length of the
    longest stripped line. File access is left to the caller, which passes the
    lines of the file. */
module LevelLoader {
  import opened Wrappers

  /** The fill character of `str.ljust` in `load_level`, also the "empty" cell code. */
  const Empty: char := '.'

  /** The characters Python's `str.isspace` accepts, which `str.strip()` removes. */
  predicate IsSpace(c: char)
  {
    c in {'\t', '\n', '\U{B}', '\U{C}', '\r', '\U{1C}', '\U{1D}', '\U{1E}', '\U{1F}', ' ',
          '\U{85}', '\U{A0}', '\U{1680}', '\U{2000}', '\U{2001}', '\U{2002}', '\U{2003}',
          '\U{2004}', '\U{2005}', '\U{2006}', '\U{2007}', '\U{2008}', '\U{2009}', '\U{200A}',
          '\U{2028}', '\U{2029}', '\U{202F}', '\U{205F}', '\U{3000}'}
  }

  /** r is s with exactly the whitespace prefix of length i and some whitespace
      suffix removed. */
  ghost predicate StrippedAt(s: string, r: string, i: nat)
  {
    i + |r| <= |s| && s[i..i + |r|] == r &&
    (forall k :: 0 <= k < i ==> IsSpace(s[k])) &&
    (forall k :: i + |r| <= k < |s| ==> IsSpace(s[k]))
  }

  /** `str.lstrip()`: drop leading whitespace. */
  function StripLeft(s: string): (r: string)
    ensures |r| <= |s| && r == s[|s| - |r|..]
    ensures forall k :: 0 <= k < |s| - |r| ==> IsSpace(s[k])
    ensures r == [] || !IsSpace(r[0])
  {
    if |s| > 0 && IsSpace(s[0]) then StripLeft(s[1..]) else s
  }

  /** `str.rstrip()`: drop trailing whitespace. */
  function StripRight(s: string): (r: string)
    ensures |r| <= |s| && r == s[..|r|]
    ensures forall k :: |r| <= k < |s| ==> IsSpace(s[k])
    ensures r == [] || !IsSpace(r[|r| - 1])
  {
    if |s| > 0 && IsSpace(s[|s| - 1]) then StripRight(s[..|s| - 1]) else s
  }

  /** `str.strip()`: the result is a slice of s with only whitespace cut away
      on either side, and it neither starts nor ends with whitespace. */
  function Strip(s: string): (r: string)
    ensures exists i :: StrippedAt(s, r, i)
    ensures r == [] || (!IsSpace(r[0]) && !IsSpace(r[|r| - 1]))
  {
    var left := StripLeft(s);
    var r := StripRight(left);
    assert StrippedAt(s, r, |s| - |left|) by {
      assert left[..|r|] == s[|s| - |left|..][..|r|];
    }
    r
  }

  /** `str.ljust(width, '.')`: s followed by as many '.' as it takes to reach
      `width`; a longer s is returned unchanged. */
  function PadRight(s: string, width: nat): (r: string)
    ensures |r| == if |s| < width then width else |s|
    ensures r[..|s|] == s
    ensures forall k :: |s| <= k < |r| ==> r[k] == Empty
  {
    if |s| < width then s + seq(width - |s|, _ => Empty) else s
  }

  /** `max(map(len, rows))` for a non-empty list: the length of a longest row. */
  function MaxWidth(rows: seq<string>): (m: nat)
    requires |rows| > 0
    ensures forall i :: 0 <= i < |rows| ==> |rows[i]| <= m
    ensures exists i :: 0 <= i < |rows| && |rows[i]| == m
  {
    if |rows| == 1 then |rows[0]|
    else
      var rest := MaxWidth(rows[1..]);
      assert forall i :: 1 <= i < |rows| ==> rows[i] == rows[1..][i - 1];
      if |rows[0]| < rest then rest else |rows[0]|
  }

  /** Why a level file could not be turned into a grid. */
  datatype LoadError =
    /** `max()` of an empty sequence raises ValueError on a file with no lines. */
    | EmptyLevelFile

  /** The stripped lines, `[line.strip() for line in map_file]`. */
  function StripLines(lines: seq<string>): (r: seq<string>)
    // spelled out so that callers need not unfold the body
    ensures |r| == |lines|
    ensures forall i :: 0 <= i < |lines| ==> r[i] == Strip(lines[i])
  {
    seq(|lines|, i requires 0 <= i < |lines| => Strip(lines[i]))
  }

  /** The grid `load_level` returns for the given file lines: every row is its
      stripped line followed only by '.', all rows have the width of the
      longest stripped line, and an empty file is an error. */
  function LoadLevel(lines: seq<string>): (r: Result<seq<string>, LoadError>)
    ensures r.Failure? <==> |lines| == 0
    ensures r.Success? ==>
      |r.value| == |lines| &&
      forall i :: 0 <= i < |lines| ==>
        |r.value[i]| == MaxWidth(StripLines(lines)) &&
        r.value[i][..|Strip(lines[i])|] == Strip(lines[i]) &&
        forall k :: |Strip(lines[i])| <= k < |r.value[i]| ==> r.value[i][k] == Empty
  {
    if |lines| == 0 then Failure(EmptyLevelFile)
    else
      var stripped := StripLines(lines);
      var width := MaxWidth(stripped);
      Success(seq(|lines|, i requires 0 <= i < |lines| => PadRight(stripped[i], width)))
  }

  /** A loaded grid is rectangular: every row has the same length. */
  lemma LoadedRowsEqualWidth(lines: seq<string>, i: nat, j: nat)
    requires LoadLevel(lines).Success?
    requires i < |lines| && j < |lines|
    ensures |LoadLevel(lines).value[i]| == |LoadLevel(lines).value[j]|
  {
  }
}
