/** The Python string operations the core relies on: `str.join` and `str.strip`. */
module Text {

  /** `sep.join(parts)`. */
  function Join(sep: string, parts: seq<string>): string
  {
    if |parts| == 0 then ""
    else if |parts| == 1 then parts[0]
    else parts[0] + sep + Join(sep, parts[1..])
  }

  /** Where `parts[i]` starts inside `Join(sep, parts)`: every earlier part and its separator come first. */
  function Offset(sep: string, parts: seq<string>, i: nat): nat
    requires i <= |parts|
  {
    if i == 0 then 0 else |parts[0]| + |sep| + Offset(sep, parts[1..], i - 1)
  }

  /** The joined string is exactly the total length of the parts plus one separator between each pair. */
  lemma {:induction false} JoinLength(sep: string, parts: seq<string>)
    requires |parts| > 0
    ensures |Join(sep, parts)| + |sep| == Offset(sep, parts, |parts|)
  {
    if |parts| > 1 {
      JoinLength(sep, parts[1..]);
    }
  }

  /** The offset of the next part is past this part and one separator. */
  lemma {:induction false} OffsetStep(sep: string, parts: seq<string>, i: nat)
    requires i < |parts|
    ensures Offset(sep, parts, i + 1) == Offset(sep, parts, i) + |parts[i]| + |sep|
  {
    if i > 0 {
      OffsetStep(sep, parts[1..], i - 1);
    }
  }

  /** A slice of the right operand of a concatenation, read through the concatenation. */
  lemma ConcatSlice(x: string, y: string, lo: nat, hi: nat)
    requires lo <= hi <= |y|
    ensures (x + y)[|x| + lo..|x| + hi] == y[lo..hi]
  {
  }

  /** A join of several parts starts with the first part and its separator. */
  lemma JoinCons(sep: string, parts: seq<string>)
    requires |parts| > 1
    ensures |Join(sep, parts)| == |parts[0]| + |sep| + |Join(sep, parts[1..])|
    ensures Join(sep, parts)[0..|parts[0]|] == parts[0]
    ensures Join(sep, parts)[|parts[0]|..|parts[0]| + |sep|] == sep
    ensures Join(sep, parts)[|parts[0]| + |sep|..] == Join(sep, parts[1..])
  {
    var head := parts[0] + sep;
    assert Join(sep, parts) == head + Join(sep, parts[1..]);
    assert (head + Join(sep, parts[1..]))[0..|parts[0]|] == head[0..|parts[0]|];
    assert (head + Join(sep, parts[1..]))[|parts[0]|..|head|] == head[|parts[0]|..];
  }

  /** Past the first part and its separator, a join reads as the join of the remaining parts. */
  lemma JoinConsSlice(sep: string, parts: seq<string>, lo: nat, hi: nat)
    requires |parts| > 1
    requires lo <= hi <= |Join(sep, parts[1..])|
    ensures |parts[0]| + |sep| + hi <= |Join(sep, parts)|
    ensures Join(sep, parts)[|parts[0]| + |sep| + lo..|parts[0]| + |sep| + hi] == Join(sep, parts[1..])[lo..hi]
  {
    var head := parts[0] + sep;
    assert Join(sep, parts) == head + Join(sep, parts[1..]);
    ConcatSlice(head, Join(sep, parts[1..]), lo, hi);
  }

  /** Part `i` stands at its offset in the joined string. */
  lemma {:induction false} JoinPartAt(sep: string, parts: seq<string>, i: nat)
    requires i < |parts|
    ensures Offset(sep, parts, i) + |parts[i]| <= |Join(sep, parts)|
    ensures Join(sep, parts)[Offset(sep, parts, i)..Offset(sep, parts, i) + |parts[i]|] == parts[i]
  {
    if |parts| == 1 {
      assert Join(sep, parts) == parts[0];
    } else if i == 0 {
      JoinCons(sep, parts);
    } else {
      JoinPartAt(sep, parts[1..], i - 1);
      assert parts[1..][i - 1] == parts[i];
      var o := Offset(sep, parts[1..], i - 1);
      JoinConsSlice(sep, parts, o, o + |parts[i]|);
    }
  }

  /** Between part `i` and part `i + 1` stands exactly one separator. */
  lemma {:induction false} JoinSepAt(sep: string, parts: seq<string>, i: nat)
    requires i + 1 < |parts|
    ensures Offset(sep, parts, i) + |parts[i]| + |sep| <= |Join(sep, parts)|
    ensures Join(sep, parts)[Offset(sep, parts, i) + |parts[i]|..Offset(sep, parts, i) + |parts[i]| + |sep|] == sep
  {
    if i == 0 {
      JoinCons(sep, parts);
    } else {
      JoinSepAt(sep, parts[1..], i - 1);
      assert parts[1..][i - 1] == parts[i];
      var o := Offset(sep, parts[1..], i - 1) + |parts[i]|;
      JoinConsSlice(sep, parts, o, o + |sep|);
    }
  }

  /** Part `i` stands at its offset, and when another part follows, the separator stands right after it:
      the join keeps every part, in order, separated by `sep`. */
  lemma JoinLayout(sep: string, parts: seq<string>, i: nat)
    requires i < |parts|
    ensures Offset(sep, parts, i) + |parts[i]| <= |Join(sep, parts)|
    ensures Join(sep, parts)[Offset(sep, parts, i)..Offset(sep, parts, i) + |parts[i]|] == parts[i]
    ensures i + 1 < |parts| ==> Offset(sep, parts, i + 1) == Offset(sep, parts, i) + |parts[i]| + |sep|
    ensures i + 1 < |parts| ==> Offset(sep, parts, i + 1) <= |Join(sep, parts)|
    ensures i + 1 < |parts| ==>
              Join(sep, parts)[Offset(sep, parts, i) + |parts[i]|..Offset(sep, parts, i + 1)] == sep
  {
    JoinPartAt(sep, parts, i);
    if i + 1 < |parts| {
      OffsetStep(sep, parts, i);
      JoinSepAt(sep, parts, i);
    }
  }

  /** Appending a part to a non-empty list appends one separator and that part. */
  lemma {:induction false} JoinSnoc(sep: string, parts: seq<string>, last: string)
    requires |parts| > 0
    ensures Join(sep, parts + [last]) == Join(sep, parts) + sep + last
  {
    if |parts| == 1 {
      assert parts + [last] == [parts[0], last];
    } else {
      assert (parts + [last])[1..] == parts[1..] + [last];
      JoinSnoc(sep, parts[1..], last);
    }
  }

  /** The characters `str.isspace()` accepts and `str.strip()` removes: the ASCII controls
      TAB..CR and FS..US, SPACE, NEL, NO-BREAK SPACE, and the Unicode space separators. */
  predicate IsPySpace(c: char)
  {
    var n := c as int;
    (0x09 <= n <= 0x0D) || (0x1C <= n <= 0x20) || n == 0x85 || n == 0xA0 || n == 0x1680
    || (0x2000 <= n <= 0x200A) || n == 0x2028 || n == 0x2029 || n == 0x202F || n == 0x205F || n == 0x3000
  }

  /** Every character of `s` is whitespace (vacuously so for ""). */
  predicate IsBlank(s: string)
  {
    forall i :: 0 <= i < |s| ==> IsPySpace(s[i])
  }

  /** `s.lstrip()`: the longest suffix of `s` that does not start with whitespace. */
  function LStrip(s: string): (r: string)
    ensures |r| <= |s| && r == s[|s| - |r|..]
    ensures IsBlank(s[..|s| - |r|])
    ensures r != "" ==> !IsPySpace(r[0])
  {
    if s != "" && IsPySpace(s[0]) then
      var r := LStrip(s[1..]);
      assert s[..|s| - |r|] == [s[0]] + s[1..][..|s[1..]| - |r|];
      r
    else
      s
  }

  /** `s.rstrip()`: the longest prefix of `s` that does not end with whitespace. */
  function RStrip(s: string): (r: string)
    ensures |r| <= |s| && r == s[..|r|]
    ensures IsBlank(s[|r|..])
    ensures r != "" ==> !IsPySpace(r[|r| - 1])
  {
    if s != "" && IsPySpace(s[|s| - 1]) then
      var r := RStrip(s[..|s| - 1]);
      assert s[|r|..] == s[..|s| - 1][|r|..] + [s[|s| - 1]];
      r
    else
      s
  }

  /** `s.strip()`: no longer than `s`, neither starting nor ending with whitespace, and empty exactly
      when `s` is blank. */
  function Strip(s: string): (r: string)
    ensures |r| <= |s|
    ensures r != "" ==> !IsPySpace(r[0]) && !IsPySpace(r[|r| - 1])
    ensures r == "" <==> IsBlank(s)
  {
    RStrip(LStrip(s))
  }
}
