/** Python `str` operations the modelled code relies on: `split` with a
    separator, `join`, `strip()`, `splitlines()`, `replace(c, '')`, string
    ordering and `str(int)`. */
module Strings {

  /** String concatenation regroups. */
  lemma Concat3(a: string, b: string, c: string)
    ensures a + b + c == a + (b + c)
  {
  }

  /** `sep.join(fields)`. */
  function Join(fields: seq<string>, sep: string): string {
    if fields == [] then ""
    else if |fields| == 1 then fields[0]
    else Join(fields[..|fields| - 1], sep) + sep + fields[|fields| - 1]
  }

  predicate StartsWith(s: string, p: string) {
    |p| <= |s| && s[..|p|] == p
  }

  /** `s.split(sep)` for a non-empty separator: occurrences are found from
      left to right and never overlap; the result always has at least one
      field. */
  function Split(s: string, sep: string): (r: seq<string>)
    requires |sep| > 0
    ensures |r| >= 1
    decreases |s|
  {
    if StartsWith(s, sep) then [""] + Split(s[|sep|..], sep)
    else if s == [] then [""]
    else var rest := Split(s[1..], sep); [[s[0]] + rest[0]] + rest[1..]
  }

  /** Joining the fields of a split with the same separator gives the
      original string back. */
  lemma {:induction false} JoinSplit(s: string, sep: string)
    requires |sep| > 0
    ensures Join(Split(s, sep), sep) == s
    decreases |s|
  {
    if StartsWith(s, sep) {
      JoinSplit(s[|sep|..], sep);
      JoinSplitSep(s, sep);
    } else if s != [] {
      JoinSplit(s[1..], sep);
      JoinSplitChar(s, sep);
    }
  }

  /** Text starting with the separator: an empty first field. */
  lemma JoinSplitSep(s: string, sep: string)
    requires |sep| > 0 && StartsWith(s, sep)
    requires Join(Split(s[|sep|..], sep), sep) == s[|sep|..]
    ensures Join(Split(s, sep), sep) == s
  {
    var rest := Split(s[|sep|..], sep);
    assert Split(s, sep) == [""] + rest;
    JoinCons("", rest, sep);
    PrefixRest(s, sep);
  }

  /** Text starting with `p` is `p` followed by the rest. */
  lemma PrefixRest(s: string, p: string)
    requires StartsWith(s, p)
    ensures "" + p + s[|p|..] == s
  {
    assert s == s[..|p|] + s[|p|..];
  }

  /** Text not starting with the separator: its first character leads the
      first field. */
  lemma JoinSplitChar(s: string, sep: string)
    requires |sep| > 0 && !StartsWith(s, sep) && s != []
    requires Join(Split(s[1..], sep), sep) == s[1..]
    ensures Join(Split(s, sep), sep) == s
  {
    JoinHead([s[0]], Split(s[1..], sep), sep);
    assert s == [s[0]] + s[1..];
  }

  /** `sep.join([f] + fs) == f + sep + sep.join(fs)` for a non-empty `fs`. */
  lemma {:induction false} JoinCons(f: string, fs: seq<string>, sep: string)
    requires |fs| >= 1
    ensures Join([f] + fs, sep) == f + sep + Join(fs, sep)
    decreases |fs|
  {
    if |fs| > 1 {
      var last := fs[|fs| - 1];
      assert ([f] + fs)[..|fs|] == [f] + fs[..|fs| - 1];
      JoinCons(f, fs[..|fs| - 1], sep);
    }
  }

  /** Prepending text to the first field prepends it to the joined string. */
  lemma {:induction false} JoinHead(p: string, fs: seq<string>, sep: string)
    requires |fs| >= 1
    ensures Join([p + fs[0]] + fs[1..], sep) == p + Join(fs, sep)
  {
    if |fs| > 1 {
      JoinCons(p + fs[0], fs[1..], sep);
      JoinCons(fs[0], fs[1..], sep);
      assert [fs[0]] + fs[1..] == fs;
    }
  }

  /** With a one-character separator, no field of a split contains it. */
  lemma {:induction false} SplitFieldsFree(s: string, c: char)
    ensures forall i :: 0 <= i < |Split(s, [c])| ==> c !in Split(s, [c])[i]
    decreases |s|
  {
    if s != [] {
      SplitFieldsFree(s[1..], c);
    }
  }

  /** With a one-character separator that no field contains, splitting a
      join gives the fields back. */
  lemma {:induction false} SplitJoin(fields: seq<string>, c: char)
    requires |fields| >= 1
    requires forall i :: 0 <= i < |fields| ==> c !in fields[i]
    ensures Split(Join(fields, [c]), [c]) == fields
    decreases |fields|, |fields[0]|
  {
    if |fields| == 1 {
      SplitFree(fields[0], c);
    } else if fields[0] == [] {
      SplitJoin(fields[1..], c);
      SplitJoinEmptyHead(fields, c);
    } else {
      var t := [fields[0][1..]] + fields[1..];
      assert forall i :: 0 <= i < |t| ==> c !in t[i] by {
        assert t[0] == fields[0][1..];
        assert forall i :: 1 <= i < |t| ==> t[i] == fields[i];
      }
      SplitJoin(t, c);
      SplitJoinHead(fields, c);
    }
  }

  /** An empty first field: the joined text starts with the separator. */
  lemma SplitJoinEmptyHead(fields: seq<string>, c: char)
    requires |fields| >= 2 && fields[0] == []
    requires Split(Join(fields[1..], [c]), [c]) == fields[1..]
    ensures Split(Join(fields, [c]), [c]) == fields
  {
    JoinCons([], fields[1..], [c]);
    assert [fields[0]] + fields[1..] == fields;
    var j := Join(fields[1..], [c]);
    assert Join(fields, [c]) == [c] + j;
    assert StartsWith([c] + j, [c]);
    assert ([c] + j)[1..] == j;
  }

  /** A non-empty first field: its first character starts the first field
      of the split of the joined text. */
  lemma SplitJoinHead(fields: seq<string>, c: char)
    requires |fields| >= 2 && fields[0] != [] && fields[0][0] != c
    requires Split(Join([fields[0][1..]] + fields[1..], [c]), [c]) == [fields[0][1..]] + fields[1..]
    ensures Split(Join(fields, [c]), [c]) == fields
  {
    var f := fields[0];
    var t := [f[1..]] + fields[1..];
    var s := Join(fields, [c]);
    JoinTail(fields, c);
    SplitUnfold(s, c);
    ConsHead(f, fields);
  }

  /** Dropping the first character of the joined text drops it from the
      first field. */
  lemma JoinTail(fields: seq<string>, c: char)
    requires |fields| >= 2 && fields[0] != []
    ensures var s := Join(fields, [c]);
      s != [] && s[0] == fields[0][0] && s[1..] == Join([fields[0][1..]] + fields[1..], [c])
  {
    var f := fields[0];
    JoinText(fields, c);
    JoinCons(f[1..], fields[1..], [c]);
    Concat3([f[0]], f[1..] + [c], Join(fields[1..], [c]));
    assert f + [c] == [f[0]] + (f[1..] + [c]);
  }

  /** A list whose first string is split into its first character and the
      rest is the same list. */
  lemma ConsHead(f: string, fields: seq<string>)
    requires fields != [] && fields[0] == f && f != []
    ensures [[f[0]] + ([f[1..]] + fields[1..])[0]] + ([f[1..]] + fields[1..])[1..] == fields
  {
    assert [f[0]] + f[1..] == f;
    assert ([f[1..]] + fields[1..])[1..] == fields[1..];
  }

  /** The joined text is the first field, the separator, then the rest. */
  lemma JoinText(fields: seq<string>, c: char)
    requires |fields| >= 2
    ensures Join(fields, [c]) == fields[0] + [c] + Join(fields[1..], [c])
  {
    JoinCons(fields[0], fields[1..], [c]);
    assert [fields[0]] + fields[1..] == fields;
  }

  /** Splitting text that does not start with the separator puts its first
      character at the front of the first field. */
  lemma SplitUnfold(s: string, c: char)
    requires s != [] && s[0] != c
    ensures Split(s, [c]) == [[s[0]] + Split(s[1..], [c])[0]] + Split(s[1..], [c])[1..]
  {
    assert !StartsWith(s, [c]);
  }

  /** A string without the separator splits into itself. */
  lemma {:induction false} SplitFree(s: string, c: char)
    requires c !in s
    ensures Split(s, [c]) == [s]
    decreases |s|
  {
    if s != [] {
      SplitFree(s[1..], c);
      assert [s[0]] + s[1..] == s;
    }
  }

  /** Python's `p in s` on strings: `p` occurs in `s` from some position. */
  predicate Occurs(p: string, s: string)
    decreases |s|
  {
    StartsWith(s, p) || (s != [] && Occurs(p, s[1..]))
  }

  /** `p in s` holds exactly when `p` is a prefix of some suffix of `s`. */
  lemma {:induction false} OccursAt(p: string, s: string)
    ensures Occurs(p, s) <==> exists i :: 0 <= i <= |s| && StartsWith(s[i..], p)
    decreases |s|
  {
    assert s[0..] == s;
    if s != [] {
      OccursAt(p, s[1..]);
      if !StartsWith(s, p) && Occurs(p, s[1..]) {
        var i :| 0 <= i <= |s[1..]| && StartsWith(s[1..][i..], p);
        assert s[1..][i..] == s[i + 1..];
      }
      if exists i :: 0 <= i <= |s| && StartsWith(s[i..], p) {
        var i :| 0 <= i <= |s| && StartsWith(s[i..], p);
        if i > 0 {
          assert s[1..][i - 1..] == s[i..];
        }
      }
    }
  }

  /** A string occurs in any text that has it between two other parts. */
  lemma OccursMiddle(p: string, a: string, b: string)
    ensures Occurs(p, a + p + b)
  {
    var s := a + p + b;
    assert s[|a|..] == p + b;
    assert StartsWith(s[|a|..], p);
    OccursAt(p, s);
  }

  lemma OccursPrefix(p: string, b: string)
    ensures Occurs(p, p + b)
  {
    assert (p + b)[..|p|] == p;
  }

  /** Text added in front keeps an occurrence. */
  lemma {:induction false} OccursLeft(p: string, a: string, s: string)
    requires Occurs(p, s)
    ensures Occurs(p, a + s)
    decreases |a|
  {
    if a == [] {
      assert a + s == s;
    } else {
      OccursLeft(p, a[1..], s);
      assert (a + s)[1..] == a[1..] + s;
    }
  }

  /** Text added behind keeps an occurrence. */
  lemma {:induction false} OccursRight(p: string, s: string, b: string)
    requires Occurs(p, s)
    ensures Occurs(p, s + b)
    decreases |s|
  {
    if StartsWith(s, p) {
      assert (s + b)[..|p|] == s[..|p|];
    } else {
      OccursRight(p, s[1..], b);
      assert (s + b)[1..] == s[1..] + b;
    }
  }

  /** Whitespace as Python's `str.isspace` decides it. */
  predicate IsSpace(c: char) {
    c == ' ' || ('\t' <= c <= '\r') || ('\U{1C}' <= c <= '\U{1F}') || c == '\U{85}' ||
    c == '\U{A0}' || c == '\U{1680}' || ('\U{2000}' <= c <= '\U{200A}') ||
    c == '\U{2028}' || c == '\U{2029}' || c == '\U{202F}' || c == '\U{205F}' || c == '\U{3000}'
  }

  function TrimStart(s: string): (r: string)
    ensures |r| <= |s|
  {
    if s != [] && IsSpace(s[0]) then TrimStart(s[1..]) else s
  }

  /** Only leading whitespace is removed, and all of it. */
  lemma {:induction false} TrimStartSpec(s: string)
    ensures TrimStart(s) == s[|s| - |TrimStart(s)|..]
    ensures forall i :: 0 <= i < |s| - |TrimStart(s)| ==> IsSpace(s[i])
    ensures TrimStart(s) == [] || !IsSpace(TrimStart(s)[0])
  {
    if s != [] && IsSpace(s[0]) {
      TrimStartSpec(s[1..]);
      assert s[1..][|s| - 1 - |TrimStart(s)|..] == s[|s| - |TrimStart(s)|..];
      forall i | 1 <= i < |s| - |TrimStart(s)| ensures IsSpace(s[i]) {
        assert s[1..][i - 1] == s[i];
      }
    }
  }

  function TrimEnd(s: string): (r: string)
    ensures |r| <= |s|
  {
    if s != [] && IsSpace(s[|s| - 1]) then TrimEnd(s[..|s| - 1]) else s
  }

  /** Only trailing whitespace is removed, and all of it. */
  lemma {:induction false} TrimEndSpec(s: string)
    ensures TrimEnd(s) == s[..|TrimEnd(s)|]
    ensures forall i :: |TrimEnd(s)| <= i < |s| ==> IsSpace(s[i])
    ensures TrimEnd(s) == [] || !IsSpace(TrimEnd(s)[|TrimEnd(s)| - 1])
  {
    if s != [] && IsSpace(s[|s| - 1]) {
      var n := |s| - 1;
      TrimEndSpec(s[..n]);
      assert s[..n][..|TrimEnd(s)|] == s[..|TrimEnd(s)|];
      forall i | |TrimEnd(s)| <= i < n ensures IsSpace(s[i]) {
        assert s[..n][i] == s[i];
      }
    }
  }

  /** How many whitespace characters `strip()` removes from the front. */
  function StripStart(s: string): (i: nat)
    ensures i <= |s|
  {
    |s| - |TrimStart(s)|
  }

  /** `s.strip()`. */
  function Strip(s: string): (r: string)
    ensures |r| <= |s|
  {
    TrimEnd(TrimStart(s))
  }

  /** `strip()` keeps a slice of `s`: only whitespace is removed at both
      ends, and the result neither starts nor ends with whitespace. */
  lemma StripSpec(s: string)
    ensures var r := Strip(s);
      StripStart(s) + |r| <= |s| && r == s[StripStart(s)..StripStart(s) + |r|]
      && (forall j :: 0 <= j < StripStart(s) ==> IsSpace(s[j]))
      && (forall j :: StripStart(s) + |r| <= j < |s| ==> IsSpace(s[j]))
      && (r == [] || (!IsSpace(r[0]) && !IsSpace(r[|r| - 1])))
  {
    var t := TrimStart(s);
    var r := TrimEnd(t);
    TrimStartSpec(s);
    TrimEndSpec(t);
    forall j | StripStart(s) + |r| <= j < |s| ensures IsSpace(s[j]) {
      assert s[j] == t[j - StripStart(s)];
    }
  }

  /** A line boundary as Python's `str.splitlines` recognises it. */
  predicate IsLineBreak(c: char) {
    ('\n' <= c <= '\r') || ('\U{1C}' <= c <= '\U{1E}') || c == '\U{85}' ||
    c == '\U{2028}' || c == '\U{2029}'
  }

  /** The index of the first line boundary, or `|s|`. */
  function LineEnd(s: string): (i: nat)
    ensures i <= |s| && (i < |s| ==> IsLineBreak(s[i]))
  {
    if s == [] || IsLineBreak(s[0]) then 0 else 1 + LineEnd(s[1..])
  }

  lemma {:induction false} LineEndSpec(s: string)
    ensures forall j :: 0 <= j < LineEnd(s) ==> !IsLineBreak(s[j])
  {
    if !(s == [] || IsLineBreak(s[0])) {
      LineEndSpec(s[1..]);
      forall j | 1 <= j < LineEnd(s) ensures !IsLineBreak(s[j]) {
        assert s[1..][j - 1] == s[j];
      }
    }
  }

  /** `s.splitlines()`: the lines without their boundaries (`\r\n` counts as
      one); a final boundary does not start an empty line. */
  function SplitLines(s: string): (r: seq<string>)
    decreases |s|
  {
    if s == [] then []
    else
      var i := LineEnd(s);
      if i == |s| then [s]
      else
        var next := if s[i] == '\r' && i + 1 < |s| && s[i + 1] == '\n' then i + 2 else i + 1;
        [s[..i]] + SplitLines(s[next..])
  }

  /** No line holds a line boundary. */
  lemma {:induction false} SplitLinesSpec(s: string)
    ensures forall k :: 0 <= k < |SplitLines(s)| ==> forall j :: 0 <= j < |SplitLines(s)[k]| ==> !IsLineBreak(SplitLines(s)[k][j])
    decreases |s|
  {
    if s != [] {
      var i := LineEnd(s);
      LineEndSpec(s);
      if i < |s| {
        var next := if s[i] == '\r' && i + 1 < |s| && s[i + 1] == '\n' then i + 2 else i + 1;
        SplitLinesSpec(s[next..]);
      }
    }
  }

  predicate NoLineBreak(a: string) {
    forall j :: 0 <= j < |a| ==> !IsLineBreak(a[j])
  }

  lemma {:induction false} LineEndAt(a: string, b: string)
    requires NoLineBreak(a)
    requires b == [] || IsLineBreak(b[0])
    ensures LineEnd(a + b) == |a|
  {
    if a != [] {
      assert (a + b)[0] == a[0];
      assert (a + b)[1..] == a[1..] + b;
      LineEndAt(a[1..], b);
    } else {
      assert a + b == b;
    }
  }

  /** A line without boundaries followed by a newline and more text splits
      into that line and the lines of the rest; a last line without
      boundaries is one line. */
  lemma SplitLinesCons(a: string, b: string)
    requires NoLineBreak(a)
    ensures SplitLines(a + "\n" + b) == [a] + SplitLines(b)
    ensures a != [] ==> SplitLines(a) == [a]
  {
    var s := a + "\n" + b;
    LineEndAt(a, "\n" + b);
    assert s == a + ("\n" + b);
    assert s[|a|] == '\n';
    assert s[..|a|] == a && s[|a| + 1..] == b;
    LineEndAt(a, []);
    assert a + [] == a;
  }

  /** `s.replace(c, '')`: every occurrence of `c` removed. */
  function RemoveChar(s: string, c: char): (r: string)
    ensures c !in r
    ensures c !in s ==> r == s
    ensures |r| <= |s|
  {
    if s == [] then []
    else (if s[0] == c then [] else [s[0]]) + RemoveChar(s[1..], c)
  }

  /** Python's string ordering `a <= b`: lexicographic by code point. */
  predicate LexLe(a: string, b: string) {
    a == [] || (b != [] && (a[0] < b[0] || (a[0] == b[0] && LexLe(a[1..], b[1..]))))
  }

  lemma {:induction false} LexLeTotal(a: string, b: string)
    ensures LexLe(a, b) || LexLe(b, a)
  {
    if a != [] && b != [] && a[0] == b[0] {
      LexLeTotal(a[1..], b[1..]);
    }
  }

  lemma {:induction false} LexLeTrans(a: string, b: string, c: string)
    requires LexLe(a, b) && LexLe(b, c)
    ensures LexLe(a, c)
  {
    if a != [] && b != [] && c != [] && a[0] == b[0] == c[0] {
      LexLeTrans(a[1..], b[1..], c[1..]);
    }
  }

  function DigitChar(d: nat): char
    requires d < 10
  {
    "0123456789"[d]
  }

  function NatToString(n: nat): string
    decreases n
  {
    if n < 10 then [DigitChar(n)] else NatToString(n / 10) + [DigitChar(n % 10)]
  }

  /** `str(n)` for an integer. */
  function IntToString(n: int): string {
    if n < 0 then "-" + NatToString(-n) else NatToString(n)
  }
}
