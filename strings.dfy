/** The Python `str` operations the tool modules rely on, over `seq<char>`:
    `lower()`, `strip()`, `split()`, `split(sep)`, `sep.join(parts)`, the
    substring test `sub in s`, `find`, `startswith`/`endswith`, and `str(n)` /
    `int(s)` for integers. */
module Strings {
  import opened Wrappers

  /** The characters for which Python's `str.isspace()` holds; `strip()` and
      `split()` without an argument remove exactly these. */
  predicate IsSpace(c: char) {
    || c == ' ' || c == '\t' || c == '\n' || c == '\r' || c == '\U{B}' || c == '\U{C}'
    || ('\U{1C}' <= c <= '\U{1F}') || c == '\U{85}' || c == '\U{A0}' || c == '\U{1680}'
    || ('\U{2000}' <= c <= '\U{200A}') || c == '\U{2028}' || c == '\U{2029}'
    || c == '\U{202F}' || c == '\U{205F}' || c == '\U{3000}'
  }

  predicate IsUpper(c: char) { 'A' <= c <= 'Z' }

  /** `lower()` on one character (ASCII letters only; see README). */
  function LowerChar(c: char): char {
    if IsUpper(c) then (c as int + 32) as char else c
  }

  /** `s.lower()`: same length, every character lowered. */
  function Lower(s: string): (r: string)
    ensures |r| == |s|
    ensures forall i :: 0 <= i < |s| ==> r[i] == LowerChar(s[i])
  {
    seq(|s|, i requires 0 <= i < |s| => LowerChar(s[i]))
  }

  lemma LowerIdempotent(s: string)
    ensures Lower(Lower(s)) == Lower(s)
  {
    assert forall i :: 0 <= i < |s| ==> LowerChar(LowerChar(s[i])) == LowerChar(s[i]);
  }

  lemma LowerSlice(s: string, a: nat, b: nat)
    requires a <= b <= |s|
    ensures Lower(s[a..b]) == Lower(s)[a..b]
  {
  }

  lemma LowerAppend(s: string, t: string)
    ensures Lower(s + t) == Lower(s) + Lower(t)
  {
  }

  /** `s.startswith(p)` */
  predicate StartsWith(s: string, p: string) {
    |p| <= |s| && s[..|p|] == p
  }

  /** `s.endswith(p)` */
  predicate EndsWith(s: string, p: string) {
    |p| <= |s| && s[|s| - |p|..] == p
  }

  /** Python's substring test `sub in s`. */
  predicate Contains(s: string, sub: string)
    decreases |s|
  {
    StartsWith(s, sub) || (|s| > 0 && Contains(s[1..], sub))
  }

  /** `s.find(sub)`: the first index at which `sub` occurs, or -1. */
  function IndexOf(s: string, sub: string): (r: int)
    ensures r < 0 ==> r == -1
    ensures r >= 0 ==> r + |sub| <= |s|
    ensures r >= 0 <==> Contains(s, sub)
    ensures r >= 0 ==> s[r..r + |sub|] == sub
    ensures r >= 0 ==> forall j :: 0 <= j < r ==> !StartsWith(s[j..], sub)
    decreases |s|
  {
    if StartsWith(s, sub) then 0
    else if |s| == 0 then -1
    else
      var k := IndexOf(s[1..], sub);
      if k < 0 then -1
      else
        assert forall j :: 1 <= j <= k ==> s[j..] == s[1..][j - 1..];
        k + 1
  }

  lemma ContainsAt(s: string, sub: string, i: nat)
    requires i + |sub| <= |s| && s[i..i + |sub|] == sub
    ensures Contains(s, sub)
    decreases i
  {
    if i > 0 {
      assert s[1..][i - 1..i - 1 + |sub|] == sub;
      ContainsAt(s[1..], sub, i - 1);
    }
  }

  lemma ContainsInPrefix(s: string, t: string, sub: string)
    requires Contains(s, sub)
    ensures Contains(s + t, sub)
  {
    var i := IndexOf(s, sub);
    assert (s + t)[i..i + |sub|] == s[i..i + |sub|];
    ContainsAt(s + t, sub, i);
  }

  lemma ContainsInSuffix(s: string, t: string, sub: string)
    requires Contains(t, sub)
    ensures Contains(s + t, sub)
  {
    var i := IndexOf(t, sub);
    assert (s + t)[|s| + i..|s| + i + |sub|] == t[i..i + |sub|];
    ContainsAt(s + t, sub, |s| + i);
  }

  /** A substring of a substring is a substring. */
  lemma ContainsTrans(s: string, mid: string, sub: string)
    requires Contains(s, mid) && Contains(mid, sub)
    ensures Contains(s, sub)
  {
    OccursInWhole(s, IndexOf(s, mid), mid, IndexOf(mid, sub), sub);
  }

  /** An occurrence of `w` at `j` in the part `t` of `s` that starts at
      `start` is an occurrence in `s`. */
  lemma OccursInWhole(s: string, start: nat, t: string, j: nat, w: string)
    requires start + |t| <= |s| && s[start..start + |t|] == t
    requires j + |w| <= |t| && t[j..j + |w|] == w
    ensures Contains(s, w)
  {
    var i := start + j;
    forall k | 0 <= k < |w|
      ensures s[i + k] == w[k]
    {
      assert s[i + k] == s[start..start + |t|][j + k] == t[j + k];
      assert t[j + k] == t[j..j + |w|][k];
    }
    assert s[i..i + |w|] == w;
    ContainsAt(s, w, i);
  }

  lemma ContainsEmpty(s: string)
    ensures Contains(s, "")
  {
  }

  /** A one-character pattern occurs iff that character does. */
  lemma ContainsChar(s: string, c: char)
    ensures Contains(s, [c]) <==> c in s
    decreases |s|
  {
    if |s| > 0 {
      ContainsChar(s[1..], c);
      assert s == [s[0]] + s[1..];
    }
  }

  /** `s.lstrip()` */
  function LStrip(s: string): (r: string)
    ensures |r| <= |s| && r == s[|s| - |r|..]
    ensures r == [] || !IsSpace(r[0])
    ensures forall i :: 0 <= i < |s| - |r| ==> IsSpace(s[i])
  {
    if |s| > 0 && IsSpace(s[0]) then LStrip(s[1..]) else s
  }

  /** `s.rstrip()` */
  function RStrip(s: string): (r: string)
    ensures |r| <= |s| && r == s[..|r|]
    ensures r == [] || !IsSpace(r[|r| - 1])
    ensures forall i :: |r| <= i < |s| ==> IsSpace(s[i])
  {
    if |s| > 0 && IsSpace(s[|s| - 1]) then RStrip(s[..|s| - 1]) else s
  }

  /** `s.strip()` */
  function Strip(s: string): string {
    RStrip(LStrip(s))
  }

  /** `not s.strip()`: the string holds only whitespace. */
  predicate IsBlank(s: string) {
    Strip(s) == ""
  }

  /** A string with a character that is not whitespace is not blank. */
  lemma NotBlankAt(s: string, i: nat)
    requires i < |s| && !IsSpace(s[i])
    ensures !IsBlank(s)
  {
    BlankIffAllSpace(s);
  }

  lemma BlankIffAllSpace(s: string)
    ensures IsBlank(s) <==> forall i :: 0 <= i < |s| ==> IsSpace(s[i])
  {
    var l := LStrip(s);
    assert l != [] ==> l[0] == s[|s| - |l|];
  }

  /** The length of the leading run of non-whitespace characters. */
  function TokenLength(s: string): (k: nat)
    ensures k <= |s|
    ensures |s| > 0 && !IsSpace(s[0]) ==> k >= 1
    ensures k < |s| ==> IsSpace(s[k])
    ensures forall i :: 0 <= i < k ==> !IsSpace(s[i])
  {
    if |s| == 0 || IsSpace(s[0]) then 0 else 1 + TokenLength(s[1..])
  }

  /** `s.split()`: the maximal runs of non-whitespace characters, in order. */
  function Words(s: string): (r: seq<string>)
    ensures forall k :: 0 <= k < |r| ==> r[k] != []
    decreases |s|
  {
    if s == [] then []
    else if IsSpace(s[0]) then Words(s[1..])
    else
      var k := TokenLength(s);
      [s[..k]] + Words(s[k..])
  }

  /** A blank string splits into no words. */
  lemma WordsOfBlank(s: string)
    requires forall i :: 0 <= i < |s| ==> IsSpace(s[i])
    ensures Words(s) == []
  {
  }

  /** `s.split(sep)` for a non-empty separator. */
  function Split(s: string, sep: string): (r: seq<string>)
    requires sep != []
    ensures |r| >= 1
    decreases |s|
  {
    var i := IndexOf(s, sep);
    if i < 0 then [s] else [s[..i]] + Split(s[i + |sep|..], sep)
  }

  /** `sep.join(parts)` */
  function Join(parts: seq<string>, sep: string): string
  {
    if |parts| == 0 then ""
    else if |parts| == 1 then parts[0]
    else parts[0] + sep + Join(parts[1..], sep)
  }

  lemma JoinCons(a: string, tail: seq<string>, sep: string)
    requires |tail| >= 1
    ensures Join([a] + tail, sep) == a + sep + Join(tail, sep)
  {
    assert ([a] + tail)[1..] == tail;
  }

  /** Where the separator is found, the first piece is the text before it
      and the rest are the pieces of the text after it. */
  lemma SplitFound(s: string, sep: string)
    requires sep != [] && IndexOf(s, sep) >= 0
    ensures Split(s, sep) == [s[..IndexOf(s, sep)]] + Split(s[IndexOf(s, sep) + |sep|..], sep)
  {
  }

  /** Joining the pieces of a split gives back the string. */
  lemma {:induction false} JoinSplit(s: string, sep: string)
    requires sep != []
    ensures Join(Split(s, sep), sep) == s
    decreases |s|
  {
    var i := IndexOf(s, sep);
    if i >= 0 {
      var rest := s[i + |sep|..];
      var tail := Split(rest, sep);
      SplitFound(s, sep);
      JoinSplit(rest, sep);
      JoinCons(s[..i], tail, sep);
      Reassemble(s, i, |sep|);
    } else {
      assert Split(s, sep) == [s];
    }
  }

  /** A string is its three consecutive slices. */
  lemma Reassemble(s: string, i: nat, n: nat)
    requires i + n <= |s|
    ensures s == s[..i] + s[i..i + n] + s[i + n..]
  {
  }

  /** Splitting a join on a character none of the parts holds gives the parts back. */
  lemma {:induction false} SplitJoin(parts: seq<string>, c: char)
    requires |parts| >= 1
    requires forall k :: 0 <= k < |parts| ==> c !in parts[k]
    ensures Split(Join(parts, [c]), [c]) == parts
    decreases |parts|
  {
    ContainsChar(parts[0], c);
    if |parts| == 1 {
    } else {
      var s := Join(parts, [c]);
      var p := parts[0];
      assert s == p + [c] + Join(parts[1..], [c]);
      assert s[|p|..|p| + 1] == [c];
      assert StartsWith(s[|p|..], [c]);
      ContainsAt(s, [c], |p|);
      var i := IndexOf(s, [c]);
      assert i <= |p|;
      assert s[i] == c;
      assert forall j :: 0 <= j < |p| ==> s[j] == p[j];
      assert i == |p|;
      assert s[i + 1..] == Join(parts[1..], [c]);
      SplitJoin(parts[1..], c);
      assert s[..i] == p;
    }
  }

  /** Splitting on a character that does not occur gives the whole string. */
  lemma SplitNoChar(s: string, c: char)
    requires c !in s
    ensures Split(s, [c]) == [s]
  {
    ContainsChar(s, c);
  }

  /** Splitting at the first occurrence of a character: the text before it,
      then the split of the rest. */
  lemma SplitAtChar(a: string, c: char, b: string)
    requires c !in a
    ensures Split(a + [c] + b, [c]) == [a] + Split(b, [c])
  {
    var s := a + [c] + b;
    assert s[|a|..|a| + 1] == [c];
    ContainsAt(s, [c], |a|);
    var i := IndexOf(s, [c]);
    assert StartsWith(s[|a|..], [c]);
    assert s[i] == c;
    assert forall j :: 0 <= j < |a| ==> s[j] == a[j];
    assert i == |a|;
    assert s[..i] == a && s[i + 1..] == b;
  }

  /** A text without the separator's first character, then the separator:
      that text is the first piece, then the split of the rest. */
  lemma SplitAtLead(a: string, sep: string, b: string)
    requires sep != [] && sep[0] !in a
    ensures Split(a + sep + b, sep) == [a] + Split(b, sep)
  {
    var s := a + sep + b;
    assert s[|a|..|a| + |sep|] == sep;
    ContainsAt(s, sep, |a|);
    var i := IndexOf(s, sep);
    assert StartsWith(s[|a|..], sep);
    assert s[i] == sep[0];
    assert forall j :: 0 <= j < |a| ==> s[j] == a[j];
    assert i == |a|;
    assert s[..i] == a && s[i + |sep|..] == b;
  }

  /** The first piece of a split on a character does not hold it. */
  lemma SplitHeadLacks(s: string, c: char)
    ensures c !in Split(s, [c])[0]
  {
    var i := IndexOf(s, [c]);
    if i < 0 {
      ContainsChar(s, c);
    } else {
      forall j | 0 <= j < i
        ensures s[j] != c
      {
        assert !StartsWith(s[j..], [c]);
      }
    }
  }

  /** No piece of a split on a character holds that character. */
  lemma {:induction false} SplitPiecesLack(s: string, c: char)
    ensures forall k :: 0 <= k < |Split(s, [c])| ==> c !in Split(s, [c])[k]
    decreases |s|
  {
    SplitHeadLacks(s, c);
    var i := IndexOf(s, [c]);
    if i >= 0 {
      SplitPiecesLack(s[i + 1..], c);
      SplitFound(s, [c]);
    }
  }

  /** Every character of an occurring pattern occurs. */
  lemma ContainsChars(s: string, sub: string)
    requires Contains(s, sub)
    ensures forall k :: 0 <= k < |sub| ==> sub[k] in s
  {
    var i := IndexOf(s, sub);
    forall k | 0 <= k < |sub|
      ensures sub[k] in s
    {
      assert sub[k] == s[i..i + |sub|][k] == s[i + k];
    }
  }

  /** A pattern without `c` that occurs around a `c` occurs on one side. */
  lemma ContainsAcross(a: string, c: char, b: string, w: string)
    requires Contains(a + [c] + b, w) && c !in w
    ensures Contains(a, w) || Contains(b, w)
  {
    var s := a + [c] + b;
    var i := IndexOf(s, w);
    InWindow(s, w, i, |a|);
    assert s[|a|] == c;
    if i + |w| <= |a| {
      OccursInPart(s, i, w, 0, a);
    } else {
      OccursInPart(s, i, w, |a| + 1, b);
    }
  }

  /** An occurrence of `w` at `i` in `s` that lies within the part `t` of
      `s` starting at `start` is an occurrence in `t`. */
  lemma OccursInPart(s: string, i: nat, w: string, start: nat, t: string)
    requires start + |t| <= |s| && s[start..start + |t|] == t
    requires start <= i && i + |w| <= start + |t| && s[i..i + |w|] == w
    ensures Contains(t, w)
  {
    var j := i - start;
    forall k | 0 <= k < |w|
      ensures t[j + k] == w[k]
    {
      assert t[j + k] == s[start..start + |t|][j + k] == s[i + k];
      assert s[i + k] == s[i..i + |w|][k];
    }
    assert t[j..j + |w|] == w;
    ContainsAt(t, w, j);
  }

  /** A position inside an occurrence of `w` holds the matching character
      of `w`. */
  lemma InWindow(s: string, w: string, i: int, m: int)
    ensures 0 <= i <= m < i + |w| <= |s| && s[i..i + |w|] == w ==> s[m] == w[m - i]
  {
    if 0 <= i <= m < i + |w| <= |s| && s[i..i + |w|] == w {
      assert s[i..i + |w|][m - i] == s[m];
    }
  }

  function DigitChar(d: nat): char
    requires d < 10
  {
    ('0' as int + d) as char
  }

  predicate IsDigit(c: char) { '0' as int <= c as int <= '9' as int }

  /** `str(n)` for a natural number. */
  function NatToString(n: nat): (r: string)
    ensures |r| >= 1
    ensures forall i :: 0 <= i < |r| ==> IsDigit(r[i])
    decreases n
  {
    if n < 10 then [DigitChar(n)] else NatToString(n / 10) + [DigitChar(n % 10)]
  }

  /** `str(n)` for an integer. */
  function IntToString(n: int): string {
    if n < 0 then "-" + NatToString(-n) else NatToString(n)
  }

  /** The value of a decimal digit string. */
  function DigitsValue(s: string): nat
    requires forall i :: 0 <= i < |s| ==> IsDigit(s[i])
  {
    if s == [] then 0
    else
      assert IsDigit(s[|s| - 1]);
      DigitsValue(s[..|s| - 1]) * 10 + (s[|s| - 1] as int - '0' as int)
  }

  predicate AllDigits(s: string) {
    |s| >= 1 && forall i :: 0 <= i < |s| ==> IsDigit(s[i])
  }

  /** `int(s)` for a string without surrounding whitespace: an optional sign
      and ASCII digits; anything else raises ValueError (None here). */
  function ParseInt(s: string): Option<int> {
    if |s| >= 1 && (s[0] == '+' || s[0] == '-') then
      if AllDigits(s[1..]) then
        var v: int := DigitsValue(s[1..]);
        Some(if s[0] == '-' then -v else v)
      else None
    else if AllDigits(s) then Some(DigitsValue(s))
    else None
  }

  lemma {:induction false} DigitsValueOfNat(n: nat)
    ensures DigitsValue(NatToString(n)) == n
    decreases n
  {
    if n >= 10 {
      DigitsValueOfNat(n / 10);
      var r := NatToString(n);
      assert r[..|r| - 1] == NatToString(n / 10);
    }
  }

  /** `int(str(n)) == n` */
  lemma ParseIntToString(n: int)
    ensures ParseInt(IntToString(n)) == Some(n)
  {
    var digits := NatToString(if n < 0 then -n else n);
    DigitsValueOfNat(if n < 0 then -n else n);
    assert AllDigits(digits);
    if n < 0 {
      var r := "-" + digits;
      assert r[0] == '-' && r[1..] == digits;
    } else {
      assert IsDigit(digits[0]);
    }
  }

  /** Python's `s[:k]` on a sequence, negative `k` counting from the end. */
  function SliceTo<T>(s: seq<T>, k: int): (r: seq<T>)
    ensures k >= 0 ==> |r| == if k < |s| then k else |s|
    ensures k < 0 ==> |r| == if |s| + k > 0 then |s| + k else 0
    ensures r == s[..|r|]
  {
    if k >= 0 then (if k < |s| then s[..k] else s)
    else (if |s| + k > 0 then s[..|s| + k] else [])
  }
}
