/** The parts of Go's strings and unicode packages that the handlers use, on strings of code points. */
module Strings {
  import opened Prelude

  // ------------------------------------------------------------------ searching

  /** sub occurs in s at position i. */
  predicate OccursAt(s: string, sub: string, i: nat) {
    i + |sub| <= |s| && s[i..i + |sub|] == sub
  }

  /** The first occurrence of sub in s at or after position i. */
  function IndexFrom(s: string, sub: string, i: nat): (r: Option<nat>)
    requires i <= |s|
    ensures r.Some? ==> i <= r.value && OccursAt(s, sub, r.value)
    ensures forall j :: i <= j < (if r.Some? then r.value else |s| + 1) ==> !OccursAt(s, sub, j)
    decreases |s| - i
  {
    if OccursAt(s, sub, i) then Some(i)
    else if i == |s| then None
    else IndexFrom(s, sub, i + 1)
  }

  /** strings.Index */
  function Index(s: string, sub: string): Option<nat> {
    IndexFrom(s, sub, 0)
  }

  lemma IndexIs(s: string, sub: string, k: nat)
    requires OccursAt(s, sub, k) && forall j :: 0 <= j < k ==> !OccursAt(s, sub, j)
    ensures Index(s, sub) == Some(k)
  {
    hide OccursAt;
    var r := IndexFrom(s, sub, 0);
    assert k <= |s| by { OccursWithin(s, sub, k); }
  }

  lemma OccursWithin(s: string, sub: string, k: nat)
    requires OccursAt(s, sub, k)
    ensures k + |sub| <= |s|
    ensures forall j :: 0 <= j < |sub| ==> s[k + j] == sub[j]
  {}

  lemma OccursByChars(s: string, sub: string, k: nat)
    requires k + |sub| <= |s| && forall j :: 0 <= j < |sub| ==> s[k + j] == sub[j]
    ensures OccursAt(s, sub, k)
  {}

  /** strings.Contains */
  predicate Contains(s: string, sub: string) {
    Index(s, sub).Some?
  }

  /** The text after the first occurrence of sep, the part of strings.Cut that is used. */
  function CutAfter(s: string, sep: string): Option<string> {
    match Index(s, sep)
    case None => None
    case Some(i) => Some(s[i + |sep|..])
  }

  // ------------------------------------------------------------------ white space and trimming

  /** unicode.IsSpace */
  predicate IsSpace(c: char) {
    || '\t' <= c <= '\r' || c == ' ' || c == '\U{0085}' || c == '\U{00A0}' || c == '\U{1680}'
    || '\U{2000}' <= c <= '\U{200A}' || '\U{2028}' <= c <= '\U{2029}'
    || c == '\U{202F}' || c == '\U{205F}' || c == '\U{3000}'
  }

  predicate NoSpace(s: string) {
    forall i :: 0 <= i < |s| ==> !IsSpace(s[i])
  }

  function TrimLeft(s: string, drop: char -> bool): (r: string)
    ensures r == "" || !drop(r[0])
    ensures |r| <= |s| && r == s[|s| - |r|..]
    ensures forall i :: 0 <= i < |s| - |r| ==> drop(s[i])
  {
    if s != "" && drop(s[0]) then TrimLeft(s[1..], drop) else s
  }

  function TrimRight(s: string, drop: char -> bool): (r: string)
    ensures r == "" || !drop(r[|r| - 1])
    ensures r <= s
    ensures forall i :: |r| <= i < |s| ==> drop(s[i])
  {
    if s != "" && drop(s[|s| - 1]) then TrimRight(s[..|s| - 1], drop) else s
  }

  /** strings.Trim with a one-character cutset, or strings.TrimSpace. */
  function Trim(s: string, drop: char -> bool): (r: string)
    ensures r == "" || (!drop(r[0]) && !drop(r[|r| - 1]))
    ensures forall c :: c in r ==> c in s
    ensures s == "" || (!drop(s[0]) && !drop(s[|s| - 1])) ==> r == s
  {
    TrimRight(TrimLeft(s, drop), drop)
  }

  /** What is trimmed off. */
  lemma TrimmedEnds(s: string, drop: char -> bool) returns (l: nat, r: nat)
    ensures l <= r <= |s| && s[l..r] == Trim(s, drop)
    ensures forall i :: 0 <= i < l || r <= i < |s| ==> drop(s[i])
  {
    hide TrimLeft, TrimRight;
    var left := TrimLeft(s, drop);
    l := |s| - |left|;
    r := l + |TrimRight(left, drop)|;
    assert left == s[l..];
    forall i | r <= i < |s|
      ensures drop(s[i])
    {
      assert s[i] == left[i - l];
    }
  }

  function TrimSpace(s: string): string {
    Trim(s, IsSpace)
  }

  // ------------------------------------------------------------------ splitting

  /** strings.Split(s, sep) for a separator of one character. */
  function Split(s: string, sep: char): (parts: seq<string>)
    ensures parts != []
    ensures forall i :: 0 <= i < |parts| ==> sep !in parts[i]
  {
    if s == "" then [""]
    else
      var rest := Split(s[1..], sep);
      if s[0] == sep then [""] + rest else [[s[0]] + rest[0]] + rest[1..]
  }

  /** Split undoes putting sep between strings that do not have it. */
  lemma {:induction false} SplitFirst(a: string, sep: char, b: string)
    requires sep !in a
    ensures Split(a + [sep] + b, sep) == [a] + Split(b, sep)
  {
    var s := a + [sep] + b;
    if a == "" {
      assert s[1..] == b;
    } else {
      assert s[1..] == a[1..] + [sep] + b;
      SplitFirst(a[1..], sep, b);
      assert [s[0]] + a[1..] == a;
    }
  }

  lemma {:induction false} SplitWhole(a: string, sep: char)
    requires sep !in a
    ensures Split(a, sep) == [a]
  {
    if a != "" {
      SplitWhole(a[1..], sep);
      assert [a[0]] + a[1..] == a;
    }
  }

  /** The first part of a split, and the whole string when there is only one. */
  lemma {:induction false} SplitParts(s: string, sep: char)
    ensures var p := Split(s, sep);
            && p[0] <= s
            && (|p| == 1 ==> p[0] == s)
            && (|p| == 2 ==> s == p[0] + [sep] + p[1])
  {
    if s != "" {
      SplitParts(s[1..], sep);
      var q := Split(s[1..], sep);
      if s[0] == sep {
        if |q| == 1 { assert s == "" + [sep] + q[0]; }
      } else {
        assert s == [s[0]] + s[1..];
        if |q| == 2 { assert s == ([s[0]] + q[0]) + [sep] + q[1]; }
      }
    }
  }

  /** The length of the longest prefix of s without white space. */
  function WordLength(s: string): (n: nat)
    ensures n <= |s| && NoSpace(s[..n])
    ensures n == |s| || IsSpace(s[n])
  {
    if s == "" || IsSpace(s[0]) then 0
    else
      var n := WordLength(s[1..]);
      assert s[..n + 1] == [s[0]] + s[1..][..n];
      n + 1
  }

  /** strings.Fields */
  function Fields(s: string): (words: seq<string>)
    ensures forall i :: 0 <= i < |words| ==> words[i] != "" && NoSpace(words[i])
  {
    if s == "" then []
    else if IsSpace(s[0]) then Fields(s[1..])
    else
      var n := WordLength(s);
      [s[..n]] + Fields(s[n..])
  }

  lemma {:induction false} WordLengthOf(w: string, rest: string)
    requires NoSpace(w) && (rest == "" || IsSpace(rest[0]))
    ensures WordLength(w + rest) == |w|
  {
    if w != "" {
      assert (w + rest)[1..] == w[1..] + rest;
      WordLengthOf(w[1..], rest);
    } else {
      assert w + rest == rest;
    }
  }

  /** Fields finds a word at the front of a string. */
  lemma FieldsFirst(w: string, rest: string)
    requires w != "" && NoSpace(w) && (rest == "" || IsSpace(rest[0]))
    ensures Fields(w + rest) == [w] + Fields(rest)
  {
    WordLengthOf(w, rest);
    assert (w + rest)[..|w|] == w && (w + rest)[|w|..] == rest;
  }
}
