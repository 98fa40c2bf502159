/** The operations of Go's `strings` package that the adapters use, over
    `string` (a `seq<char>`). Go strings are byte strings; the model treats
    each byte as one `char`. */
module Text {

  datatype Option<+T> = None | Some(value: T)

  predicate HasPrefix(s: string, p: string) {
    p <= s
  }

  predicate HasSuffix(s: string, p: string) {
    |p| <= |s| && s[|s| - |p|..] == p
  }

  /** `strings.Contains` for a string needle. */
  predicate ContainsSub(s: string, w: string) {
    exists i :: 0 <= i <= |s| && w <= s[i..]
  }

  /** `strings.Index` for a one-character needle: -1 when absent. */
  function IndexOf(s: string, c: char): (r: int)
    ensures -1 <= r < |s|
    ensures r == -1 <==> c !in s
    ensures 0 <= r ==> s[r] == c && c !in s[..r]
  {
    if |s| == 0 then -1
    else if s[0] == c then 0
    else
      var r := IndexOf(s[1..], c);
      if r == -1 then -1
      else
        assert s[..r + 1] == [s[0]] + s[1..][..r];
        r + 1
  }

  /** `strings.Join` with a one-character separator. */
  function Join(parts: seq<string>, c: char): string
  {
    if |parts| == 0 then ""
    else if |parts| == 1 then parts[0]
    else parts[0] + [c] + Join(parts[1..], c)
  }

  /** `strings.Split` with a one-character separator: never empty, no piece
      holds the separator, and joining the pieces gives the input back. */
  function Split(s: string, c: char): (parts: seq<string>)
    ensures |parts| >= 1
    ensures forall i :: 0 <= i < |parts| ==> c !in parts[i]
    ensures Join(parts, c) == s
    decreases |s|
  {
    var i := IndexOf(s, c);
    if i == -1 then [s]
    else
      var rest := Split(s[i + 1..], c);
      var r := [s[..i]] + rest;
      assert r[0] == s[..i] && r[1..] == rest;
      assert forall j :: 1 <= j < |r| ==> r[j] == rest[j - 1];
      assert Join(r, c) == s[..i] + [c] + Join(rest, c);
      assert s == s[..i] + [c] + s[i + 1..];
      r
  }

  lemma {:induction false} JoinSplit(parts: seq<string>, c: char)
    requires |parts| >= 1
    requires forall i :: 0 <= i < |parts| ==> c !in parts[i]
    ensures Split(Join(parts, c), c) == parts
    decreases |parts|
  {
    if |parts| > 1 {
      var s := Join(parts, c);
      assert s == parts[0] + [c] + Join(parts[1..], c);
      assert s[..|parts[0]|] == parts[0];
      assert IndexOf(s, c) == |parts[0]| by {
        assert s[|parts[0]|] == c;
        assert c !in s[..|parts[0]|];
      }
      assert s[|parts[0]| + 1..] == Join(parts[1..], c);
      JoinSplit(parts[1..], c);
    }
  }

  /** Joining a prefix of the pieces, the separator and the rest of the
      pieces gives the whole join. */
  lemma {:induction false} JoinSplitAt(parts: seq<string>, c: char, k: nat)
    requires 0 < k < |parts|
    ensures Join(parts, c) == Join(parts[..k], c) + [c] + Join(parts[k..], c)
    decreases k
  {
    if k > 1 {
      JoinSplitAt(parts[1..], c, k - 1);
      assert parts[1..][..k - 1] == parts[..k][1..];
      assert parts[1..][k - 1..] == parts[k..];
    }
  }

  /** `strings.ReplaceAll`: leftmost, non-overlapping replacement. */
  function ReplaceAll(s: string, pat: string, rep: string): string
    requires |pat| > 0
    decreases |s|
  {
    if |s| < |pat| then s
    else if s[..|pat|] == pat then rep + ReplaceAll(s[|pat|..], pat, rep)
    else [s[0]] + ReplaceAll(s[1..], pat, rep)
  }

  /** Replacing a character the string does not hold changes nothing. */
  lemma {:induction false} ReplaceAbsentChar(s: string, c: char, rep: string)
    requires c !in s
    ensures ReplaceAll(s, [c], rep) == s
    decreases |s|
  {
    if |s| >= 1 {
      assert s[..1] != [c] by { assert s[0] != c; }
      ReplaceAbsentChar(s[1..], c, rep);
      assert [s[0]] + s[1..] == s;
    }
  }

  /** `strings.TrimPrefix`. */
  function TrimPrefix(s: string, p: string): string
  {
    if HasPrefix(s, p) then s[|p|..] else s
  }

  /** `strings.TrimSuffix`. */
  function TrimSuffix(s: string, p: string): string
  {
    if HasSuffix(s, p) then s[..|s| - |p|] else s
  }

  function TrimLeft(s: string, c: char): (r: string)
    ensures r == [] || r[0] != c
    ensures |r| <= |s| && s[|s| - |r|..] == r
    decreases |s|
  {
    if |s| > 0 && s[0] == c then TrimLeft(s[1..], c) else s
  }

  function TrimRight(s: string, c: char): (r: string)
    ensures r == [] || r[|r| - 1] != c
    ensures r <= s
    decreases |s|
  {
    if |s| > 0 && s[|s| - 1] == c then TrimRight(s[..|s| - 1], c) else s
  }

  /** `strings.Trim` with a one-character cutset: every leading and trailing
      copy of `c` is removed. */
  function Trim(s: string, c: char): (r: string)
    ensures r == [] || (r[0] != c && r[|r| - 1] != c)
  {
    var l := TrimLeft(s, c);
    var r := TrimRight(l, c);
    assert r != [] ==> r[0] == l[0];
    r
  }

  /** Regrouping a concatenation, for proofs where the solver would
      otherwise search for it. */
  lemma ConsAssoc<T>(t: T, a: seq<T>, b: seq<T>)
    ensures [t] + (a + b) == ([t] + a) + b
  {
  }

  lemma AppendAssoc<T>(a: seq<T>, b: seq<T>, c: seq<T>)
    ensures a + b + c == a + (b + c)
  {
  }
}
