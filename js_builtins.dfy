/** The JavaScript built-ins the handlers rely on, as functions on sequences:
    String.prototype.toLowerCase (ASCII letters only), includes and trim,
    and Array.prototype.filter by index. */
module JsBuiltins {

  /** toLowerCase on one character: ASCII capitals become small letters,
      every other character is left as it is. */
  function LowerChar(c: char): (r: char)
    ensures 'A' <= c <= 'Z' ==> 'a' <= r <= 'z' && r as int == c as int + 32
    ensures !('A' <= c <= 'Z') ==> r == c
  {
    if 'A' <= c <= 'Z' then (c as int + 32) as char else c
  }

  function ToLower(s: string): (r: string)
    ensures |r| == |s|
    ensures forall i :: 0 <= i < |s| ==> r[i] == LowerChar(s[i])
  {
    if s == [] then [] else [LowerChar(s[0])] + ToLower(s[1..])
  }

  /** `needle` occurs in `hay` starting at index `i`. */
  ghost predicate OccursAt(hay: string, needle: string, i: int) {
    0 <= i && i + |needle| <= |hay| && hay[i..i + |needle|] == needle
  }

  /** String.prototype.includes: scan the start positions left to right. */
  function Includes(hay: string, needle: string): bool
    decreases |hay|
  {
    if |needle| > |hay| then false
    else if hay[..|needle|] == needle then true
    else Includes(hay[1..], needle)
  }

  /** includes answers exactly whether the needle occurs somewhere. */
  lemma {:induction false} IncludesIff(hay: string, needle: string)
    ensures Includes(hay, needle) <==> exists i :: OccursAt(hay, needle, i)
    decreases |hay|
  {
    if |needle| > |hay| {
    } else if hay[..|needle|] == needle {
      assert OccursAt(hay, needle, 0);
    } else {
      IncludesIff(hay[1..], needle);
      if i :| OccursAt(hay, needle, i) {
        assert i != 0;
        assert hay[1..][i - 1..i - 1 + |needle|] == hay[i..i + |needle|];
        assert OccursAt(hay[1..], needle, i - 1);
      }
      if i :| OccursAt(hay[1..], needle, i) {
        assert hay[1..][i..i + |needle|] == hay[i + 1..i + 1 + |needle|];
        assert OccursAt(hay, needle, i + 1);
      }
    }
  }

  /** The empty string is included in every string. */
  lemma IncludesEmpty(hay: string)
    ensures Includes(hay, "")
  {
  }

  /** The characters String.prototype.trim removes: the ECMAScript
      WhiteSpace and LineTerminator code points. */
  predicate IsWhitespace(c: char) {
    var n := c as int;
    n == 0x09 || n == 0x0A || n == 0x0B || n == 0x0C || n == 0x0D || n == 0x20
    || n == 0xA0 || n == 0x1680 || (0x2000 <= n <= 0x200A) || n == 0x2028
    || n == 0x2029 || n == 0x202F || n == 0x205F || n == 0x3000 || n == 0xFEFF
  }

  /** Drops the leading whitespace: what is left is a suffix of `s` that is
      empty or starts with a non-whitespace character. */
  function TrimStart(s: string): (r: string)
    ensures |r| <= |s| && r == s[|s| - |r|..]
    ensures forall i :: 0 <= i < |s| - |r| ==> IsWhitespace(s[i])
    ensures r != [] ==> !IsWhitespace(r[0])
  {
    if s != [] && IsWhitespace(s[0]) then TrimStart(s[1..]) else s
  }

  /** Drops the trailing whitespace: what is left is a prefix of `s` that is
      empty or ends with a non-whitespace character. */
  function TrimEnd(s: string): (r: string)
    ensures |r| <= |s| && r == s[..|r|]
    ensures forall i :: |r| <= i < |s| ==> IsWhitespace(s[i])
    ensures r != [] ==> !IsWhitespace(r[|r| - 1])
  {
    if s != [] && IsWhitespace(s[|s| - 1]) then TrimEnd(s[..|s| - 1]) else s
  }

  function Trim(s: string): string {
    TrimEnd(TrimStart(s))
  }

  /** `s.trim() === ''` exactly when every character of `s` is whitespace. */
  lemma TrimEmptyIff(s: string)
    ensures Trim(s) == [] <==> forall i :: 0 <= i < |s| ==> IsWhitespace(s[i])
  {
    if forall i :: 0 <= i < |s| ==> IsWhitespace(s[i]) {
      AllWhitespaceTrimsAway(s);
    }
  }

  /** A string of whitespace only loses all of it to trimStart. */
  lemma {:induction false} AllWhitespaceTrimsAway(s: string)
    requires forall i :: 0 <= i < |s| ==> IsWhitespace(s[i])
    ensures TrimStart(s) == []
  {
    if s != [] {
      assert IsWhitespace(s[0]);
      AllWhitespaceTrimsAway(s[1..]);
    }
  }

  /** `xs.filter((_, i) => i !== idx)`: keep every element whose position
      differs from `idx`, in order. */
  function FilterOutIndex<T>(xs: seq<T>, idx: int): (r: seq<T>)
    ensures 0 <= idx < |xs| ==> |r| == |xs| - 1
    ensures 0 <= idx < |xs| ==> forall j :: 0 <= j < idx ==> r[j] == xs[j]
    ensures 0 <= idx < |xs| ==> forall j :: idx <= j < |r| ==> r[j] == xs[j + 1]
    ensures !(0 <= idx < |xs|) ==> r == xs
  {
    if xs == [] then []
    else (if idx == 0 then [] else [xs[0]]) + FilterOutIndex(xs[1..], idx - 1)
  }

  /** Removing the element at `idx` is cutting the sequence around it. */
  lemma FilterOutIndexIsCut<T>(xs: seq<T>, idx: int)
    ensures 0 <= idx < |xs| ==> FilterOutIndex(xs, idx) == xs[..idx] + xs[idx + 1..]
  {
  }

  /** Appending one element and filtering out its position gives back the
      original sequence. */
  lemma FilterOutAppended<T>(xs: seq<T>, x: T)
    ensures FilterOutIndex(xs + [x], |xs|) == xs
  {
    assert (xs + [x])[..|xs|] == xs;
  }

  /** `m` and `m'` have the same keys and values, except perhaps at `k`. */
  ghost predicate AgreeExcept<K, V>(m: map<K, V>, m': map<K, V>, k: K) {
    && m.Keys - {k} == m'.Keys - {k}
    && forall x :: x in m && x != k ==> x in m' && m'[x] == m[x]
  }

  /** `{ ...m, [k]: v }`: a copy of `m` in which `k` maps to `v`. */
  function SpreadWith<K, V>(m: map<K, V>, k: K, v: V): (r: map<K, V>)
    ensures k in r && r[k] == v
    ensures AgreeExcept(m, r, k)
  {
    m[k := v]
  }

  /** `const c = { ...m }; delete c[k]`: a copy of `m` without `k`. */
  function SpreadWithout<K, V>(m: map<K, V>, k: K): (r: map<K, V>)
    ensures k !in r
    ensures AgreeExcept(m, r, k)
  {
    m - {k}
  }

  /** Deleting a key just set undoes the set when the key was new. */
  lemma WithoutUndoesWith<K, V>(m: map<K, V>, k: K, v: V)
    requires k !in m
    ensures SpreadWithout(SpreadWith(m, k, v), k) == m
  {
  }

  /** Setting a key twice keeps the second value only. */
  lemma WithTwiceLastWins<K, V>(m: map<K, V>, k: K, v: V, v': V)
    ensures SpreadWith(SpreadWith(m, k, v), k, v') == SpreadWith(m, k, v')
  {
  }

  /** Array.prototype.filter with the callback `keep`. */
  function Filter<T>(xs: seq<T>, keep: T -> bool): (r: seq<T>)
    ensures |r| <= |xs|
    ensures forall i :: 0 <= i < |r| ==> r[i] in xs && keep(r[i])
    ensures forall i :: 0 <= i < |xs| && keep(xs[i]) ==> xs[i] in r
  {
    if xs == [] then []
    else (if keep(xs[0]) then [xs[0]] else []) + Filter(xs[1..], keep)
  }

  /** The positions of `xs` whose element `keep` accepts, in increasing order. */
  function KeptPositions<T>(xs: seq<T>, keep: T -> bool): (p: seq<nat>)
    ensures forall i :: 0 <= i < |p| ==> p[i] < |xs| && keep(xs[p[i]])
    ensures forall i, j :: 0 <= i < j < |p| ==> p[i] < p[j]
  {
    if xs == [] then []
    else
      var rest := KeptPositions(xs[1..], keep);
      (if keep(xs[0]) then [0] else []) + Shift(rest)
  }

  /** Every position one further on. */
  function Shift(p: seq<nat>): (q: seq<nat>)
    ensures |q| == |p| && forall i :: 0 <= i < |p| ==> q[i] == p[i] + 1
  {
    seq(|p|, i requires 0 <= i < |p| => p[i] + 1)
  }

  /** filter picks the elements at the kept positions, in order. */
  lemma {:induction false} FilterAtKeptPositions<T>(xs: seq<T>, keep: T -> bool)
    ensures |KeptPositions(xs, keep)| == |Filter(xs, keep)|
    ensures forall i :: 0 <= i < |Filter(xs, keep)| ==> Filter(xs, keep)[i] == xs[KeptPositions(xs, keep)[i]]
  {
    if xs != [] {
      FilterAtKeptPositions(xs[1..], keep);
      var r', p' := Filter(xs[1..], keep), KeptPositions(xs[1..], keep);
      if keep(xs[0]) {
        ConsAtShifted(xs, [xs[0]] + r', [0] + Shift(p'), r', p', 1);
      } else {
        ConsAtShifted(xs, [] + r', [] + Shift(p'), r', p', 0);
      }
    }
  }

  /** The inductive step of FilterAtKeptPositions: prefixing `d` entries
      moves every later entry of the results `d` places on. */
  lemma ConsAtShifted<T>(xs: seq<T>, r: seq<T>, p: seq<nat>, r': seq<T>, p': seq<nat>, d: nat)
    requires xs != [] && |r'| == |p'| && forall i :: 0 <= i < |r'| ==> p'[i] < |xs| - 1 && r'[i] == xs[1..][p'[i]]
    requires d <= 1 && |r| == |r'| + d && |p| == |r| && r[d..] == r' && p[d..] == Shift(p')
    requires d == 1 ==> r[0] == xs[0] && p[0] == 0
    ensures forall i :: 0 <= i < |r| ==> r[i] == xs[p[i]]
  {
    forall i | 0 <= i < |r|
      ensures r[i] == xs[p[i]]
    {
      if i >= d {
        assert r[i] == r'[i - d] && p[i] == Shift(p')[i - d] == p'[i - d] + 1;
      }
    }
  }

  /** Every accepted position is among the kept positions. */
  lemma {:induction false} KeptPositionsComplete<T>(xs: seq<T>, keep: T -> bool, k: nat)
    requires k < |xs| && keep(xs[k])
    ensures k in KeptPositions(xs, keep)
  {
    if k > 0 {
      assert xs[1..][k - 1] == xs[k];
      KeptPositionsComplete(xs[1..], keep, k - 1);
      var p' := KeptPositions(xs[1..], keep);
      var i :| 0 <= i < |p'| && p'[i] == k - 1;
      assert Shift(p')[i] == k;
    }
  }

  /** filter is an order-preserving selection: entry i of the result is the
      element at the i-th kept position, the kept positions increase, and
      every accepted position is kept. */
  lemma FilterIsOrderedSelection<T>(xs: seq<T>, keep: T -> bool)
    ensures var r, p := Filter(xs, keep), KeptPositions(xs, keep);
      && |p| == |r|
      && (forall i :: 0 <= i < |p| ==> p[i] < |xs| && r[i] == xs[p[i]] && keep(xs[p[i]]))
      && (forall i, j :: 0 <= i < j < |p| ==> p[i] < p[j])
      && (forall k :: 0 <= k < |xs| && keep(xs[k]) ==> k in p)
  {
    FilterAtKeptPositions(xs, keep);
    forall k | 0 <= k < |xs| && keep(xs[k])
      ensures k in KeptPositions(xs, keep)
    {
      KeptPositionsComplete(xs, keep, k);
    }
  }

  /** A callback that accepts everything keeps the whole array. */
  lemma {:induction false} FilterKeepsAll<T>(xs: seq<T>, keep: T -> bool)
    requires forall i :: 0 <= i < |xs| ==> keep(xs[i])
    ensures Filter(xs, keep) == xs
  {
    if xs != [] {
      FilterKeepsAll(xs[1..], keep);
    }
  }
}
