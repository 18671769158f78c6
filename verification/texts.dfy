/** Text and dictionary helpers shared by the model: Python's insertion-ordered
    `dict` of strings, `str.join`, `str(int)` and `str.replace("\n", "<br/>")`. */
module Texts {

  /** A Python `dict[str, str]`: its items in insertion order. */
  type Dict = seq<(string, string)>

  function Keys(d: Dict): (ks: seq<string>)
    ensures |ks| == |d|
    ensures forall i :: 0 <= i < |d| ==> ks[i] == d[i].0
  {
    if d == [] then [] else [d[0].0] + Keys(d[1..])
  }

  predicate HasKey(d: Dict, k: string) {
    k in Keys(d)
  }

  /** No key occurs twice: true of every dictionary built with `Put`. */
  predicate UniqueKeys(d: Dict) {
    Distinct(Keys(d))
  }

  /** No element occurs twice. Its instances are drawn out through `Differ`
      (see `DistinctAt`), so that the solver does not compare every pair of
      positions it comes across. */
  predicate Distinct(xs: seq<string>) {
    forall i, j {:trigger Differ(xs, i, j)} :: 0 <= i < j < |xs| ==> Differ(xs, i, j)
  }

  predicate Differ(xs: seq<string>, i: int, j: int)
    requires 0 <= i < |xs| && 0 <= j < |xs|
  {
    xs[i] != xs[j]
  }

  /** Two positions of a list without repeats hold different elements. */
  lemma DistinctAt(xs: seq<string>, i: nat, j: nat)
    requires Distinct(xs) && i < |xs| && j < |xs| && i != j
    ensures xs[i] != xs[j]
  {
    if i < j {
      assert Differ(xs, i, j);
    } else {
      assert Differ(xs, j, i);
    }
  }

  /** The first position of `x` in `xs`. */
  function IndexOf(xs: seq<string>, x: string): (i: nat)
    requires x in xs
    ensures i < |xs| && xs[i] == x
    ensures forall j :: 0 <= j < i ==> xs[j] != x
  {
    if xs[0] == x then 0 else 1 + IndexOf(xs[1..], x)
  }

  /** `d[k]` for a key that is present. */
  function Get(d: Dict, k: string): string
    requires HasKey(d, k)
  {
    d[IndexOf(Keys(d), k)].1
  }

  /** `d[k] = v`: an existing key keeps its position and takes the new value,
      a new key goes to the end. */
  function Put(d: Dict, k: string, v: string): Dict {
    if HasKey(d, k) then d[IndexOf(Keys(d), k) := (k, v)] else d + [(k, v)]
  }

  /** After `Put(d, k, v)` the keys are those of `d`, with `k` appended when it
      is new, and `k` maps to `v`. */
  lemma PutFacts(d: Dict, k: string, v: string)
    ensures Keys(Put(d, k, v)) == if HasKey(d, k) then Keys(d) else Keys(d) + [k]
    ensures HasKey(Put(d, k, v), k) && Get(Put(d, k, v), k) == v
  {
    var r := Put(d, k, v);
    if HasKey(d, k) {
      assert Keys(r) == Keys(d);
    } else {
      assert Keys(r) == Keys(d) + [k];
    }
  }

  /** `Put(d, k, v)` leaves every other key where it was, with its value. */
  lemma PutOther(d: Dict, k: string, v: string, x: string)
    requires x != k
    ensures HasKey(Put(d, k, v), x) == HasKey(d, x)
    ensures HasKey(d, x) ==> Get(Put(d, k, v), x) == Get(d, x)
  {
    PutFacts(d, k, v);
    if HasKey(d, x) && !HasKey(d, k) {
      IndexOfAppend(Keys(d), k, x);
    }
  }

  /** In a list without repeats, a name's position is where it stands. */
  lemma IndexOfDistinct(xs: seq<string>, j: nat)
    requires Distinct(xs) && j < |xs|
    ensures IndexOf(xs, xs[j]) == j
  {
    var i := IndexOf(xs, xs[j]);
    assert i < j ==> Differ(xs, i, j);
  }

  lemma {:induction false} IndexOfAppend(xs: seq<string>, y: string, x: string)
    requires x in xs
    ensures IndexOf(xs + [y], x) == IndexOf(xs, x)
  {
    if xs[0] != x {
      assert (xs + [y])[1..] == xs[1..] + [y];
      IndexOfAppend(xs[1..], y, x);
    }
  }

  lemma UniqueKeysAt(d: Dict, e: nat, f: nat)
    requires UniqueKeys(d) && e < f < |d|
    ensures d[e].0 != d[f].0
  {
    assert Differ(Keys(d), e, f);
  }

  /** `Put` never makes a key occur twice. */
  lemma PutKeepsUnique(d: Dict, k: string, v: string)
    requires UniqueKeys(d)
    ensures UniqueKeys(Put(d, k, v))
  {
    PutFacts(d, k, v);
    var ks := Keys(Put(d, k, v));
    if !HasKey(d, k) {
      assert ks == Keys(d) + [k];
      forall i, j | 0 <= i < j < |ks|
        ensures Differ(ks, i, j)
      {
        if j == |ks| - 1 {
          assert ks[i] in Keys(d);
        } else {
          assert Differ(Keys(d), i, j);
        }
      }
    }
  }

  /** `Put` of a new key appends it. */
  lemma PutAppends(d: Dict, k: string, v: string)
    requires !HasKey(d, k)
    ensures Put(d, k, v) == d + [(k, v)]
  {
  }

  lemma AppendAssoc<T>(a: seq<T>, b: seq<T>, c: seq<T>)
    ensures a + (b + c) == (a + b) + c
  {
  }

  /** The first `i + 1` elements are the first `i` and then `s[i]`. */
  lemma TakeOneMore<T>(s: seq<T>, i: nat)
    requires i < |s|
    ensures s[..i + 1] == s[..i] + [s[i]]
  {
  }

  lemma SplitLast<T>(s: seq<T>)
    requires s != []
    ensures s[..|s| - 1] + [s[|s| - 1]] == s
  {
  }

  /** `sep.join(xs)`. */
  function Join(xs: seq<string>, sep: string): string {
    if xs == [] then ""
    else if |xs| == 1 then xs[0]
    else xs[0] + sep + Join(xs[1..], sep)
  }

  /** Where the `i`-th element starts in `Join(xs, sep)`. */
  function JoinOffset(xs: seq<string>, sep: string, i: nat): nat
    requires i <= |xs|
  {
    if i == 0 then 0 else JoinOffset(xs, sep, i - 1) + |xs[i - 1]| + |sep|
  }

  function Digit(d: nat): char
    requires d < 10
  {
    ('0' as int + d) as char
  }

  /** The number a string of decimal digits denotes. */
  function DecimalValue(s: string): nat
    requires forall i :: 0 <= i < |s| ==> '0' <= s[i] <= '9'
  {
    if s == [] then 0 else 10 * DecimalValue(s[..|s| - 1]) + (s[|s| - 1] - '0') as nat
  }

  /** `str(n)` for a non-negative integer. */
  function NatToString(n: nat): (r: string)
    ensures |r| >= 1
    ensures forall i :: 0 <= i < |r| ==> '0' <= r[i] <= '9'
    ensures DecimalValue(r) == n
    ensures r[0] == '0' ==> r == "0"
  {
    if n < 10 then [Digit(n)]
    else
      var init := NatToString(n / 10);
      var r := init + [Digit(n % 10)];
      assert r[..|r| - 1] == init;
      r
  }

  /** `str(i)` for any integer: a minus sign before the digits of a negative one. */
  function IntToString(i: int): (r: string)
    ensures i >= 0 ==> r == NatToString(i)
    ensures i < 0 ==> r == "-" + NatToString(-i)
  {
    if i < 0 then "-" + NatToString(-i) else NatToString(i)
  }

  function CountChar(s: string, c: char): nat {
    if s == [] then 0 else (if s[0] == c then 1 else 0) + CountChar(s[1..], c)
  }

  /** No character of `s` is a line break. */
  predicate NoNewline(s: string) {
    forall i :: 0 <= i < |s| ==> s[i] != '\n'
  }

  /** Two texts without line breaks joined have none either. */
  lemma NoNewlineConcat(a: string, b: string)
    requires NoNewline(a) && NoNewline(b)
    ensures NoNewline(a + b)
  {
    forall i | 0 <= i < |a + b|
      ensures (a + b)[i] != '\n'
    {
      if i >= |a| {
        assert (a + b)[i] == b[i - |a|];
      }
    }
  }

  /** `s.replace("\n", "<br/>")`: no line break is left, and a text
      without one comes back unchanged. */
  function ReplaceNewlines(s: string): (r: string)
    ensures NoNewline(r)
    ensures NoNewline(s) ==> r == s
  {
    if s == [] then ""
    else
      var piece := if s[0] == '\n' then "<br/>" else [s[0]];
      var rest := ReplaceNewlines(s[1..]);
      assert NoNewline(s) ==> NoNewline(s[1..]) && piece + rest == s;
      piece + rest
  }

  /** The replacement works character by character: it distributes over
      concatenation, turns a line break into `<br/>` and keeps any other
      character. Together these fix the result of every text. */
  lemma {:induction false} ReplaceNewlinesPieces(a: string, b: string, c: char)
    ensures ReplaceNewlines(a + b) == ReplaceNewlines(a) + ReplaceNewlines(b)
    ensures ReplaceNewlines("\n") == "<br/>"
    ensures c != '\n' ==> ReplaceNewlines([c]) == [c]
  {
    if a == [] {
      assert a + b == b;
    } else {
      assert (a + b)[0] == a[0] && (a + b)[1..] == a[1..] + b;
      ReplaceNewlinesPieces(a[1..], b, c);
      var piece := if a[0] == '\n' then "<br/>" else [a[0]];
      AppendAssoc(piece, ReplaceNewlines(a[1..]), ReplaceNewlines(b));
    }
  }

  /** Each line break is replaced by the four characters longer `<br/>`. */
  lemma {:induction false} ReplaceNewlinesLength(s: string)
    ensures |ReplaceNewlines(s)| == |s| + 4 * CountChar(s, '\n')
  {
    if s != [] {
      ReplaceNewlinesLength(s[1..]);
    }
  }

  lemma {:induction false} CountCharAppend(a: string, b: string, c: char)
    ensures CountChar(a + b, c) == CountChar(a, c) + CountChar(b, c)
  {
    if a != [] {
      assert (a + b)[1..] == a[1..] + b;
      CountCharAppend(a[1..], b, c);
    } else {
      assert a + b == b;
    }
  }

  /** A character is counted zero times exactly when it does not occur. */
  lemma {:induction false} CountCharZero(s: string, c: char)
    ensures CountChar(s, c) == 0 <==> forall i :: 0 <= i < |s| ==> s[i] != c
  {
    if s != [] {
      CountCharZero(s[1..], c);
      assert forall i :: 1 <= i < |s| ==> s[i] == s[1..][i - 1];
    }
  }

  /** Each element of `Join(xs, sep)` sits at its offset, so every name in a
      comma-joined list can be read back from the text. */
  lemma {:induction false} JoinAt(xs: seq<string>, sep: string, i: nat)
    requires i < |xs|
    ensures JoinOffset(xs, sep, i) + |xs[i]| <= |Join(xs, sep)|
    ensures Join(xs, sep)[JoinOffset(xs, sep, i)..JoinOffset(xs, sep, i) + |xs[i]|] == xs[i]
  {
    if i == 0 {
      if |xs| > 1 {
        assert Join(xs, sep) == xs[0] + (sep + Join(xs[1..], sep));
      }
    } else {
      JoinAt(xs[1..], sep, i - 1);
      JoinOffsetShift(xs, sep, i);
      var rest := Join(xs[1..], sep);
      var k := |xs[0]| + |sep|;
      assert Join(xs, sep) == xs[0] + sep + rest;
      assert JoinOffset(xs, sep, i) == k + JoinOffset(xs[1..], sep, i - 1);
      var o := JoinOffset(xs[1..], sep, i - 1);
      assert Join(xs, sep)[k..] == rest;
      assert Join(xs, sep)[k + o..k + o + |xs[i]|] == rest[o..o + |xs[i]|];
    }
  }

  lemma {:induction false} JoinOffsetShift(xs: seq<string>, sep: string, i: nat)
    requires 1 <= i <= |xs|
    ensures JoinOffset(xs, sep, i) == |xs[0]| + |sep| + JoinOffset(xs[1..], sep, i - 1)
  {
    if i > 1 {
      JoinOffsetShift(xs, sep, i - 1);
    }
  }
}
