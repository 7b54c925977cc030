/** Small vocabulary shared by the models of the proxy: optional values, maxima and minima,
    and a few facts about sequences that several modules need. */
module Prelude {

  datatype Option<+T> = None | Some(value: T)

  function Max(a: int, b: int): int { if a >= b then a else b }

  function MaxReal(a: real, b: real): real { if a >= b then a else b }

  function MinReal(a: real, b: real): real { if a <= b then a else b }

  function Last<T>(s: seq<T>): T
    requires s != []
  {
    s[|s| - 1]
  }

  /** Everything but the last element. */
  function Front<T>(s: seq<T>): seq<T>
    requires s != []
  {
    s[..|s| - 1]
  }

  /** The last `n` elements, or all of them: what a `deque(maxlen=n)` keeps. */
  function LastN<T>(s: seq<T>, n: nat): seq<T> {
    if |s| <= n then s else s[|s| - n..]
  }

  function Elements<T>(s: seq<T>): set<T> {
    set x | x in s
  }

  ghost predicate NoDup<T>(s: seq<T>) {
    forall i, j :: 0 <= i < j < |s| ==> s[i] != s[j]
  }

  /** A map read with a default, as `dict.get(key, default)`. */
  function GetOr<K, V>(m: map<K, V>, k: K, default: V): V {
    if k in m then m[k] else default
  }

  /** The elements that satisfy `keep`, in order. */
  function Filter<T(!new)>(s: seq<T>, keep: T -> bool): (r: seq<T>)
    ensures forall x :: x in r <==> x in s && keep(x)
    ensures |r| <= |s|
  {
    if s == [] then []
    else
      assert s == Front(s) + [Last(s)];
      Filter(Front(s), keep) + (if keep(Last(s)) then [Last(s)] else [])
  }

  /** The elements of `r` are those of `s` that satisfy `keep`, at the positions `ps`, in order. */
  ghost predicate PickedAt<T(!new)>(r: seq<T>, s: seq<T>, keep: T -> bool, ps: seq<nat>) {
    && |ps| == |r|
    && (forall i, j :: 0 <= i < j < |ps| ==> ps[i] < ps[j])
    && (forall i :: 0 <= i < |ps| ==> ps[i] < |s| && r[i] == s[ps[i]])
    && (forall p: nat :: p < |s| ==> (keep(s[p]) <==> p in ps))
  }

  lemma PickedSnoc<T(!new)>(r: seq<T>, s: seq<T>, keep: T -> bool, ps: seq<nat>, x: T)
    requires PickedAt(r, s, keep, ps)
    ensures if keep(x) then PickedAt(r + [x], s + [x], keep, ps + [|s|]) else PickedAt(r, s + [x], keep, ps)
  {
    forall p: nat | p < |s| + 1
      ensures keep((s + [x])[p]) <==> p in (if keep(x) then ps + [|s|] else ps)
    {
      if p == |s| {
        assert p !in ps;
      } else {
        assert (s + [x])[p] == s[p];
      }
    }
  }

  /** Filtering keeps every element that qualifies, each as often as it occurs, and their order. */
  lemma {:induction false} FilterPicks<T(!new)>(s: seq<T>, keep: T -> bool) returns (ps: seq<nat>)
    ensures PickedAt(Filter(s, keep), s, keep, ps)
  {
    ps := [];
    if s != [] {
      ps := FilterPicks(Front(s), keep);
      PickedSnoc(Filter(Front(s), keep), Front(s), keep, ps, Last(s));
      assert Front(s) + [Last(s)] == s && Filter(Front(s), keep) + [] == Filter(Front(s), keep);
      if keep(Last(s)) { ps := ps + [|s| - 1]; }
    }
  }

  lemma {:induction false} FilterAll<T(!new)>(s: seq<T>, keep: T -> bool)
    requires forall x :: x in s ==> keep(x)
    ensures Filter(s, keep) == s
  {
    if s != [] {
      assert s == Front(s) + [Last(s)];
      FilterAll(Front(s), keep);
    }
  }

  lemma {:induction false} FilterSame<T(!new)>(s: seq<T>, keep: T -> bool, same: T -> bool)
    requires forall x :: x in s ==> (keep(x) <==> same(x))
    ensures Filter(s, keep) == Filter(s, same)
  {
    if s != [] {
      assert s == Front(s) + [Last(s)];
      FilterSame(Front(s), keep, same);
    }
  }

  lemma {:induction false} FilterTwice<T(!new)>(s: seq<T>, first: T -> bool, second: T -> bool, both: T -> bool)
    requires forall x :: x in s ==> (both(x) <==> first(x) && second(x))
    ensures Filter(Filter(s, first), second) == Filter(s, both)
  {
    if s != [] {
      assert s == Front(s) + [Last(s)];
      FilterTwice(Front(s), first, second, both);
      var kept := Filter(Front(s), first);
      if first(Last(s)) {
        assert Front(kept + [Last(s)]) == kept;
      } else {
        assert kept + [] == kept;
      }
    }
  }

  function Sum(xs: seq<real>): real {
    if xs == [] then 0.0 else Sum(Front(xs)) + Last(xs)
  }

  lemma {:induction false} SumAppend(a: seq<real>, b: seq<real>)
    ensures Sum(a + b) == Sum(a) + Sum(b)
  {
    if b == [] {
      assert a + b == a;
    } else {
      assert Front(a + b) == a + Front(b);
      SumAppend(a, Front(b));
    }
  }

  /** A sequence of length `n` has at most `n` distinct elements. */
  lemma {:induction false} ElementsBound<T>(s: seq<T>)
    ensures |Elements(s)| <= |s|
  {
    if s == [] {
      assert Elements(s) == {};
    } else {
      ElementsBound(Front(s));
      assert Elements(s) == Elements(Front(s)) + {Last(s)};
    }
  }

  lemma SubsetSize<T>(a: set<T>, b: set<T>)
    requires a <= b
    ensures |a| <= |b|
  {
    assert b == a + (b - a);
  }

  /** `LastN` of a growing log is kept by appending and dropping the oldest element. */
  lemma LastNAppend<T>(s: seq<T>, x: T, n: nat)
    requires n > 0
    ensures LastN(LastN(s, n) + [x], n) == LastN(s + [x], n)
  {
  }

  // ----- text -------------------------------------------------------------------------------

  /** Python's `str.isspace` for one character. */
  predicate IsSpace(c: char) {
    var n := c as int;
    || 0x09 <= n <= 0x0D || 0x1C <= n <= 0x20 || n == 0x85 || n == 0xA0 || n == 0x1680
    || 0x2000 <= n <= 0x200A || n == 0x2028 || n == 0x2029 || n == 0x202F || n == 0x205F || n == 0x3000
  }

  function StripLeft(s: string): string {
    if s != "" && IsSpace(s[0]) then StripLeft(s[1..]) else s
  }

  function StripRight(s: string): string {
    if s != "" && IsSpace(Last(s)) then StripRight(Front(s)) else s
  }

  /** Python's `str.strip()`. */
  function Strip(s: string): string {
    StripRight(StripLeft(s))
  }

  /** Stripping cuts whitespace off both ends and leaves none there. */
  lemma StripTrims(s: string) returns (left: string, right: string)
    ensures s == left + Strip(s) + right
    ensures forall c :: c in left + right ==> IsSpace(c)
    ensures Strip(s) != "" ==> !IsSpace(Strip(s)[0]) && !IsSpace(Last(Strip(s)))
  {
    left := StripLeftTrims(s);
    right := StripRightTrims(StripLeft(s));
  }

  /** And it leaves what is between them. */
  lemma {:induction false} StripMiddle(left: string, s: string, right: string)
    requires forall c :: c in left + right ==> IsSpace(c)
    requires s != "" ==> !IsSpace(s[0]) && !IsSpace(Last(s))
    ensures Strip(left + s + right) == s
  {
    var whole := left + s + right;
    if left != "" {
      assert whole[1..] == left[1..] + s + right && left[0] in left + right;
      assert forall c :: c in left[1..] + right ==> c in left + right;
      StripMiddle(left[1..], s, right);
    } else {
      assert whole == s + right && left + right == right;
      if s == "" {
        assert whole == right;
        StripBlank(right);
      } else {
        assert whole[0] == s[0];
        StripTail(s, right);
      }
    }
  }

  lemma {:induction false} StripBlank(s: string)
    requires forall c :: c in s ==> IsSpace(c)
    ensures StripLeft(s) == "" && Strip(s) == ""
  {
    if s != "" {
      assert s[0] in s && forall c :: c in s[1..] ==> c in s;
      StripBlank(s[1..]);
    }
  }

  lemma {:induction false} StripTail(s: string, right: string)
    requires s != "" && !IsSpace(Last(s)) && forall c :: c in right ==> IsSpace(c)
    ensures StripRight(s + right) == s
  {
    if right == "" {
      assert s + right == s;
    } else {
      assert Front(s + right) == s + Front(right) && Last(s + right) == Last(right) && Last(right) in right;
      assert forall c :: c in Front(right) ==> c in right;
      StripTail(s, Front(right));
    }
  }

  lemma {:induction false} StripLeftTrims(s: string) returns (left: string)
    ensures s == left + StripLeft(s) && forall c :: c in left ==> IsSpace(c)
    ensures StripLeft(s) != "" ==> !IsSpace(StripLeft(s)[0])
  {
    left := "";
    if s != "" && IsSpace(s[0]) {
      var rest := StripLeftTrims(s[1..]);
      left := [s[0]] + rest;
      assert s == [s[0]] + s[1..];
    }
  }

  lemma {:induction false} StripRightTrims(s: string) returns (right: string)
    ensures s == StripRight(s) + right && forall c :: c in right ==> IsSpace(c)
    ensures StripRight(s) != "" ==> !IsSpace(Last(StripRight(s)))
  {
    right := "";
    if s != "" && IsSpace(Last(s)) {
      var rest := StripRightTrims(Front(s));
      right := rest + [Last(s)];
      assert s == Front(s) + [Last(s)];
    }
  }

  /** Python's `str.split(sep)`. */
  function Split(s: string, sep: char): (parts: seq<string>)
    ensures parts != []
  {
    if s == "" then [""]
    else
      var rest := Split(s[1..], sep);
      if s[0] == sep then [""] + rest else [[s[0]] + rest[0]] + rest[1..]
  }

  lemma {:induction false} SplitHead(head: string, tail: string, sep: char)
    requires sep !in head
    ensures Split(head + [sep] + tail, sep) == [head] + Split(tail, sep)
  {
    var whole := head + [sep] + tail;
    if head == "" {
      assert whole[1..] == tail;
    } else {
      assert whole[1..] == head[1..] + [sep] + tail;
      SplitHead(head[1..], tail, sep);
      assert [head[0]] + head[1..] == head;
    }
  }

  lemma {:induction false} SplitWhole(s: string, sep: char)
    requires sep !in s
    ensures Split(s, sep) == [s]
  {
    if s != "" {
      SplitWhole(s[1..], sep);
      assert [s[0]] + s[1..] == s;
    }
  }

  /** Python's `sep.join(parts)`. */
  function Join(parts: seq<string>, sep: char): string {
    if parts == [] then "" else if |parts| == 1 then parts[0]
    else parts[0] + [sep] + Join(parts[1..], sep)
  }

  /** Splitting undoes joining when no part contains the separator. */
  lemma {:induction false} SplitJoin(parts: seq<string>, sep: char)
    requires parts != [] && forall p :: p in parts ==> sep !in p
    ensures Split(Join(parts, sep), sep) == parts
  {
    if |parts| == 1 {
      SplitWhole(parts[0], sep);
    } else {
      SplitHead(parts[0], Join(parts[1..], sep), sep);
      SplitJoin(parts[1..], sep);
    }
  }

  /** If one cut of a text lies left of another, the separator of the other is in its right part. */
  lemma LaterSeparator(a: string, x: string, b: string, y: string, sep: char)
    requires a + [sep] + x == b + [sep] + y && |a| < |b|
    ensures sep in x
  {
    assert (b + [sep] + y)[|b|] == sep;
    assert (a + [sep] + x)[|b|] == x[|b| - |a| - 1];
  }

  /** A text is cut at its last separator in one way only. */
  lemma LastSeparator(a: string, x: string, b: string, y: string, sep: char)
    requires a + [sep] + x == b + [sep] + y && sep !in x && sep !in y
    ensures a == b && x == y
  {
    if |a| < |b| {
      LaterSeparator(a, x, b, y, sep);
    } else if |b| < |a| {
      LaterSeparator(b, y, a, x, sep);
    } else {
      var s, t := a + [sep] + x, b + [sep] + y;
      assert a == s[..|a|] && b == t[..|b|] && x == s[|a| + 1..] && y == t[|b| + 1..];
    }
  }

  /** String order by code point. */
  predicate StrLess(a: string, b: string) {
    b != "" && (a == "" || a[0] < b[0] || (a[0] == b[0] && StrLess(a[1..], b[1..])))
  }

  /** One text comes before another exactly if it is a proper prefix of it or smaller where they first
      differ. */
  lemma {:induction false} StrLessIff(a: string, b: string)
    ensures StrLess(a, b) <==> exists i: nat :: LessFrom(a, b, i)
  {
    if a != "" && b != "" && a[0] == b[0] {
      StrLessIff(a[1..], b[1..]);
      if i: nat :| LessFrom(a, b, i) {
        SmallerTail(a, b, i);
      }
      if i: nat :| LessFrom(a[1..], b[1..], i) {
        SmallerWhole(a, b, i);
      }
    } else if b != "" && (a == "" || a[0] < b[0]) {
      assert LessFrom(a, b, 0);
    }
  }

  predicate LessFrom(a: string, b: string, i: nat) {
    i <= |a| && i < |b| && a[..i] == b[..i] && (i == |a| || a[i] < b[i])
  }

  lemma SmallerTail(a: string, b: string, i: nat)
    requires a != "" && b != "" && a[0] == b[0] && LessFrom(a, b, i)
    ensures i > 0 && LessFrom(a[1..], b[1..], i - 1)
  {
    assert a[1..][..i - 1] == a[..i][1..] && b[1..][..i - 1] == b[..i][1..];
  }

  lemma SmallerWhole(a: string, b: string, i: nat)
    requires a != "" && b != "" && a[0] == b[0] && LessFrom(a[1..], b[1..], i)
    ensures LessFrom(a, b, i + 1)
  {
    assert a[..i + 1] == [a[0]] + a[1..][..i] && b[..i + 1] == [b[0]] + b[1..][..i];
  }

  lemma {:induction false} StrOrder(a: string, b: string)
    ensures a == b || StrLess(a, b) || StrLess(b, a)
    ensures !(StrLess(a, b) && StrLess(b, a))
    ensures a == b ==> !StrLess(a, b)
  {
    if a != "" && b != "" {
      StrOrder(a[1..], b[1..]);
      assert a == [a[0]] + a[1..] && b == [b[0]] + b[1..];
    }
  }

  lemma {:induction false} StrLessTransitive(a: string, b: string, c: string)
    requires StrLess(a, b) && StrLess(b, c)
    ensures StrLess(a, c)
  {
    if a != "" && a[0] == b[0] == c[0] {
      StrLessTransitive(a[1..], b[1..], c[1..]);
    }
  }
}
