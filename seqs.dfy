/** Sequence helpers. A document-store `find` with an equality filter, read in
    natural (insertion) order, is a filter over a sequence; `find_one` is the
    first index that satisfies the filter. */
module Seqs {

  datatype Option<T> = None | Some(value: T)

  /** The elements of `s` that satisfy `f`, in their original order. */
  function Filter<T>(s: seq<T>, f: T -> bool): (r: seq<T>)
    ensures |r| <= |s|
  {
    if s == [] then []
    else (if f(s[0]) then [s[0]] else []) + Filter(s[1..], f)
  }

  /** The index of the first element of `s` that satisfies `f`. */
  function FirstIndex<T>(s: seq<T>, f: T -> bool): (r: Option<nat>)
    ensures r.None? ==> forall j :: 0 <= j < |s| ==> !f(s[j])
    ensures r.Some? ==> r.value < |s| && f(s[r.value])
    ensures r.Some? ==> forall j :: 0 <= j < r.value ==> !f(s[j])
  {
    if s == [] then None
    else if f(s[0]) then Some(0)
    else match FirstIndex(s[1..], f)
      case None => None
      case Some(k) => Some(k + 1)
  }

  /** `g` applied to every element of `s`. */
  function Map<A, B>(s: seq<A>, g: A -> B): (r: seq<B>)
    ensures |r| == |s|
    ensures forall i :: 0 <= i < |s| ==> r[i] == g(s[i])
  {
    if s == [] then [] else [g(s[0])] + Map(s[1..], g)
  }

  /** `Filter` keeps exactly the elements of `s` that satisfy `f`. */
  lemma {:induction false} FilterMembers<T>(s: seq<T>, f: T -> bool)
    ensures forall x :: x in Filter(s, f) <==> x in s && f(x)
  {
    if s != [] {
      FilterMembers(s[1..], f);
      assert s == [s[0]] + s[1..];
    }
  }

  /** `s` with the element at index `i` taken out (a `delete_one`). */
  function RemoveAt<T>(s: seq<T>, i: nat): (r: seq<T>)
    requires i < |s|
    ensures |r| == |s| - 1
    ensures forall j :: 0 <= j < i ==> r[j] == s[j]
    ensures forall j :: i <= j < |r| ==> r[j] == s[j + 1]
  {
    s[..i] + s[i + 1..]
  }

  lemma {:induction false} FilterAppend<T>(s: seq<T>, t: seq<T>, f: T -> bool)
    ensures Filter(s + t, f) == Filter(s, f) + Filter(t, f)
  {
    if s == [] {
      assert s + t == t;
    } else {
      var head := if f(s[0]) then [s[0]] else [];
      var u := s + t;
      assert u[0] == s[0] && u[1..] == s[1..] + t;
      calc {
        Filter(u, f);
        head + Filter(s[1..] + t, f);
        { FilterAppend(s[1..], t, f); }
        head + (Filter(s[1..], f) + Filter(t, f));
        { AppendAssociates(head, Filter(s[1..], f), Filter(t, f)); }
        head + Filter(s[1..], f) + Filter(t, f);
        Filter(s, f) + Filter(t, f);
      }
    }
  }

  lemma FilterNone<T>(s: seq<T>, f: T -> bool)
    requires forall j :: 0 <= j < |s| ==> !f(s[j])
    ensures Filter(s, f) == []
  {
  }

  /** Filtering splits around any index. */
  lemma FilterSplit<T>(s: seq<T>, i: nat, f: T -> bool)
    requires i < |s|
    ensures Filter(s, f) == Filter(s[..i], f) + (if f(s[i]) then [s[i]] else []) + Filter(s[i + 1..], f)
  {
    var front, x, back := s[..i], s[i], s[i + 1..];
    SplitAround(s, i);
    FilterSingleton(x, f);
    FilterAppend(front + [x], back, f);
    FilterAppend(front, [x], f);
  }

  /** A sequence is what comes before a position, the element there and what follows. */
  lemma SplitAround<T>(s: seq<T>, i: nat)
    requires i < |s|
    ensures s == s[..i] + [s[i]] + s[i + 1..]
  {
  }

  lemma FilterSingleton<T>(x: T, f: T -> bool)
    ensures Filter([x], f) == if f(x) then [x] else []
  {
    assert [x][1..] == [];
  }

  /** The head of a filter is the element `FirstIndex` finds, and the rest of
      the filter is what follows it. */
  lemma FirstIndexIsHead<T>(s: seq<T>, f: T -> bool)
    ensures FirstIndex(s, f).None? <==> Filter(s, f) == []
    ensures FirstIndex(s, f).Some? ==>
      Filter(s, f) == [s[FirstIndex(s, f).value]] + Filter(s[FirstIndex(s, f).value + 1..], f)
  {
    match FirstIndex(s, f)
    case None =>
      FilterNone(s, f);
    case Some(i) =>
      FilterSplit(s, i, f);
      FilterNone(s[..i], f);
  }

  /** Replacing an element of `s` by one that `f` rejects, where neither the
      old nor the new element satisfies `f`, leaves the filter as it was. */
  lemma FilterUpdateOutside<T>(s: seq<T>, i: nat, y: T, f: T -> bool)
    requires i < |s| && !f(s[i]) && !f(y)
    ensures Filter(s[i := y], f) == Filter(s, f)
  {
    FilterSplit(s, i, f);
    FilterSplit(s[i := y], i, f);
    assert s[i := y][..i] == s[..i];
    assert s[i := y][i + 1..] == s[i + 1..];
  }

  /** Replacing an element by one that `f` rejects takes at most that element
      out of the filter. */
  lemma FilterUpdateOut<T>(s: seq<T>, i: nat, y: T, f: T -> bool)
    requires i < |s| && !f(y)
    ensures multiset(Filter(s[i := y], f)) == multiset(Filter(s, f)) - (if f(s[i]) then multiset{s[i]} else multiset{})
  {
    FilterSplit(s, i, f);
    FilterSplit(s[i := y], i, f);
    assert s[i := y][..i] == s[..i];
    assert s[i := y][i + 1..] == s[i + 1..];
  }

  /** The first element satisfying `f` is the one with no earlier match. */
  lemma FirstIndexUnique<T>(s: seq<T>, k: nat, f: T -> bool)
    requires k < |s| && f(s[k])
    requires forall j :: 0 <= j < k ==> !f(s[j])
    ensures FirstIndex(s, f) == Some(k)
  {
  }

  /** Replacing the first element that satisfies `f` by one that does not
      drops the head of the filter. */
  lemma FilterUpdateFirst<T>(s: seq<T>, i: nat, y: T, f: T -> bool)
    requires FirstIndex(s, f) == Some(i) && !f(y)
    ensures Filter(s, f) != [] && Filter(s[i := y], f) == Filter(s, f)[1..]
  {
    FirstIndexIsHead(s, f);
    FilterSplit(s[i := y], i, f);
    assert s[i := y][..i] == s[..i];
    assert s[i := y][i + 1..] == s[i + 1..];
    FilterNone(s[..i], f);
  }

  /** Replacing an element that `f` rejects by one that it accepts adds that
      one element to the filter. */
  lemma FilterUpdateInto<T>(s: seq<T>, i: nat, y: T, f: T -> bool)
    requires i < |s| && !f(s[i]) && f(y)
    ensures multiset(Filter(s[i := y], f)) == multiset(Filter(s, f)) + multiset{y}
  {
    FilterSplit(s, i, f);
    FilterSplit(s[i := y], i, f);
    assert s[i := y][..i] == s[..i];
    assert s[i := y][i + 1..] == s[i + 1..];
  }

  /** Deleting an element that `f` rejects leaves the filter as it was. */
  lemma FilterRemoveOutside<T>(s: seq<T>, i: nat, f: T -> bool)
    requires i < |s| && !f(s[i])
    ensures Filter(RemoveAt(s, i), f) == Filter(s, f)
  {
    FilterSplit(s, i, f);
    FilterAppend(s[..i], s[i + 1..], f);
  }

  /** Deleting any element takes exactly that element out of the filter when
      `f` accepts it, and nothing otherwise. */
  lemma FilterRemove<T>(s: seq<T>, i: nat, f: T -> bool)
    requires i < |s|
    ensures multiset(Filter(RemoveAt(s, i), f)) == multiset(Filter(s, f)) - (if f(s[i]) then multiset{s[i]} else multiset{})
  {
    FilterSplit(s, i, f);
    FilterAppend(s[..i], s[i + 1..], f);
  }

  /** `Filter` keeps every copy of an element it accepts and none of one it
      rejects. */
  lemma {:induction false} FilterCount<T>(s: seq<T>, f: T -> bool)
    ensures forall x :: multiset(Filter(s, f))[x] == if f(x) then multiset(s)[x] else 0
  {
    if s != [] {
      FilterCount(s[1..], f);
      assert s == [s[0]] + s[1..];
    }
  }

  /** Deleting the first element that satisfies `f` drops the head of the
      filter. */
  lemma FilterRemoveFirst<T>(s: seq<T>, i: nat, f: T -> bool)
    requires FirstIndex(s, f) == Some(i)
    ensures Filter(s, f) != [] && Filter(RemoveAt(s, i), f) == Filter(s, f)[1..]
  {
    FirstIndexIsHead(s, f);
    FilterAppend(s[..i], s[i + 1..], f);
    FilterNone(s[..i], f);
  }

  /** Two filters that agree on every element of `s` select the same elements. */
  lemma {:induction false} FilterCongruent<T>(s: seq<T>, f: T -> bool, g: T -> bool)
    requires forall j :: 0 <= j < |s| ==> f(s[j]) == g(s[j])
    ensures Filter(s, f) == Filter(s, g)
  {
    if s != [] {
      assert forall j :: 0 <= j < |s| - 1 ==> s[1..][j] == s[j + 1];
      FilterCongruent(s[1..], f, g);
    }
  }

  lemma MapConcat<A, B>(s: seq<A>, t: seq<A>, g: A -> B)
    ensures Map(s + t, g) == Map(s, g) + Map(t, g)
  {
    var l, r := Map(s + t, g), Map(s, g) + Map(t, g);
    assert |l| == |r|;
    forall k | 0 <= k < |l| ensures l[k] == r[k] {
      if k < |s| { assert (s + t)[k] == s[k]; } else { assert (s + t)[k] == t[k - |s|]; }
    }
  }

  /** A later write to key `k` of a map overrides an earlier one. */
  lemma UpdateTwice<K, V>(m: map<K, V>, k: K, a: V, b: V)
    ensures m[k := a][k := b] == m[k := b]
  {
  }

  lemma AppendAssociates<T>(a: seq<T>, b: seq<T>, c: seq<T>)
    ensures a + b + c == a + (b + c)
  {
  }

  /** A log that had `Map(s, g)` appended and then `Map(t, g)` has had
      `Map(s + t, g)` appended. */
  lemma MapLogAppend<A, B>(log0: seq<B>, log1: seq<B>, log2: seq<B>, s: seq<A>, t: seq<A>, g: A -> B)
    requires log1 == log0 + Map(s, g) && log2 == log1 + Map(t, g)
    ensures log2 == log0 + Map(s + t, g)
  {
    calc {
      log2;
      log0 + Map(s, g) + Map(t, g);
      { AppendAssociates(log0, Map(s, g), Map(t, g)); }
      log0 + (Map(s, g) + Map(t, g));
      { MapConcat(s, t, g); }
      log0 + Map(s + t, g);
    }
  }

  /** A prefix of the tail of `q`, with the head of `q` in front, is a prefix
      of `q`, and what follows it in the tail is what follows it in `q`. */
  lemma PrefixCons<T>(q: seq<T>, h: seq<T>)
    requires 0 < |q| && |h| <= |q| - 1 && h == q[1..][..|h|]
    ensures [q[0]] + h == q[..1 + |h|]
    ensures q[1..][|h|..] == q[1 + |h|..]
  {
  }
}
