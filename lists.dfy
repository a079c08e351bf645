/** The two array idioms the pages use on their lists: `filter` by a predicate and removal by index. */
module Lists {

  /**
   * `s.filter(f)`: the elements satisfying `f`, in their order; each one kept as
   * often as it occurs in `s`, every other one dropped.
   */
  function Filter<T(!new)>(s: seq<T>, f: T -> bool): (r: seq<T>)
    ensures |r| <= |s|
    ensures forall k :: 0 <= k < |r| ==> f(r[k])
    ensures forall x :: multiset(r)[x] == if f(x) then multiset(s)[x] else 0
  {
    if s == [] then []
    else
      var rest := Filter(s[1..], f);
      assert s == [s[0]] + s[1..];
      if f(s[0]) then [s[0]] + rest else rest
  }

  /** Filtering keeps order: the filter of a joined list is the join of the filters. */
  lemma {:induction false} FilterConcat<T(!new)>(a: seq<T>, b: seq<T>, f: T -> bool)
    ensures Filter(a + b, f) == Filter(a, f) + Filter(b, f)
  {
    if a == [] {
      assert a + b == b;
    } else {
      assert (a + b)[0] == a[0];
      assert (a + b)[1..] == a[1..] + b;
      FilterConcat(a[1..], b, f);
    }
  }

  /** The positions of `s` whose element passes `f`. */
  ghost function Passing<T>(s: seq<T>, f: T -> bool): set<int>
  {
    set k | 0 <= k < |s| && f(s[k])
  }

  /** Appending one element adds its position to the passing ones exactly when it passes. */
  lemma PassingSnoc<T>(p: seq<T>, x: T, f: T -> bool)
    ensures Passing(p + [x], f) == Passing(p, f) + (if f(x) then {|p|} else {})
    ensures |p| !in Passing(p, f)
  {
    var s := p + [x];
    forall k ensures k in Passing(s, f) <==> k in Passing(p, f) + (if f(x) then {|p|} else {}) {
      if 0 <= k < |p| { assert s[k] == p[k]; }
    }
  }

  /** The filter's length is the number of positions whose element passes. */
  lemma {:induction false} FilterLength<T(!new)>(s: seq<T>, f: T -> bool)
    ensures |Filter(s, f)| == |Passing(s, f)|
    decreases |s|
  {
    if s != [] {
      var p, x := s[..|s| - 1], s[|s| - 1];
      assert s == p + [x];
      FilterConcat(p, [x], f);
      FilterLength(p, f);
      assert Filter([x], f) == if f(x) then [x] else [] by {
        assert [x][1..] == [];
      }
      PassingSnoc(p, x, f);
    }
  }

  /** A filter that every element passes keeps the whole list. */
  lemma {:induction false} FilterKeepsAll<T(!new)>(s: seq<T>, f: T -> bool)
    requires forall k :: 0 <= k < |s| ==> f(s[k])
    ensures Filter(s, f) == s
  {
    if s != [] {
      FilterKeepsAll(s[1..], f);
      assert s == [s[0]] + s[1..];
    }
  }

  /** Filtering by a predicate and by its negation splits the list: the two lengths add up. */
  lemma {:induction false} FilterComplement<T(!new)>(s: seq<T>, f: T -> bool, g: T -> bool)
    requires forall x :: g(x) == !f(x)
    ensures |Filter(s, f)| + |Filter(s, g)| == |s|
  {
    if s != [] {
      FilterComplement(s[1..], f, g);
    }
  }

  /**
   * `s.filter((_, i) => i !== index)`: with `index` a position of `s`, exactly that
   * position is deleted and the rest keep their order; any other `index` keeps `s`.
   */
  function RemoveAt<T>(s: seq<T>, index: int): (r: seq<T>)
    ensures 0 <= index < |s| ==> r == s[..index] + s[index + 1..]
    ensures !(0 <= index < |s|) ==> r == s
    decreases |s|
  {
    if s == [] then []
    else
      var rest := RemoveAt(s[1..], index - 1);
      assert s == [s[0]] + s[1..];
      if index == 0 then rest else [s[0]] + rest
  }

  /** Nothing appears after a removal that was not there before. */
  lemma RemoveAtSubset<T>(s: seq<T>, index: int)
    ensures forall x :: x in RemoveAt(s, index) ==> x in s
  {
    if 0 <= index < |s| {
      assert s == s[..index] + [s[index]] + s[index + 1..];
    }
  }
}
