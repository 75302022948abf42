/**
 * The array operations the React components use on their lists of sections, projects
 * and portfolios: `find`, `findIndex`, `filter`, `map` with a conditional replacement,
 * and `splice(i, 0, x)` on a copy.
 */
module Lists {
  import opened Wrappers

  /** `s.findIndex(hit)`: the first index whose element satisfies `hit` (JavaScript's -1 is None). */
  function FindIndex<T>(s: seq<T>, hit: T -> bool): (r: Option<nat>)
    ensures r.Some? ==> r.value < |s| && hit(s[r.value])
    ensures r.Some? ==> forall j :: 0 <= j < r.value ==> !hit(s[j])
    ensures r.None? <==> forall j :: 0 <= j < |s| ==> !hit(s[j])
    decreases |s|
  {
    if |s| == 0 then None
    else if hit(s[0]) then Some(0)
    else
      match FindIndex(s[1..], hit)
      case None => None
      case Some(i) => Some(i + 1)
  }

  /** `s.find(hit)`: the first element that satisfies `hit` (JavaScript's undefined is None). */
  function Find<T>(s: seq<T>, hit: T -> bool): (r: Option<T>)
    ensures r.Some? <==> exists i :: 0 <= i < |s| && hit(s[i])
    ensures r.Some? ==> FindIndex(s, hit).Some? && r.value == s[FindIndex(s, hit).value]
  {
    match FindIndex(s, hit)
    case None => None
    case Some(i) => Some(s[i])
  }

  /** `s.filter(keep)`: the elements that satisfy `keep`, in their original order. */
  function Filter<T>(s: seq<T>, keep: T -> bool): (r: seq<T>)
    ensures |r| <= |s|
    ensures forall i :: 0 <= i < |r| ==> keep(r[i])
    ensures forall i :: 0 <= i < |r| ==> r[i] in s
    ensures forall i :: 0 <= i < |s| && keep(s[i]) ==> s[i] in r
    decreases |s|
  {
    if |s| == 0 then []
    else if keep(s[0]) then [s[0]] + Filter(s[1..], keep)
    else Filter(s[1..], keep)
  }

  /** Filtering a concatenation filters each part: the kept elements stay in order. */
  lemma {:induction false} FilterConcat<T>(a: seq<T>, b: seq<T>, keep: T -> bool)
    ensures Filter(a + b, keep) == Filter(a, keep) + Filter(b, keep)
    decreases |a|
  {
    if |a| == 0 {
      assert a + b == b;
    } else {
      assert (a + b)[0] == a[0];
      assert (a + b)[1..] == a[1..] + b;
      FilterConcat(a[1..], b, keep);
    }
  }

  /** When every element is kept, `filter` returns the list unchanged. */
  lemma {:induction false} FilterKeepsAll<T>(s: seq<T>, keep: T -> bool)
    requires forall i :: 0 <= i < |s| ==> keep(s[i])
    ensures Filter(s, keep) == s
    decreases |s|
  {
    if |s| > 0 {
      FilterKeepsAll(s[1..], keep);
    }
  }

  /** Filtering out the one rejected element between two kept runs joins the runs. */
  lemma FilterDropsOne<T>(a: seq<T>, c: T, b: seq<T>, keep: T -> bool)
    requires forall i :: 0 <= i < |a| ==> keep(a[i])
    requires forall i :: 0 <= i < |b| ==> keep(b[i])
    requires !keep(c)
    ensures Filter(a + [c] + b, keep) == a + b
  {
    assert Filter([c], keep) == [] by {
      assert [c][1..] == [];
    }
    assert Filter(a + [c], keep) == a by {
      FilterConcat(a, [c], keep);
      FilterKeepsAll(a, keep);
    }
    assert Filter(b, keep) == b by {
      FilterKeepsAll(b, keep);
    }
    FilterConcat(a + [c], b, keep);
  }

  /** `s.map(x => hit(x) ? f(x) : x)`: the hits are replaced in place, all else is kept. */
  function MapWhere<T>(s: seq<T>, hit: T -> bool, f: T -> T): (r: seq<T>)
    ensures |r| == |s|
    ensures forall i :: 0 <= i < |s| && !hit(s[i]) ==> r[i] == s[i]
    ensures forall i :: 0 <= i < |s| && hit(s[i]) ==> r[i] == f(s[i])
  {
    seq(|s|, i requires 0 <= i < |s| => if hit(s[i]) then f(s[i]) else s[i])
  }

  /** `copy.splice(i, 0, x)` on a copy of `s`: `x` lands at index `i`, the rest keep their order. */
  function InsertAt<T>(s: seq<T>, i: nat, x: T): (r: seq<T>)
    requires i <= |s|
    ensures |r| == |s| + 1 && r[i] == x
    ensures r[..i] == s[..i] && r[i + 1..] == s[i..]
  {
    s[..i] + [x] + s[i..]
  }
}
