/**
 * The per-frame ordering of `draw` in old_sketch.js: keep the triangles the
 * cull marked drawn, then sort them by ascending mean transformed depth,
 * `(a, b) => a_avg_z - b_avg_z`.
 */
module DepthSort {
  import opened Geometry

  /** The drawn triangles of `s` in their original order: what the loop pushes. */
  function FilterDrawn(s: seq<Triangle>): (r: seq<Triangle>)
    ensures |r| <= |s|
    ensures forall t :: t in r ==> t in s && t.isDrawn
  {
    if s == [] then []
    else
      var last := s[|s| - 1];
      FilterDrawn(s[..|s| - 1]) + (if last.isDrawn then [last] else [])
  }

  /** Each drawn triangle is kept as often as it occurs, and no other is kept. */
  lemma {:induction false} FilterDrawnCount(s: seq<Triangle>, t: Triangle)
    ensures multiset(FilterDrawn(s))[t] == if t.isDrawn then multiset(s)[t] else 0
  {
    if s != [] {
      var init, last := s[..|s| - 1], s[|s| - 1];
      assert s == init + [last];
      FilterDrawnCount(init, t);
    }
  }

  /**
   * Filtering distributes over concatenation, so the kept triangles keep their
   * relative order.
   */
  lemma {:induction false} FilterDrawnAppend(a: seq<Triangle>, b: seq<Triangle>)
    ensures FilterDrawn(a + b) == FilterDrawn(a) + FilterDrawn(b)
  {
    if b != [] {
      var init, last := b[..|b| - 1], b[|b| - 1];
      assert a + b == (a + init) + [last];
      assert (a + b)[..|a + b| - 1] == a + init;
      FilterDrawnAppend(a, init);
    } else {
      assert a + b == a;
    }
  }

  /** The triangles are in the order `draw` hands them to `draw_triangle`. */
  ghost predicate SortedByDepth(s: seq<Triangle>)
  {
    forall i, j :: 0 <= i < j < |s| ==> DepthKey(s[i]) <= DepthKey(s[j])
  }

  /** A triangle no deeper than any of a sorted sequence can go in front of it. */
  lemma SortedPrepend(u: Triangle, s: seq<Triangle>)
    requires SortedByDepth(s)
    requires forall v :: v in s ==> DepthKey(u) <= DepthKey(v)
    ensures SortedByDepth([u] + s)
  {
    var r := [u] + s;
    forall i, j | 0 <= i < j < |r| ensures DepthKey(r[i]) <= DepthKey(r[j]) {
      assert r[j] == s[j - 1];
      if i > 0 {
        assert r[i] == s[i - 1];
      }
    }
  }

  /** The tail of a sorted sequence is sorted. */
  lemma SortedTail(s: seq<Triangle>)
    requires SortedByDepth(s) && s != []
    ensures SortedByDepth(s[1..])
    ensures forall v :: v in s[1..] ==> DepthKey(s[0]) <= DepthKey(v)
  {
    var tail := s[1..];
    forall i, j | 0 <= i < j < |tail| ensures DepthKey(tail[i]) <= DepthKey(tail[j]) {
      assert tail[i] == s[i + 1] && tail[j] == s[j + 1];
    }
    forall v | v in tail ensures DepthKey(s[0]) <= DepthKey(v) {
      var k :| 0 <= k < |tail| && tail[k] == v;
      assert v == s[k + 1];
    }
  }

  /**
   * Inserts `t` into a sorted sequence after every element whose key is not
   * larger than its own.
   */
  function Insert(t: Triangle, s: seq<Triangle>): (r: seq<Triangle>)
    requires SortedByDepth(s)
    ensures SortedByDepth(r)
    ensures multiset(r) == multiset(s) + multiset{t}
    ensures forall u :: u in r ==> u == t || u in s
  {
    if s == [] then [t]
    else if DepthKey(t) < DepthKey(s[0]) then
      SortedPrepend(t, s);
      [t] + s
    else
      SortedTail(s);
      var rest := Insert(t, s[1..]);
      assert s == [s[0]] + s[1..];
      SortedPrepend(s[0], rest);
      [s[0]] + rest
  }

  /**
   * Where `Insert` puts `t`: after every element whose key is at most its own
   * (ties included) and before every element with a larger key; the elements
   * of `s` keep their order.
   */
  lemma {:induction false} InsertAfterTies(t: Triangle, s: seq<Triangle>) returns (p: nat)
    requires SortedByDepth(s)
    ensures p <= |s| && Insert(t, s) == s[..p] + [t] + s[p..]
    ensures forall i :: 0 <= i < p ==> DepthKey(s[i]) <= DepthKey(t)
    ensures forall i :: p <= i < |s| ==> DepthKey(t) < DepthKey(s[i])
  {
    if s == [] {
      p := 0;
    } else if DepthKey(t) < DepthKey(s[0]) {
      p := 0;
      assert s[..0] + [t] + s[0..] == [t] + s;
    } else {
      SortedTail(s);
      var tail := s[1..];
      var q := InsertAfterTies(t, tail);
      p := q + 1;
      assert s == [s[0]] + tail;
      InsertBehind(t, s);
      ConsSplit(s[0], tail, q, t);
      forall i | 0 < i < p ensures DepthKey(s[i]) <= DepthKey(t) {
        assert s[i] == tail[i - 1];
      }
      forall i | p <= i < |s| ensures DepthKey(t) < DepthKey(s[i]) {
        assert s[i] == tail[i - 1];
      }
    }
  }

  /** A triangle no shallower than the head of `s` is inserted into its tail. */
  lemma InsertBehind(t: Triangle, s: seq<Triangle>)
    requires SortedByDepth(s) && s != [] && DepthKey(s[0]) <= DepthKey(t)
    ensures SortedByDepth(s[1..])
    ensures Insert(t, s) == [s[0]] + Insert(t, s[1..])
  {
    SortedTail(s);
  }

  /** Splitting `[x] + tail` one position further than `tail`. */
  lemma ConsSplit(x: Triangle, tail: seq<Triangle>, q: nat, t: Triangle)
    requires q <= |tail|
    ensures ([x] + tail)[..q + 1] + [t] + ([x] + tail)[q + 1..] == [x] + (tail[..q] + [t] + tail[q..])
  {
    var s := [x] + tail;
    assert s[..q + 1] == [x] + tail[..q];
    assert s[q + 1..] == tail[q..];
  }

  /**
   * The order of `Array.prototype.sort` with the depth comparator: ascending by
   * key. Each triangle is inserted after the earlier ones of equal key
   * (`InsertAfterTies`).
   */
  function SortByDepth(s: seq<Triangle>): (r: seq<Triangle>)
    ensures SortedByDepth(r)
    ensures multiset(r) == multiset(s)
  {
    if s == [] then []
    else
      var init, last := s[..|s| - 1], s[|s| - 1];
      assert s == init + [last];
      Insert(last, SortByDepth(init))
  }

  /**
   * The frame's drawing order is a permutation of the drawn triangles, sorted
   * by depth: each triangle appears exactly as often as it occurs drawn in the
   * mesh, and every element of the order is a drawn triangle of the mesh.
   */
  lemma DrawOrder(triangles: seq<Triangle>, t: Triangle)
    ensures var order := SortByDepth(FilterDrawn(triangles));
      SortedByDepth(order) &&
      multiset(order)[t] == (if t.isDrawn then multiset(triangles)[t] else 0) &&
      (t in order <==> t in triangles && t.isDrawn)
  {
    FilterDrawnCount(triangles, t);
  }
}
