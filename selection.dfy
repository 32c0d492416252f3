/** Counting and order-preserving selection over label sequences: the
    `Counter(...)[v]` counts and the `[xs[j] for j, c in enumerate(s) if ...]`
    comprehensions of the recorder and the decomposition tool, and
    `random.sample` as a choice of distinct positions. */
module Selection {

  /** `Counter(s)[v]`: how many elements of `s` equal `v` (0 for an absent key). */
  function Count(s: seq<int>, v: int): (c: nat)
    ensures c <= |s|
  {
    if s == [] then 0 else Count(s[..|s| - 1], v) + (if s[|s| - 1] == v then 1 else 0)
  }

  /** The positions `j` of `s` whose element equals `v` (when `matching`) or
      differs from `v` (otherwise), in increasing order. */
  function Positions(s: seq<int>, v: int, matching: bool): (ps: seq<nat>)
    ensures forall k :: 0 <= k < |ps| ==> ps[k] < |s| && (s[ps[k]] == v) == matching
    ensures forall k, l :: 0 <= k < l < |ps| ==> ps[k] < ps[l]
    ensures forall j :: 0 <= j < |s| && (s[j] == v) == matching ==> j in ps
    ensures |ps| == if matching then Count(s, v) else |s| - Count(s, v)
  {
    if s == [] then []
    else
      var ps' := Positions(s[..|s| - 1], v, matching);
      if (s[|s| - 1] == v) == matching then ps' + [|s| - 1] else ps'
  }

  predicate InRange(ps: seq<nat>, m: nat) {
    forall k :: 0 <= k < |ps| ==> ps[k] < m
  }

  predicate Distinct(ps: seq<nat>) {
    forall k, l :: 0 <= k < l < |ps| ==> ps[k] != ps[l]
  }

  /** `[xs[p] for p in ps]`. */
  function Gather<T>(xs: seq<T>, ps: seq<nat>): seq<T>
    requires InRange(ps, |xs|)
  {
    seq(|ps|, k requires 0 <= k < |ps| => xs[ps[k]])
  }

  /** `[xs[j] for j, c in enumerate(s) if c == v]`: the members of bucket `v`,
      in their original order. */
  function Members<T>(xs: seq<T>, s: seq<int>, v: int): (r: seq<T>)
    requires |s| <= |xs|
    ensures |r| == Count(s, v)
    ensures forall k :: 0 <= k < |r| ==> r[k] == xs[Positions(s, v, true)[k]]
  {
    Gather(xs, Positions(s, v, true))
  }

  lemma TakeSnoc<T>(s: seq<T>, t: nat)
    requires t < |s|
    ensures s[..t + 1] == s[..t] + [s[t]]
  {
  }

  /** `[f(x) for x in xs]`. */
  function MapSeq<T>(f: int -> T, xs: seq<int>): (ys: seq<T>)
    ensures |ys| == |xs|
    ensures forall k :: 0 <= k < |xs| ==> ys[k] == f(xs[k])
  {
    if xs == [] then [] else MapSeq(f, xs[..|xs| - 1]) + [f(xs[|xs| - 1])]
  }

  /** Sum over the buckets `0 .. k-1` of their counts. */
  function CountSum(s: seq<int>, k: nat): nat {
    if k == 0 then 0 else CountSum(s, k - 1) + Count(s, k - 1)
  }

  lemma {:induction false} CountSnoc(s: seq<int>, x: int, v: int)
    ensures Count(s + [x], v) == Count(s, v) + (if x == v then 1 else 0)
  {
    assert (s + [x])[..|s|] == s;
  }

  lemma {:induction false} CountSumSnoc(s: seq<int>, x: int, k: nat)
    ensures CountSum(s + [x], k) == CountSum(s, k) + (if 0 <= x < k then 1 else 0)
  {
    if k > 0 {
      CountSumSnoc(s, x, k - 1);
      CountSnoc(s, x, k - 1);
    }
  }

  /** The buckets `0 .. k-1` and the unmatched bucket `-1` never hold more than
      the whole sequence, and hold exactly all of it when every element is a
      bucket index or `-1`. */
  lemma {:induction false} CountsPartition(s: seq<int>, k: nat)
    ensures CountSum(s, k) + Count(s, -1) <= |s|
    ensures (forall j :: 0 <= j < |s| ==> -1 <= s[j] < k) ==> CountSum(s, k) + Count(s, -1) == |s|
  {
    if s != [] {
      var init, x := s[..|s| - 1], s[|s| - 1];
      assert s == init + [x];
      CountsPartition(init, k);
      CountSumSnoc(init, x, k);
      CountSnoc(init, x, -1);
    } else {
      CountSumEmpty(k);
    }
  }

  lemma {:induction false} CountSumEmpty(k: nat)
    ensures CountSum([], k) == 0
  {
    if k > 0 {
      CountSumEmpty(k - 1);
    }
  }

  /** Positions `ps` are a draw of `k` distinct positions out of `0 .. m-1`. */
  predicate IsSample(ps: seq<nat>, m: nat, k: nat) {
    |ps| == k && InRange(ps, m) && Distinct(ps)
  }

  function Min(a: nat, b: nat): nat {
    if a <= b then a else b
  }

  /** `random.sample(range(m), k)`: `k` distinct positions, drawn one at a
      time among those not drawn yet; which ones is left open. */
  method Sample(m: nat, k: nat) returns (ps: seq<nat>)
    requires k <= m
    ensures IsSample(ps, m, k)
  {
    ps := [];
    while |ps| < k
      invariant |ps| <= k && InRange(ps, m) && Distinct(ps)
      decreases k - |ps|
    {
      UndrawnExists(ps, m);
      var p :| 0 <= p < m && p !in ps;
      ps := ps + [p];
    }
  }

  /** Pigeonhole: fewer than `m` distinct positions below `m` leave one out. */
  lemma {:induction false} UndrawnExists(ps: seq<nat>, m: nat)
    requires InRange(ps, m) && Distinct(ps) && |ps| < m
    ensures exists p :: 0 <= p < m && p !in ps
  {
    if m - 1 in ps {
      var i :| 0 <= i < |ps| && ps[i] == m - 1;
      var rest := ps[..i] + ps[i + 1..];
      forall a | 0 <= a < |rest| ensures rest[a] < m - 1 {
        if a < i {
          assert rest[a] == ps[a];
        } else {
          assert rest[a] == ps[a + 1];
        }
      }
      forall a, b | 0 <= a < b < |rest| ensures rest[a] != rest[b] {
        var a', b' := if a < i then a else a + 1, if b < i then b else b + 1;
        assert rest[a] == ps[a'] && rest[b] == ps[b'];
      }
      UndrawnExists(rest, m - 1);
      var p :| 0 <= p < m - 1 && p !in rest;
      forall j | 0 <= j < |ps| ensures ps[j] != p {
        if j < i {
          assert ps[j] == rest[j];
        } else if j > i {
          assert ps[j] == rest[j - 1];
        }
      }
      assert 0 <= p < m && p !in ps;
    } else {
      assert 0 <= m - 1 < m && m - 1 !in ps;
    }
  }

  /** Values picked at distinct positions are a sub-multiset of the whole:
      a sample without replacement never repeats a member more often than it
      occurs. */
  lemma {:induction false} GatherDistinctSubmultiset<T>(xs: seq<T>, ps: seq<nat>)
    requires InRange(ps, |xs|) && Distinct(ps)
    ensures multiset(Gather(xs, ps)) <= multiset(xs)
    decreases |ps|
  {
    if ps != [] {
      var p, init := ps[|ps| - 1], ps[..|ps| - 1];
      var rest := xs[..p] + xs[p + 1..];
      var qs := seq(|init|, a requires 0 <= a < |init| => if init[a] <= p then init[a] else init[a] - 1);
      forall a | 0 <= a < |init|
        ensures qs[a] < |rest| && rest[qs[a]] == xs[init[a]]
      {
        assert init[a] == ps[a] && ps[a] != ps[|ps| - 1];
      }
      forall a, b | 0 <= a < b < |init|
        ensures qs[a] != qs[b]
      {
        assert init[a] == ps[a] && init[b] == ps[b];
      }
      GatherDistinctSubmultiset(rest, qs);
      assert Gather(rest, qs) == Gather(xs, init);
      assert Gather(xs, ps) == Gather(xs, init) + [xs[p]];
      assert xs == xs[..p] + [xs[p]] + xs[p + 1..];
      assert multiset(xs) == multiset(rest) + multiset{xs[p]};
    }
  }
}
