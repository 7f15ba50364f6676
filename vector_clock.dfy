/** Vector clocks: one counter per process, the owner's counter at index `i`. */
module VectorClocks {
  import opened Order

  /** A clock value: the owner's 0-based process index and one counter per
      process of the cluster. */
  datatype VectorClock = VectorClock(i: nat, clk: seq<nat>) {

    /** The owner's index lies inside the vector. The fields are private to the
        source module and every constructor of a clock (`new`, `extend`,
        `merge`) keeps this, so indexing the owner's counter never panics. */
    predicate WellFormed() {
      i < |clk|
    }
  }

  /** The reference causal order on counter vectors: equal length, and every
      component of `s` at most the matching one of `t`. */
  predicate Dominated(s: seq<nat>, t: seq<nat>) {
    |s| == |t| && forall k :: 0 <= k < |s| ==> s[k] <= t[k]
  }

  // ---------------------------------------------------------------------------
  // LogicalClock: new, extend, merge
  // ---------------------------------------------------------------------------

  /** `new(i, n)`: the genesis clock of process `i` in a cluster of `n`.
      Panics unless `i < n`. */
  function New(i: nat, n: nat): (r: VectorClock)
    requires i < n
    ensures r.WellFormed() && r.i == i && |r.clk| == n
    ensures r.clk[i] == 1
    ensures forall j :: 0 <= j < n && j != i ==> r.clk[j] == 0
  {
    VectorClock(i, seq(n, j => if i == j then 1 else 0))
  }

  /** `extend`: the clock after one local step of its owner. */
  function Extend(c: VectorClock): (r: VectorClock)
    requires c.WellFormed()
    ensures r.WellFormed() && r.i == c.i && |r.clk| == |c.clk|
    ensures r.clk[c.i] == c.clk[c.i] + 1
    ensures forall j :: 0 <= j < |c.clk| && j != c.i ==> r.clk[j] == c.clk[j]
  {
    c.(clk := c.clk[c.i := c.clk[c.i] + 1])
  }

  /** What `merge` computes: the component-wise maximum of the two vectors,
      then one more at the owner's index; the owner stays that of `a`. */
  function Merged(a: VectorClock, b: VectorClock): (r: VectorClock)
    requires a.WellFormed() && |a.clk| == |b.clk|
    ensures r.WellFormed() && r.i == a.i && |r.clk| == |a.clk|
    ensures forall j :: 0 <= j < |a.clk| ==>
      r.clk[j] == Max(a.clk[j], b.clk[j]) + (if j == a.i then 1 else 0)
  {
    var m := PairwiseMax(a.clk, b.clk);
    VectorClock(a.i, m[a.i := m[a.i] + 1])
  }

  /** `merge`: clones `self`, raises each counter to the matching counter of
      `other` in one pass, then bumps the owner's counter. Panics unless both
      vectors have the same length. */
  method Merge(self: VectorClock, other: VectorClock) returns (e: VectorClock)
    requires self.WellFormed() && |self.clk| == |other.clk|
    ensures e == Merged(self, other)
  {
    e := self;
    var k := 0;
    while k < |e.clk|
      invariant e.i == self.i && |e.clk| == |self.clk|
      invariant 0 <= k <= |e.clk|
      invariant forall j :: 0 <= j < k ==> e.clk[j] == Max(self.clk[j], other.clk[j])
      invariant forall j :: k <= j < |e.clk| ==> e.clk[j] == self.clk[j]
    {
      e := e.(clk := e.clk[k := Max(e.clk[k], other.clk[k])]);
      k := k + 1;
    }
    e := e.(clk := e.clk[e.i := e.clk[e.i] + 1]);
  }

  // ---------------------------------------------------------------------------
  // PartialOrd and PartialEq
  // ---------------------------------------------------------------------------

  /** The `try_fold` of `partial_cmp` over the zipped counters, starting from
      `acc`: a larger counter on the left stops the fold with no answer, a
      smaller one makes the running answer `Less`, an equal one keeps it. */
  function TryFold(s: seq<nat>, t: seq<nat>, acc: Ordering): (r: Option<Ordering>)
    ensures acc != Greater ==> r != Some(Greater)
    ensures r == Some(Equal) ==> acc == Equal
    decreases |s|
  {
    if s == [] || t == [] then Some(acc)
    else if s[0] > t[0] then None
    else TryFold(s[1..], t[1..], if s[0] < t[0] then Less else acc)
  }

  /** What the fold reports on vectors of equal length, from a running answer
      other than `Greater`: nothing unless `s` is dominated by `t`, the running
      answer when they are equal, and `Less` otherwise. */
  lemma {:induction false} TryFoldMeaning(s: seq<nat>, t: seq<nat>, acc: Ordering)
    requires |s| == |t| && acc != Greater
    ensures TryFold(s, t, acc) ==
      if !Dominated(s, t) then None
      else if s == t then Some(acc)
      else Some(Less)
  {
    if s != [] {
      var acc' := if s[0] < t[0] then Less else acc;
      TryFoldMeaning(s[1..], t[1..], acc');
      assert Dominated(s, t) <==> s[0] <= t[0] && Dominated(s[1..], t[1..]) by {
        if s[0] <= t[0] && Dominated(s[1..], t[1..]) {
          forall k | 0 <= k < |s| ensures s[k] <= t[k] {
            if k > 0 { assert s[k] == s[1..][k - 1]; }
          }
        }
      }
      assert s == t <==> s[0] == t[0] && s[1..] == t[1..] by {
        if s[0] == t[0] && s[1..] == t[1..] {
          assert s == [s[0]] + s[1..] && t == [t[0]] + t[1..];
        }
      }
    }
  }

  /** `partial_cmp`: `None` for vectors of different lengths, otherwise the
      fold above started from `Equal`. It answers `Equal` exactly on equal
      vectors, `Less` exactly when `a` is strictly dominated by `b`, and never
      `Greater`: whenever some counter of `a` exceeds that of `b` it answers
      `None`. */
  function PartialCmp(a: VectorClock, b: VectorClock): (r: Option<Ordering>)
    ensures r != Some(Greater)
    ensures r == Some(Equal) <==> a.clk == b.clk
    ensures r == Some(Less) <==> Dominated(a.clk, b.clk) && a.clk != b.clk
    ensures r == None <==> !Dominated(a.clk, b.clk)
  {
    if |a.clk| != |b.clk| then None
    else
      TryFoldMeaning(a.clk, b.clk, Equal);
      TryFold(a.clk, b.clk, Equal)
  }

  /** `eq`: equality of the counters alone, whatever the owners; it agrees
      with `partial_cmp` reporting `Equal`. */
  function Eq(a: VectorClock, b: VectorClock): (r: bool)
    ensures r <==> PartialCmp(a, b) == Some(Equal)
  {
    a.clk == b.clk
  }

  /** Rust's `a < b` on a `PartialOrd`: `partial_cmp` reports `Less`. */
  predicate Lt(a: VectorClock, b: VectorClock) {
    PartialCmp(a, b) == Some(Less)
  }

  /** Rust's `a > b` on a `PartialOrd`: `partial_cmp` reports `Greater`. */
  predicate Gt(a: VectorClock, b: VectorClock) {
    PartialCmp(a, b) == Some(Greater)
  }

  // ---------------------------------------------------------------------------
  // Causal-order facts
  // ---------------------------------------------------------------------------

  /** `<` is transitive, so causal order carries along chains of events. */
  lemma LtTransitive(a: VectorClock, b: VectorClock, c: VectorClock)
    requires Lt(a, b) && Lt(b, c)
    ensures Lt(a, c)
  {
  }

  /** `<` is irreflexive and asymmetric. */
  lemma LtAsymmetric(a: VectorClock, b: VectorClock)
    requires Lt(a, b)
    ensures !Lt(b, a) && !Eq(a, b)
  {
  }

  /** A local step strictly advances the clock: `a < a.extend()`. */
  lemma ExtendStrictlyGrows(c: VectorClock)
    requires c.WellFormed()
    ensures Lt(c, Extend(c))
  {
    var e := Extend(c);
    assert e.clk[c.i] != c.clk[c.i];
  }

  /** A receive strictly follows both the receiver's clock and the received
      one: `self < self.merge(other)` and `other < self.merge(other)`. */
  lemma MergeStrictlyGrows(a: VectorClock, b: VectorClock)
    requires a.WellFormed() && |a.clk| == |b.clk|
    ensures Lt(a, Merged(a, b)) && Lt(b, Merged(a, b))
  {
    var m := Merged(a, b);
    assert m.clk[a.i] != a.clk[a.i];
    assert m.clk[a.i] != b.clk[a.i];
  }

  /** Genesis clocks of two different processes of one cluster are causally
      incomparable: `partial_cmp` answers `None`. */
  lemma GenesisIncomparable(i: nat, j: nat, n: nat)
    requires i < n && j < n && i != j
    ensures PartialCmp(New(i, n), New(j, n)) == None
  {
    assert New(i, n).clk[i] > New(j, n).clk[i];
  }

  /** Equality looks at the counters only: changing the owner index changes
      neither `eq` nor `partial_cmp`. */
  lemma EqualityIgnoresOwner(a: VectorClock, b: VectorClock, j: nat)
    ensures Eq(a, b) == Eq(a.(i := j), b)
    ensures PartialCmp(a, b) == PartialCmp(a.(i := j), b)
  {
  }

  // ---------------------------------------------------------------------------
  // `partial_cmp` never reports `Greater`
  // ---------------------------------------------------------------------------

  /** As written, `a.extend() > a` never holds although `a < a.extend()` does:
      Rust's `>` and `<` are not each other's mirror for these clocks. */
  lemma ExtendNotReportedGreater(c: VectorClock)
    requires c.WellFormed()
    ensures Lt(c, Extend(c)) && !Gt(Extend(c), c)
  {
    ExtendStrictlyGrows(c);
  }

  /** The fold with the missing case restored: a larger counter makes the
      running answer `Greater`, and a disagreement with the running answer
      (`Less` against `Greater`) stops it with no answer. */
  function TryFoldBoth(s: seq<nat>, t: seq<nat>, acc: Ordering): Option<Ordering>
    decreases |s|
  {
    if s == [] || t == [] then Some(acc)
    else if s[0] > t[0] then
      if acc == Less then None else TryFoldBoth(s[1..], t[1..], Greater)
    else if s[0] < t[0] then
      if acc == Greater then None else TryFoldBoth(s[1..], t[1..], Less)
    else TryFoldBoth(s[1..], t[1..], acc)
  }

  /** What the restored fold reports on vectors of equal length. */
  lemma {:induction false} TryFoldBothMeaning(s: seq<nat>, t: seq<nat>, acc: Ordering)
    requires |s| == |t|
    ensures TryFoldBoth(s, t, acc) ==
      if s == t then Some(acc)
      else if Dominated(s, t) then (if acc == Greater then None else Some(Less))
      else if Dominated(t, s) then (if acc == Less then None else Some(Greater))
      else None
  {
    if s != [] {
      assert Dominated(s, t) <==> s[0] <= t[0] && Dominated(s[1..], t[1..]) by {
        if s[0] <= t[0] && Dominated(s[1..], t[1..]) {
          forall k | 0 <= k < |s| ensures s[k] <= t[k] {
            if k > 0 { assert s[k] == s[1..][k - 1]; }
          }
        }
      }
      assert Dominated(t, s) <==> t[0] <= s[0] && Dominated(t[1..], s[1..]) by {
        if t[0] <= s[0] && Dominated(t[1..], s[1..]) {
          forall k | 0 <= k < |s| ensures t[k] <= s[k] {
            if k > 0 { assert t[k] == t[1..][k - 1]; }
          }
        }
      }
      assert s == t <==> s[0] == t[0] && s[1..] == t[1..] by {
        if s[0] == t[0] && s[1..] == t[1..] {
          assert s == [s[0]] + s[1..] && t == [t[0]] + t[1..];
        }
      }
      if s[0] > t[0] {
        if acc != Less { TryFoldBothMeaning(s[1..], t[1..], Greater); }
      } else if s[0] < t[0] {
        if acc != Greater { TryFoldBothMeaning(s[1..], t[1..], Less); }
      } else {
        TryFoldBothMeaning(s[1..], t[1..], acc);
      }
    }
  }

  /** The comparison `partial_cmp` evidently means: it also reports `Greater`
      when `b` is strictly dominated by `a`, and agrees with `partial_cmp`
      wherever that one answers. */
  function CausalCmp(a: VectorClock, b: VectorClock): (r: Option<Ordering>)
    ensures r == Some(Equal) <==> a.clk == b.clk
    ensures r == Some(Less) <==> Dominated(a.clk, b.clk) && a.clk != b.clk
    ensures r == Some(Greater) <==> Dominated(b.clk, a.clk) && a.clk != b.clk
    ensures PartialCmp(a, b) != None ==> r == PartialCmp(a, b)
  {
    if |a.clk| != |b.clk| then None
    else
      TryFoldBothMeaning(a.clk, b.clk, Equal);
      TryFoldBoth(a.clk, b.clk, Equal)
  }

  /** The restored comparison is its own mirror image, as Rust's `PartialOrd`
      requires: `a < b` exactly when `b > a`. */
  lemma CausalCmpDual(a: VectorClock, b: VectorClock)
    ensures CausalCmp(a, b) == Some(Less) <==> CausalCmp(b, a) == Some(Greater)
    ensures CausalCmp(a, b) == Some(Equal) <==> CausalCmp(b, a) == Some(Equal)
    ensures CausalCmp(a, b) == None <==> CausalCmp(b, a) == None
  {
    var r, q := CausalCmp(a, b), CausalCmp(b, a);
    assert r.Some? ==> r.value == Less || r.value == Equal || r.value == Greater;
    assert q.Some? ==> q.value == Less || q.value == Equal || q.value == Greater;
  }

  /** The corrected comparison reports `<` exactly when `partial_cmp` does, so
      every `Lt` fact of this model holds for it too. */
  lemma CausalCmpAgreesOnLess(a: VectorClock, b: VectorClock)
    ensures Lt(a, b) <==> CausalCmp(a, b) == Some(Less)
  {
  }

  /** Under the corrected comparison too, genesis clocks of two different
      processes of one cluster are incomparable. */
  lemma CausalCmpGenesisIncomparable(i: nat, j: nat, n: nat)
    requires i < n && j < n && i != j
    ensures CausalCmp(New(i, n), New(j, n)) == None
  {
    assert New(i, n).clk[i] > New(j, n).clk[i];
    assert New(j, n).clk[j] > New(i, n).clk[j];
    var r := CausalCmp(New(i, n), New(j, n));
    assert r.Some? ==> r.value == Less || r.value == Equal || r.value == Greater;
  }
}
