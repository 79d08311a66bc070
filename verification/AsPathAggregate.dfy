/**
 Aggregation of two AS paths (aspath_aggregate in bgpd/bgp_aspath.c, after
 section 9.2.2.2 of RFC 4271): the common leading part, followed by one AS_SET
 of what is left of both.
 */
module AsPathAggregate {
  import opened Lists
  import opened Sorting
  import opened AsPath

  function CommonPrefix(s: seq<Asn>, t: seq<Asn>): (n: nat)
    ensures n <= |s| && n <= |t| && s[..n] == t[..n]
    ensures n < |s| && n < |t| ==> s[n] != t[n]
  {
    if s == [] || t == [] || s[0] != t[0] then 0
    else
      var n := CommonPrefix(s[1..], t[1..]);
      assert s[..n + 1] == [s[0]] + s[1..][..n] && t[..n + 1] == [t[0]] + t[1..][..n];
      n + 1
  }

  /** Where the walk over the leading parts stops: the part in common, the last match length, what is left. */
  datatype Lead = Lead(common: Path, matched: nat, left: Path, right: Path)

  function Walk(p: Path, q: Path, matched: nat): Lead {
    if p == [] || q == [] || p[0].kind != q[0].kind then Lead([], matched, p, q)
    else
      var n := CommonPrefix(p[0].asns, q[0].asns);
      var common := if n > 0 then [Segment(p[0].kind, p[0].asns[..n])] else [];
      if n != |p[0].asns| || |p[0].asns| != |q[0].asns| then Lead(common, n, p, q)
      else
        var r := Walk(p[1..], q[1..], n);
        r.(common := common + r.common)
  }

  function Flat(p: Path): seq<Asn> {
    if p == [] then [] else p[0].asns + Flat(p[1..])
  }

  /** The ASNs left of a path when the first `from` of its first segment are skipped. */
  function Left(p: Path, from: nat): seq<Asn> {
    if p == [] then []
    else (if from <= |p[0].asns| then p[0].asns[from..] else []) + Flat(p[1..])
  }

  /** aspath_aggregate_as_set_add, for a list of ASNs. */
  function Collect(asset: seq<Asn>, s: seq<Asn>): seq<Asn>
    decreases s
  {
    if s == [] then asset
    else Collect(if s[0] in asset then asset else asset + [s[0]], s[1..])
  }

  function WithSet(p: Path, asset: seq<Asn>): Path {
    if asset == [] then p else p + [Segment(AsSet, asset)]
  }

  /** aspath_aggregate */
  function Aggregate(p: Path, q: Path): Path {
    var w := Walk(p, q, 0);
    Normalise(WithSet(w.common, Collect([], Left(w.left, w.matched) + Left(w.right, w.matched))))
  }

  // ----- Symmetry

  lemma {:induction false} CommonPrefixSymmetric(s: seq<Asn>, t: seq<Asn>)
    ensures CommonPrefix(s, t) == CommonPrefix(t, s)
  {
    if s != [] && t != [] && s[0] == t[0] {
      CommonPrefixSymmetric(s[1..], t[1..]);
    }
  }

  lemma {:induction false} WalkSymmetric(p: Path, q: Path, m: nat)
    ensures var w, v := Walk(p, q, m), Walk(q, p, m);
            v == Lead(w.common, w.matched, w.right, w.left)
  {
    if p != [] && q != [] && p[0].kind == q[0].kind {
      CommonPrefixSymmetric(p[0].asns, q[0].asns);
      WalkSymmetric(p[1..], q[1..], CommonPrefix(p[0].asns, q[0].asns));
    }
  }

  lemma {:induction false} CollectElems(asset: seq<Asn>, s: seq<Asn>)
    ensures Elems(Collect(asset, s)) == Elems(asset) + Elems(s)
    ensures Collect(asset, s) == [] <==> asset == [] && s == []
    decreases s
  {
    if s != [] {
      var next := if s[0] in asset then asset else asset + [s[0]];
      CollectElems(next, s[1..]);
      assert Elems(s) == {s[0]} + Elems(s[1..]);
      assert Elems(next) == Elems(asset) + {s[0]};
    }
  }

  /** A last set segment matters only as a set. */
  lemma {:induction false} NormaliseLastSet(p: Path, s: seq<Asn>, t: seq<Asn>)
    requires Elems(s) == Elems(t)
    ensures Normalise(p + [Segment(AsSet, s)]) == Normalise(p + [Segment(AsSet, t)])
  {
    if p == [] {
      SortUniqDecides(s, t);
      assert [] + [Segment(AsSet, s)] == [Segment(AsSet, s)] && [] + [Segment(AsSet, t)] == [Segment(AsSet, t)];
    } else {
      NormaliseLastSet(p[1..], s, t);
      assert (p + [Segment(AsSet, s)])[1..] == p[1..] + [Segment(AsSet, s)];
      assert (p + [Segment(AsSet, t)])[1..] == p[1..] + [Segment(AsSet, t)];
    }
  }

  lemma ElemsConcat(s: seq<Asn>, t: seq<Asn>)
    ensures Elems(s + t) == Elems(s) + Elems(t)
  {
  }

  lemma AggregateCommutes(p: Path, q: Path)
    ensures Aggregate(p, q) == Aggregate(q, p)
  {
    WalkSymmetric(p, q, 0);
    var w := Walk(p, q, 0);
    var l, r := Left(w.left, w.matched), Left(w.right, w.matched);
    CollectElems([], l + r);
    CollectElems([], r + l);
    ElemsConcat(l, r);
    ElemsConcat(r, l);
    if l + r != [] {
      NormaliseLastSet(w.common, Collect([], l + r), Collect([], r + l));
    }
  }

  // ----- Aggregating a path with itself

  predicate NoEmptySegment(p: Path) {
    p == [] || (p[0].asns != [] && NoEmptySegment(p[1..]))
  }

  lemma {:induction false} CommonPrefixSelf(s: seq<Asn>)
    ensures CommonPrefix(s, s) == |s|
  {
    if s != [] {
      CommonPrefixSelf(s[1..]);
    }
  }

  lemma {:induction false} WalkSelf(p: Path, m: nat)
    requires NoEmptySegment(p)
    ensures var w := Walk(p, p, m); w.common == p && w.left == [] && w.right == []
  {
    if p != [] {
      CommonPrefixSelf(p[0].asns);
      assert p[0].asns[..|p[0].asns|] == p[0].asns;
      WalkSelf(p[1..], |p[0].asns|);
      assert [p[0]] + p[1..] == p;
    }
  }

  lemma AggregateIdempotent(p: Path)
    requires IsNormal(p) && NoEmptySegment(p)
    ensures Aggregate(p, p) == p
  {
    WalkSelf(p, 0);
    NormalFixed(p);
  }

  // ----- Which ASNs survive

  ghost function Asns(p: Path): set<nat> {
    Elems(Flat(p))
  }

  lemma {:induction false} FlatConcat(p: Path, q: Path)
    ensures Flat(p + q) == Flat(p) + Flat(q)
  {
    if p == [] {
      assert [] + q == q;
    } else {
      FlatConcat(p[1..], q);
      assert (p + q)[1..] == p[1..] + q;
      Assoc(p[0].asns, Flat(p[1..]), Flat(q));
    }
  }

  lemma LinkAsns(g: Segment, p: Path)
    ensures Asns(Link(g, p)) == Elems(g.asns) + Asns(p)
  {
    ElemsConcat(g.asns, Flat(p));
    if g.kind.AsSequence? && p != [] && p[0].kind.AsSequence? {
      assert Link(g, p)[1..] == p[1..];
      ElemsConcat(g.asns + p[0].asns, Flat(p[1..]));
      ElemsConcat(g.asns, p[0].asns);
      ElemsConcat(p[0].asns, Flat(p[1..]));
    } else {
      assert Link(g, p)[1..] == p;
    }
  }

  lemma {:induction false} NormaliseAsns(p: Path)
    ensures Asns(Normalise(p)) == Asns(p)
  {
    if p != [] {
      NormaliseAsns(p[1..]);
      LinkAsns(NormalSegment(p[0]), Normalise(p[1..]));
      SortUniqStrict(p[0].asns);
      ElemsConcat(p[0].asns, Flat(p[1..]));
    }
  }

  lemma NothingElems()
    ensures Elems([]) == {}
  {
  }

  lemma WithSetAsns(p: Path, asset: seq<Asn>)
    ensures Asns(WithSet(p, asset)) == Asns(p) + Elems(asset)
  {
    if asset == [] {
      NothingElems();
    } else {
      FlatConcat(p, [Segment(AsSet, asset)]);
      assert Flat([Segment(AsSet, asset)]) == asset;
      ElemsConcat(Flat(p), asset);
    }
  }

  /** The aggregate has exactly the ASNs of the common part and of what was collected. */
  lemma AggregateAsns(p: Path, q: Path)
    ensures var w := Walk(p, q, 0);
            Asns(Aggregate(p, q)) ==
            Asns(w.common) + Elems(Left(w.left, w.matched)) + Elems(Left(w.right, w.matched))
  {
    hide Normalise;
    hide Collect;
    hide Walk;
    hide Left;
    hide Flat;
    hide Elems;
    var w := Walk(p, q, 0);
    var l, r := Left(w.left, w.matched), Left(w.right, w.matched);
    var set1 := Collect([], l + r);
    CollectElems([], l + r);
    ElemsConcat(l, r);
    NormaliseAsns(WithSet(w.common, set1));
    WithSetAsns(w.common, set1);
    NothingElems();
  }

  /** The ASNs that `Left` skips. */
  function Skipped(p: Path, from: nat): seq<Asn> {
    if p == [] then [] else p[0].asns[..if from <= |p[0].asns| then from else |p[0].asns|]
  }

  lemma LeftAndSkipped(p: Path, from: nat)
    ensures Asns(p) == Elems(Left(p, from)) + Elems(Skipped(p, from))
  {
    if p != [] {
      var k := if from <= |p[0].asns| then from else |p[0].asns|;
      assert p[0].asns == p[0].asns[..k] + p[0].asns[k..];
      ElemsConcat(p[0].asns[..k], p[0].asns[k..]);
      ElemsConcat(p[0].asns, Flat(p[1..]));
      ElemsConcat(p[0].asns[k..], Flat(p[1..]));
    }
  }

  /**
   The walk stopped on a change of segment type, or because one path ran out,
   with the match length of the pair before still set.
   */
  predicate Stale(w: Lead) {
    w.matched > 0 && (w.left == [] || w.right == [] || w.left[0].kind != w.right[0].kind)
  }

  lemma CommonConcat(g: Path, p: Path)
    ensures Asns(g + p) == Asns(g) + Asns(p)
  {
    FlatConcat(g, p);
    ElemsConcat(Flat(g), Flat(p));
  }

  lemma OneSegment(g: Segment)
    ensures Asns([g]) == Elems(g.asns)
  {
    assert Flat([g]) == g.asns;
  }

  lemma HeadAsns(p: Path)
    requires p != []
    ensures Asns(p) == Elems(p[0].asns) + Asns(p[1..])
  {
    ElemsConcat(p[0].asns, Flat(p[1..]));
  }

  lemma {:induction false} WalkAsns(p: Path, q: Path, m: nat)
    ensures var w := Walk(p, q, m);
            && Asns(p) == Asns(w.common) + Asns(w.left)
            && Asns(q) == Asns(w.common) + Asns(w.right)
    ensures var w := Walk(p, q, m);
            !Stale(w) ==>
              (&& Elems(Skipped(w.left, w.matched)) <= Asns(w.common)
               && Elems(Skipped(w.right, w.matched)) <= Asns(w.common))
  {
    if p != [] && q != [] && p[0].kind == q[0].kind {
      var n := CommonPrefix(p[0].asns, q[0].asns);
      var common := if n > 0 then [Segment(p[0].kind, p[0].asns[..n])] else [];
      assert Asns(common) == Elems(p[0].asns[..n]) by {
        if n > 0 { OneSegment(common[0]); }
      }
      assert p[0].asns[..n] == q[0].asns[..n];
      HeadAsns(p);
      HeadAsns(q);
      hide Asns;
      if n == |p[0].asns| && |p[0].asns| == |q[0].asns| {
        assert p[0].asns[..n] == p[0].asns && q[0].asns[..n] == q[0].asns;
        WalkAsns(p[1..], q[1..], n);
        CommonConcat(common, Walk(p[1..], q[1..], n).common);
      } else {
        assert Elems(p[0].asns[..n]) <= Elems(p[0].asns) && Elems(q[0].asns[..n]) <= Elems(q[0].asns);
      }
    }
  }

  /** Aggregation never invents an ASN. */
  lemma AggregateInventsNothing(p: Path, q: Path)
    ensures Asns(Aggregate(p, q)) <= Asns(p) + Asns(q)
  {
    AggregateAsns(p, q);
    WalkAsns(p, q, 0);
    var w := Walk(p, q, 0);
    LeftAndSkipped(w.left, w.matched);
    LeftAndSkipped(w.right, w.matched);
  }

  /**
   Every ASN of both paths survives exactly when the walk does not stop stale,
   or the ASNs skipped on account of the stale length also occur elsewhere.
   */
  lemma AggregateKeepsAll(p: Path, q: Path)
    ensures var w := Walk(p, q, 0);
            Asns(Aggregate(p, q)) == Asns(p) + Asns(q) <==>
            (Stale(w) ==>
               Elems(Skipped(w.left, w.matched)) + Elems(Skipped(w.right, w.matched)) <=
               Asns(w.common) + Elems(Left(w.left, w.matched)) + Elems(Left(w.right, w.matched)))
  {
    AggregateAsns(p, q);
    WalkAsns(p, q, 0);
    var w := Walk(p, q, 0);
    LeftAndSkipped(w.left, w.matched);
    LeftAndSkipped(w.right, w.matched);
    hide Asns;
    hide Left;
    hide Skipped;
    hide Elems;
    hide Aggregate;
    hide Walk;
  }

  /** A set behind a common sequence is lost when the other path ends there. */
  lemma AggregateLosesASet()
    ensures var p, q := [Segment(AsSequence, [1]), Segment(AsSet, [2])], [Segment(AsSequence, [1])];
            Aggregate(p, q) == [Segment(AsSequence, [1])] && 2 in Asns(p)
  {
    var p, q := [Segment(AsSequence, [1]), Segment(AsSet, [2])], [Segment(AsSequence, [1])];
    assert CommonPrefix([1], [1]) == 1 + CommonPrefix([], []);
    assert p[1..] == [Segment(AsSet, [2])] && q[1..] == [];
    var v := Walk(p[1..], q[1..], 1);
    assert v == Lead([], 1, p[1..], []);
    var w := Walk(p, q, 0);
    assert [1][..1] == [1];
    assert w == Lead([Segment(AsSequence, [1])], 1, p[1..], []);
    assert Left(w.left, 1) == [] && Left(w.right, 1) == [];
    assert Flat(p) == [1] + Flat(p[1..]) && Flat(p[1..]) == [2];
  }

  // ----- What the aggregate means

  /** How many leading segments two paths have in common. */
  function Agreed(p: Path, q: Path): (n: nat)
    ensures n <= |p| && n <= |q| && p[..n] == q[..n]
    ensures n < |p| && n < |q| ==> p[n] != q[n]
  {
    if p == [] || q == [] || p[0] != q[0] then 0
    else
      var n := Agreed(p[1..], q[1..]);
      assert p[..n + 1] == [p[0]] + p[1..][..n] && q[..n + 1] == [q[0]] + q[1..][..n];
      n + 1
  }

  function NonEmpty(p: Path): Path {
    if p == [] then [] else (if p[0].asns == [] then [] else [p[0]]) + NonEmpty(p[1..])
  }

  /** Behind the common segments, both paths go on with a segment of the same type. */
  predicate Alike(p: Path, q: Path, i: nat) {
    i < |p| && i < |q| && p[i].kind == q[i].kind
  }

  /** How many ASNs are skipped behind the common segments; unless they go on alike, the length before is still set. */
  function Skip(p: Path, q: Path, i: nat, matched: nat): nat
    requires i <= |p|
  {
    if Alike(p, q, i) then CommonPrefix(p[i].asns, q[i].asns) else if i > 0 then |p[i - 1].asns| else matched
  }

  /** What the two segments that differ have in common. */
  function Part(p: Path, q: Path, i: nat): Path {
    if Alike(p, q, i) && CommonPrefix(p[i].asns, q[i].asns) > 0
    then [Segment(p[i].kind, p[i].asns[..CommonPrefix(p[i].asns, q[i].asns)])] else []
  }

  lemma AgreedWhole(g: Segment, h: Segment)
    requires g.kind == h.kind
    ensures g == h <==> CommonPrefix(g.asns, h.asns) == |g.asns| == |h.asns|
  {
    CommonPrefixSelf(g.asns);
    if CommonPrefix(g.asns, h.asns) == |g.asns| == |h.asns| {
      assert g.asns[..|g.asns|] == g.asns && h.asns[..|h.asns|] == h.asns;
    }
  }

  lemma PartNext(p: Path, q: Path, j: nat, m: nat)
    requires p != [] && q != [] && j <= |p[1..]|
    ensures Part(p, q, j + 1) == Part(p[1..], q[1..], j)
    ensures Skip(p, q, j + 1, m) == Skip(p[1..], q[1..], j, |p[0].asns|)
  {
  }

  lemma NonEmptyNext(p: Path, j: nat)
    requires p != [] && j <= |p[1..]|
    ensures NonEmpty(p[..j + 1]) == (if p[0].asns == [] then [] else [p[0]]) + NonEmpty(p[1..][..j])
  {
    assert p[..j + 1][0] == p[0] && p[..j + 1][1..] == p[1..][..j];
  }

  lemma {:induction false} WalkIs(p: Path, q: Path, m: nat)
    ensures var i := Agreed(p, q);
            Walk(p, q, m) == Lead(NonEmpty(p[..i]) + Part(p, q, i), Skip(p, q, i, m), p[i..], q[i..])
  {
    var i := Agreed(p, q);
    if p != [] && q != [] && p[0].kind == q[0].kind {
      AgreedWhole(p[0], q[0]);
      if p[0] == q[0] {
        hide Part;
        hide Skip;
        hide NonEmpty;
        hide CommonPrefix;
        var n, j := |p[0].asns|, Agreed(p[1..], q[1..]);
        WalkIs(p[1..], q[1..], n);
        PartNext(p, q, j, m);
        NonEmptyNext(p, j);
        assert p[0].asns[..n] == p[0].asns;
        var common := if n > 0 then [p[0]] else [];
        Assoc(common, NonEmpty(p[1..][..j]), Part(p[1..], q[1..], j));
        assert p[1..][j..] == p[i..] && q[1..][j..] == q[i..];
      } else {
        assert p[..0] == [] && [] + Part(p, q, 0) == Part(p, q, 0);
      }
    } else {
      assert p[..0] == [];
    }
  }

  /** All ASNs in the segments of a path. */
  ghost function Members(p: Path): set<nat> {
    set g, a | g in p && a in g.asns :: a
  }

  lemma {:induction false} MembersAre(p: Path)
    ensures Asns(p) == Members(p)
  {
    if p != [] {
      MembersAre(p[1..]);
      HeadAsns(p);
      assert forall g :: g in p <==> g == p[0] || g in p[1..];
    } else {
      NothingElems();
    }
  }

  /** The ASNs of a path from segment `i` on, without the first `n` of that segment. */
  ghost function Beyond(p: Path, i: nat, n: nat): set<nat> {
    if i >= |p| then {}
    else Elems(if n <= |p[i].asns| then p[i].asns[n..] else []) + Members(p[i + 1..])
  }

  lemma LeftIs(p: Path, i: nat, n: nat)
    requires i <= |p|
    ensures Elems(Left(p[i..], n)) == Beyond(p, i, n)
  {
    if i < |p| {
      assert p[i..][1..] == p[i + 1..];
      MembersAre(p[i + 1..]);
      ElemsConcat(if n <= |p[i].asns| then p[i].asns[n..] else [], Flat(p[i + 1..]));
    } else {
      NothingElems();
    }
  }

  ghost function Choice(rest: set<nat>): seq<Hop> {
    if rest == {} then [] else [AnyOf(rest)]
  }

  lemma WithSetMeaning(p: Path, asset: seq<Asn>)
    ensures Meaning(WithSet(p, asset)) == Meaning(p) + Choice(Elems(asset))
  {
    NothingElems();
    if asset != [] {
      var g := Segment(AsSet, asset);
      MeaningConcat(p, [g]);
      assert Meaning([g]) == Hops(g) + Meaning([g][1..]) == [AnyOf(Elems(asset))];
      assert asset[0] in Elems(asset);
    } else {
      assert Meaning(p) + [] == Meaning(p);
    }
  }

  /**
   The aggregate of any two paths: the segments they start with in common, then what the next two segments have in
   common if they are of the same type, and at the end a single set of all that is not skipped behind.
   */
  lemma AggregateMeaning(p: Path, q: Path)
    ensures var i := Agreed(p, q);
            var n := Skip(p, q, i, 0);
            Meaning(Aggregate(p, q)) ==
            Meaning(NonEmpty(p[..i])) + Meaning(Part(p, q, i)) + Choice(Beyond(p, i, n) + Beyond(q, i, n))
  {
    hide Normalise;
    hide Collect;
    hide Walk;
    hide Left;
    hide Meaning;
    hide NonEmpty;
    hide Part;
    hide Skip;
    hide Beyond;
    hide Choice;
    hide WithSet;
    var i := Agreed(p, q);
    var n := Skip(p, q, i, 0);
    WalkIs(p, q, 0);
    var l, r := Left(p[i..], n), Left(q[i..], n);
    var asset := Collect([], l + r);
    LeftIs(p, i, n);
    LeftIs(q, i, n);
    CollectElems([], l + r);
    ElemsConcat(l, r);
    NothingElems();
    assert Elems(asset) == Beyond(p, i, n) + Beyond(q, i, n);
    var common := NonEmpty(p[..i]) + Part(p, q, i);
    MeaningConcat(NonEmpty(p[..i]), Part(p, q, i));
    WithSetMeaning(common, asset);
    NormaliseMeaning(WithSet(common, asset));
  }

  lemma {:induction false} NonEmptyAll(p: Path)
    requires NoEmptySegment(p)
    ensures NonEmpty(p) == p
  {
    if p != [] {
      NonEmptyAll(p[1..]);
      assert [p[0]] + p[1..] == p;
    }
  }

  lemma {:induction false} NoEmptyPrefix(p: Path, i: nat)
    requires NoEmptySegment(p) && i <= |p|
    ensures NoEmptySegment(p[..i])
  {
    if i > 0 {
      NoEmptyPrefix(p[1..], i - 1);
      assert p[..i][1..] == p[1..][..i - 1];
    }
  }

  lemma StepsPrefix(s: seq<Asn>, n: nat)
    requires n <= |s|
    ensures Steps(s[..n]) <= Steps(s)
  {
    assert s == s[..n] + s[n..];
    StepsConcat(s[..n], s[n..]);
  }

  lemma PartStarts(p: Path, q: Path, i: nat)
    requires i <= |p| && (Alike(p, q, i) ==> p[i].kind.AsSequence?)
    ensures Meaning(Part(p, q, i)) <= Meaning(p[i..])
  {
    if Part(p, q, i) != [] {
      var s, n := p[i].asns, CommonPrefix(p[i].asns, q[i].asns);
      StepsPrefix(s, n);
      var g := Part(p, q, i)[0];
      assert Meaning([g]) == Hops(g) + Meaning([g][1..]) == Steps(s[..n]);
      assert Meaning(p[i..]) == Steps(s) + Meaning(p[i..][1..]);
    }
  }

  lemma CommonStartsOne(p: Path, q: Path)
    requires NoEmptySegment(p) && (Alike(p, q, Agreed(p, q)) ==> p[Agreed(p, q)].kind.AsSequence?)
    ensures var i := Agreed(p, q); Meaning(NonEmpty(p[..i])) + Meaning(Part(p, q, i)) <= Meaning(p)
  {
    hide Meaning;
    hide NonEmpty;
    hide Part;
    var i := Agreed(p, q);
    NoEmptyPrefix(p, i);
    NonEmptyAll(p[..i]);
    assert p == p[..i] + p[i..];
    MeaningConcat(p[..i], p[i..]);
    PartStarts(p, q, i);
  }

  lemma {:induction false} AgreedSymmetric(p: Path, q: Path)
    ensures Agreed(p, q) == Agreed(q, p)
    ensures Part(p, q, Agreed(p, q)) == Part(q, p, Agreed(p, q))
  {
    var i, j := Agreed(p, q), Agreed(q, p);
    assert !(i < j) && !(j < i);
    if Alike(p, q, i) {
      CommonPrefixSymmetric(p[i].asns, q[i].asns);
    }
  }

  /** Unless it ends within a set or a confederation segment, the common part of the aggregate starts both paths. */
  lemma CommonStarts(p: Path, q: Path)
    requires NoEmptySegment(p) && NoEmptySegment(q)
    requires Alike(p, q, Agreed(p, q)) ==> p[Agreed(p, q)].kind.AsSequence?
    ensures var i := Agreed(p, q);
            var common := Meaning(NonEmpty(p[..i])) + Meaning(Part(p, q, i));
            common <= Meaning(p) && common <= Meaning(q)
  {
    AgreedSymmetric(p, q);
    CommonStartsOne(p, q);
    CommonStartsOne(q, p);
  }

  lemma NothingMeans()
    ensures Meaning([]) == [] && NonEmpty([]) == [] && Steps([]) == []
  {
  }

  lemma LedMeaning(s: seq<Asn>, p: Path, n: nat)
    requires n <= |s|
    ensures Meaning([Segment(AsSequence, s)]) == Steps(s)
    ensures Steps(s[..n]) <= Meaning([Segment(AsSequence, s)] + p)
  {
    var g := Segment(AsSequence, s);
    assert [g][1..] == [] && ([g] + p)[1..] == p;
    StepsPrefix(s, n);
    assert Steps(s) + [] == Steps(s);
  }

  lemma DifferBeyond(s: seq<Asn>, t: seq<Asn>)
    requires s != t
    ensures var n := CommonPrefix(s, t); Elems(s[n..]) + Elems(t[n..]) != {}
  {
    var n := CommonPrefix(s, t);
    if n < |s| {
      assert s[n..][0] in Elems(s[n..]);
    } else {
      assert s == s[..n] == t[..n];
      assert t[n..][0] in Elems(t[n..]);
    }
  }

  lemma LedParts(s: seq<Asn>, t: seq<Asn>, p: Path, q: Path)
    requires s != t
    ensures var a, b := [Segment(AsSequence, s)] + p, [Segment(AsSequence, t)] + q;
            var n := CommonPrefix(s, t);
            && Agreed(a, b) == 0 && Skip(a, b, 0, 0) == n
            && Part(a, b, 0) == (if n > 0 then [Segment(AsSequence, s[..n])] else [])
            && Beyond(a, 0, n) == Elems(s[n..]) + Members(p) && Beyond(b, 0, n) == Elems(t[n..]) + Members(q)
  {
    hide Members;
    var a, b := [Segment(AsSequence, s)] + p, [Segment(AsSequence, t)] + q;
    assert a[1..] == p && b[1..] == q;
  }

  /**
   Paths that lead with different sequences: their aggregate is the longest common start of both, hop by hop, and
   then one set of all ASNs that come behind it in either.
   */
  lemma SequencesAggregate(s: seq<Asn>, t: seq<Asn>, p: Path, q: Path)
    requires s != t
    ensures var a, b := [Segment(AsSequence, s)] + p, [Segment(AsSequence, t)] + q;
            var n := CommonPrefix(s, t);
            && Meaning(Aggregate(a, b)) ==
               Steps(s[..n]) + [AnyOf(Elems(s[n..]) + Elems(t[n..]) + Members(p) + Members(q))]
            && Steps(s[..n]) <= Meaning(a) && Steps(s[..n]) <= Meaning(b)
  {
    hide Aggregate;
    hide Meaning;
    hide Members;
    hide Elems;
    hide Beyond;
    hide Part;
    hide Skip;
    hide Agreed;
    var a, b := [Segment(AsSequence, s)] + p, [Segment(AsSequence, t)] + q;
    var n := CommonPrefix(s, t);
    AggregateMeaning(a, b);
    LedParts(s, t, p, q);
    DifferBeyond(s, t);
    LedMeaning(s, p, n);
    LedMeaning(t, q, n);
    LedMeaning(s[..n], p, n);
    NothingMeans();
    assert a[..0] == [] && [] + Steps(s[..n]) == Steps(s[..n]);
    var rest := Elems(s[n..]) + Elems(t[n..]) + Members(p) + Members(q);
    assert Beyond(a, 0, n) + Beyond(b, 0, n) == rest;
  }

  // ----- The loops

  method MatchLength(s: seq<Asn>, t: seq<Asn>) returns (n: nat)
    ensures n == CommonPrefix(s, t)
  {
    n := 0;
    assert s[0..] == s && t[0..] == t;
    while n < |s| && n < |t| && s[n] == t[n]
      invariant n <= |s| && n <= |t|
      invariant CommonPrefix(s, t) == n + CommonPrefix(s[n..], t[n..])
    {
      assert s[n..][1..] == s[n + 1..] && t[n..][1..] == t[n + 1..];
      n := n + 1;
    }
  }

  /** aspath_aggregate_as_set_add for the ASNs of one segment, from an index on. */
  method CollectSegment(asset: seq<Asn>, s: seq<Asn>, from: nat) returns (r: seq<Asn>)
    ensures r == Collect(asset, if from <= |s| then s[from..] else [])
  {
    r := asset;
    if from > |s| {
      return;
    }
    var j: nat := from;
    while j < |s|
      invariant from <= j <= |s|
      invariant Collect(asset, s[from..]) == Collect(r, s[j..])
    {
      assert s[j..][1..] == s[j + 1..];
      if s[j] !in r {
        r := r + [s[j]];
      }
      j := j + 1;
    }
  }

  lemma {:induction false} CollectConcat(asset: seq<Asn>, s: seq<Asn>, t: seq<Asn>)
    ensures Collect(asset, s + t) == Collect(Collect(asset, s), t)
    decreases s
  {
    if s == [] {
      assert s + t == t;
    } else {
      CollectConcat(if s[0] in asset then asset else asset + [s[0]], s[1..], t);
      assert (s + t)[1..] == s[1..] + t;
    }
  }

  lemma CollectTurn(asset: seq<Asn>, p: Path, k: nat, from: nat)
    requires k < |p|
    ensures Collect(asset, Left(p[k..], from)) ==
            Collect(Collect(asset, if from <= |p[k].asns| then p[k].asns[from..] else []), Left(p[k + 1..], 0))
  {
    var mine := if from <= |p[k].asns| then p[k].asns[from..] else [];
    assert p[k..][1..] == p[k + 1..];
    CollectConcat(asset, mine, Flat(p[k + 1..]));
    assert Left(p[k + 1..], 0) == Flat(p[k + 1..]);
  }

  lemma CollectEnd(asset: seq<Asn>, p: Path, from: nat)
    ensures Collect(asset, Left(p[|p|..], from)) == asset
  {
  }

  method CollectRest(asset: seq<Asn>, p: Path, i: nat, from: nat) returns (r: seq<Asn>)
    requires i <= |p|
    ensures r == Collect(asset, Left(p[i..], from))
  {
    hide Collect;
    hide Left;
    r := asset;
    var k: nat, skip: nat := i, from;
    while k < |p|
      invariant i <= k <= |p|
      invariant Collect(asset, Left(p[i..], from)) == Collect(r, Left(p[k..], skip))
    {
      CollectTurn(r, p, k, skip);
      r := CollectSegment(r, p[k].asns, skip);
      k, skip := k + 1, 0;
    }
    CollectEnd(r, p, skip);
  }

  /** The second half of aspath_aggregate: collect the rest and normalise. */
  method Finished(common: Path, p: Path, q: Path, i: nat, matched: nat) returns (r: Path)
    requires i <= |p| && i <= |q|
    ensures r == Normalise(WithSet(common, Collect([], Left(p[i..], matched) + Left(q[i..], matched))))
  {
    var asset := CollectRest([], p, i, matched);
    asset := CollectRest(asset, q, i, matched);
    CollectConcat([], Left(p[i..], matched), Left(q[i..], matched));
    r := common;
    if asset != [] {
      r := r + [Segment(AsSet, asset)];
    }
    r := NormaliseChain(r);
  }

  lemma WalkTurn(before: Path, p: Path, q: Path, i: nat, m: nat)
    requires i < |p| && i < |q| && p[i].kind == q[i].kind
    ensures var n := CommonPrefix(p[i].asns, q[i].asns);
            var common := before + if n > 0 then [Segment(p[i].kind, p[i].asns[..n])] else [];
            var w := Walk(p[i..], q[i..], m);
            w.(common := before + w.common) ==
            if n != |p[i].asns| || |p[i].asns| != |q[i].asns| then Lead(common, n, p[i..], q[i..])
            else var v := Walk(p[i + 1..], q[i + 1..], n); v.(common := common + v.common)
  {
    assert p[i..][1..] == p[i + 1..] && q[i..][1..] == q[i + 1..];
    var n := CommonPrefix(p[i].asns, q[i].asns);
    var v := Walk(p[i + 1..], q[i + 1..], n);
    Assoc(before, if n > 0 then [Segment(p[i].kind, p[i].asns[..n])] else [], v.common);
  }

  /** The first half of aspath_aggregate: the common leading part. */
  method Aggregated(p: Path, q: Path) returns (r: Path)
    ensures r == Aggregate(p, q)
  {
    hide Normalise;
    hide Collect;
    hide Left;
    hide CommonPrefix;
    var i: nat, matched: nat, common: Path := 0, 0, [];
    ghost var whole := Walk(p, q, 0);
    assert p[0..] == p && q[0..] == q && [] + whole.common == whole.common;
    while i < |p| && i < |q| && p[i].kind == q[i].kind
      invariant 0 <= i <= |p| && i <= |q|
      invariant var w := Walk(p[i..], q[i..], matched); whole == w.(common := common + w.common)
    {
      WalkTurn(common, p, q, i, matched);
      matched := MatchLength(p[i].asns, q[i].asns);
      if matched > 0 {
        common := common + [Segment(p[i].kind, p[i].asns[..matched])];
      } else {
        assert common + [] == common;
      }
      if matched != |p[i].asns| || |p[i].asns| != |q[i].asns| {
        r := Finished(common, p, q, i, matched);
        return;
      }
      i := i + 1;
    }
    assert common + [] == common;
    r := Finished(common, p, q, i, matched);
  }
}
