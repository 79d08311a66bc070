/**
 Reconciling AS_PATH with AS4_PATH (aspath_reconcile_as4 in bgpd/bgp_aspath.c,
 after section 4.2.3 of RFC 6793).
 */
module AsPathReconcile {
  import opened Lists
  import opened Sorting
  import opened AsPath
  import opened AsPathAggregate
  import opened AsPathWire

  /** aspath_count_hops */
  function CountHops(p: Path): nat {
    if p == [] then 0
    else (match p[0].kind
          case AsSequence => |p[0].asns|
          case AsSet => 1
          case _ => 0) + CountHops(p[1..])
  }

  /** aspath_count_confeds */
  function CountConfeds(p: Path): nat {
    if p == [] then 0
    else (match p[0].kind
          case ConfedSequence => |p[0].asns|
          case ConfedSet => 1
          case _ => 0) + CountConfeds(p[1..])
  }

  /** The segments that cover the first `hops` hops of a path. */
  function Leading(p: Path, hops: int): Path
    decreases p
  {
    if p == [] || hops <= 0 then []
    else
      match p[0].kind
      case AsSequence =>
        var n := if |p[0].asns| < hops then |p[0].asns| else hops;
        [Segment(AsSequence, p[0].asns[..n])] + Leading(p[1..], hops - |p[0].asns|)
      case ConfedSequence =>
        // never split: the whole segment is taken even if that is too many hops
        [p[0]] + Leading(p[1..], (if hops < |p[0].asns| then |p[0].asns| else hops) - |p[0].asns|)
      case _ => [p[0]] + Leading(p[1..], hops - 1)
  }

  function SurplusHops(p: Path, as4: Path): int {
    var hops := CountHops(p) + CountConfeds(p) - CountHops(as4);
    if hops < 0 then CountHops(p) else hops
  }

  /** aspath_reconcile_as4 */
  function Reconcile(p: Path, as4: Path): Path {
    var hops := SurplusHops(p, as4);
    if hops == 0 then as4 else Normalise(Leading(p, hops) + as4)
  }

  predicate NoConfed(p: Path) {
    p == [] || (!p[0].kind.IsConfed() && NoConfed(p[1..]))
  }

  // ----- Normalising and narrowing keep the hop count

  lemma LinkHops(g: Segment, p: Path)
    ensures CountHops(Link(g, p)) == CountHops([g]) + CountHops(p)
    ensures CountConfeds(Link(g, p)) == CountConfeds([g]) + CountConfeds(p)
  {
    if g.kind.AsSequence? && p != [] && p[0].kind.AsSequence? {
      assert Link(g, p)[1..] == p[1..];
    } else {
      assert Link(g, p)[1..] == p;
    }
  }

  lemma {:induction false} NormaliseHops(p: Path)
    ensures CountHops(Normalise(p)) == CountHops(p)
    ensures NoConfed(p) ==> CountConfeds(Normalise(p)) == 0
  {
    if p != [] {
      NormaliseHops(p[1..]);
      LinkHops(NormalSegment(p[0]), Normalise(p[1..]));
    }
  }

  lemma {:induction false} NarrowHops(p: Path, wide: bool)
    ensures CountHops(NarrowPath(p, wide)) == CountHops(p)
    ensures NoConfed(p) ==> NoConfed(NarrowPath(p, wide))
  {
    if p != [] {
      NarrowHops(p[1..], wide);
      assert NarrowPath(p, wide)[1..] == NarrowPath(p[1..], wide);
    }
  }

  // ----- What reconciliation gives

  /** A path that crossed OLD speakers unchanged is recovered. */
  lemma ReconcileUntouched(p: Path)
    requires NoConfed(p)
    ensures Reconcile(Normalise(NarrowPath(p, false)), p) == p
  {
    NarrowHops(p, false);
    NormaliseHops(NarrowPath(p, false));
  }

  lemma LeadingOfLinked(pre: seq<Asn>, p: Path)
    requires pre != []
    ensures Leading(Link(Segment(AsSequence, pre), p), |pre|) == [Segment(AsSequence, pre)]
  {
    var r := Link(Segment(AsSequence, pre), p);
    assert r[0].asns[..|pre|] == pre;
    assert Leading(r[1..], |pre| - |r[0].asns|) == [];
  }

  /** OLD speakers prepended `pre`: the reconciled path is `pre` followed by the 4-octet path. */
  lemma ReconcilePrepended(pre: seq<Asn>, p: Path)
    requires pre != [] && NoConfed(p)
    ensures Reconcile(Normalise([Segment(AsSequence, pre)] + NarrowPath(p, false)), p) ==
            Normalise([Segment(AsSequence, pre)] + p)
  {
    var g := Segment(AsSequence, pre);
    var narrow := NarrowPath(p, false);
    NormaliseFirst(g, narrow);
    var r := Link(g, Normalise(narrow));
    NarrowHops(p, false);
    NormaliseHops(narrow);
    LinkHops(g, Normalise(narrow));
    assert CountHops([g]) == |pre| && CountConfeds([g]) == 0;
    assert SurplusHops(r, p) == |pre|;
    LeadingOfLinked(pre, Normalise(narrow));
  }

  // ----- Confederations

  /** aspath_has_as4 */
  predicate HasAs4(p: Path) {
    exists a | a in Flat(p) :: a > AS_MAX
  }

  function DropConfed(p: Path): Path {
    if p != [] && p[0].kind.IsConfed() then DropConfed(p[1..]) else p
  }

  /** aspath_delete_confed_seq */
  function DeleteConfedSeq(p: Path): Path {
    if p != [] && p[0].kind.ConfedSequence? then DropConfed(p) else p
  }

  function LeadingConfed(p: Path): Path {
    if p != [] && p[0].kind.IsConfed() then [p[0]] + LeadingConfed(p[1..]) else []
  }

  /** The confederation segments that it takes away. */
  function ConfedLead(p: Path): Path {
    if p != [] && p[0].kind.ConfedSequence? then LeadingConfed(p) else []
  }

  predicate AllConfed(p: Path) {
    p == [] || (p[0].kind.IsConfed() && AllConfed(p[1..]))
  }

  lemma {:induction false} DropSplits(p: Path)
    ensures AllConfed(LeadingConfed(p)) && p == LeadingConfed(p) + DropConfed(p)
  {
    if p != [] && p[0].kind.IsConfed() {
      DropSplits(p[1..]);
      var l := LeadingConfed(p[1..]);
      assert ([p[0]] + l)[1..] == l;
      Assoc([p[0]], l, DropConfed(p[1..]));
      assert p == [p[0]] + p[1..];
    }
  }

  lemma LeadSplits(p: Path)
    ensures AllConfed(ConfedLead(p)) && p == ConfedLead(p) + DeleteConfedSeq(p)
  {
    DropSplits(p);
    assert [] + p == p;
  }

  lemma NothingDeleted(p: Path)
    requires NoConfed(p)
    ensures DeleteConfedSeq(p) == p && ConfedLead(p) == []
  {
  }

  lemma NormalConfed(g: Segment)
    requires g.kind.IsConfed()
    ensures var n := NormalSegment(g);
            && n.kind == g.kind && (g.asns != [] ==> n.asns != [])
            && CountConfeds([n]) == CountConfeds([g]) && CountHops([n]) == 0
  {
    if g.asns != [] {
      SortUniqStrict(g.asns);
      assert g.asns[0] in Elems(g.asns);
    }
  }

  /** Confederation segments are normalised one by one. */
  lemma {:induction false} NormaliseConfeds(l: Path, q: Path)
    requires AllConfed(l)
    ensures Normalise(l + q) == Normalise(l) + Normalise(q)
  {
    if l == [] {
      assert l + q == q && [] + Normalise(q) == Normalise(q);
    } else {
      NormaliseConfeds(l[1..], q);
      assert (l + q)[1..] == l[1..] + q;
      NormalConfed(l[0]);
      hide NormalSegment;
      Assoc([NormalSegment(l[0])], Normalise(l[1..]), Normalise(q));
    }
  }

  lemma {:induction false} CountConcat(l: Path, q: Path)
    ensures CountHops(l + q) == CountHops(l) + CountHops(q)
    ensures CountConfeds(l + q) == CountConfeds(l) + CountConfeds(q)
  {
    if l == [] {
      assert l + q == q;
    } else {
      CountConcat(l[1..], q);
      assert (l + q)[1..] == l[1..] + q;
    }
  }

  lemma {:induction false} NormalisedConfeds(l: Path)
    requires AllConfed(l)
    ensures AllConfed(Normalise(l)) && CountHops(Normalise(l)) == 0
    ensures CountConfeds(Normalise(l)) == CountConfeds(l)
    ensures NoEmptySegment(l) ==> NoEmptySegment(Normalise(l))
  {
    if l != [] {
      NormalisedConfeds(l[1..]);
      NormalConfed(l[0]);
      var g, n := NormalSegment(l[0]), Normalise(l[1..]);
      hide NormalSegment;
      LinkHops(g, n);
      assert ([g] + n)[1..] == n;
      CountConcat([l[0]], l[1..]);
      assert [l[0]] + l[1..] == l;
    }
  }

  lemma {:induction false} NarrowConfeds(l: Path, wide: bool)
    requires AllConfed(l)
    ensures AllConfed(NarrowPath(l, wide)) && CountConfeds(NarrowPath(l, wide)) == CountConfeds(l)
    ensures NoEmptySegment(l) ==> NoEmptySegment(NarrowPath(l, wide))
  {
    if l != [] {
      NarrowConfeds(l[1..], wide);
      assert NarrowPath(l, wide)[1..] == NarrowPath(l[1..], wide);
    }
  }

  lemma {:induction false} LeadingConfeds(l: Path, q: Path)
    requires AllConfed(l) && NoEmptySegment(l)
    ensures Leading(l + q, CountConfeds(l)) == l
  {
    if l != [] {
      LeadingConfeds(l[1..], q);
      assert (l + q)[1..] == l[1..] + q;
      assert l == [l[0]] + l[1..];
    }
  }

  lemma {:induction false} SomeConfeds(l: Path)
    requires AllConfed(l) && NoEmptySegment(l) && l != []
    ensures CountConfeds(l) > 0
  {
  }

  lemma {:induction false} SuffixNormal(l: Path, q: Path)
    requires IsNormal(l + q)
    ensures IsNormal(q)
    ensures AllConfed(l) ==> IsNormal(l)
    ensures NoEmptySegment(l + q) ==> NoEmptySegment(l) && NoEmptySegment(q)
  {
    if l == [] {
      assert l + q == q;
    } else {
      assert (l + q)[1..] == l[1..] + q;
      SuffixNormal(l[1..], q);
    }
  }

  lemma ReconcileLed(n: Path, m: Path, q: Path)
    requires AllConfed(n) && NoEmptySegment(n) && CountHops(n) == 0
    requires CountHops(m) == CountHops(q) && CountConfeds(m) == 0
    ensures Reconcile(n + m, q) == if n == [] then q else Normalise(n + q)
  {
    hide Normalise;
    hide AllConfed;
    hide NoEmptySegment;
    CountConcat(n, m);
    if n != [] {
      SomeConfeds(n);
      LeadingConfeds(n, m);
    }
  }

  /**
   A path inside a confederation that crossed OLD speakers unchanged: what is behind the confederation segments is
   recovered, and these are taken as they arrived.
   */
  lemma ReconcileConfeds(p: Path)
    requires IsNormal(p) && NoEmptySegment(p) && NoConfed(DeleteConfedSeq(p))
    ensures Reconcile(Normalise(NarrowPath(p, false)), DeleteConfedSeq(p)) ==
            Normalise(NarrowPath(ConfedLead(p), false)) + DeleteConfedSeq(p)
  {
    hide Normalise;
    hide Reconcile;
    hide IsNormal;
    hide NoEmptySegment;
    hide AllConfed;
    hide NoConfed;
    hide NarrowPath;
    hide ConfedLead;
    hide DeleteConfedSeq;
    var l, q := ConfedLead(p), DeleteConfedSeq(p);
    LeadSplits(p);
    SuffixNormal(l, q);
    var l', q' := NarrowPath(l, false), NarrowPath(q, false);
    NarrowPathConcat(l, q, false);
    NarrowConfeds(l, false);
    NormaliseConfeds(l', q');
    NormalisedConfeds(l');
    var n := Normalise(l');
    NarrowHops(q, false);
    NormaliseHops(q');
    ReconcileLed(n, Normalise(q'), q);
    NormaliseConfeds(n, q);
    NormaliseIdempotent(l');
    NormalFixed(q);
    assert [] + q == q;
  }

  lemma {:induction false} NarrowSmallAll(s: seq<Asn>)
    requires forall a | a in s :: a <= AS_MAX
    ensures NarrowAll(s, false) == s
  {
    if s != [] {
      assert s[0] in s && forall a | a in s[1..] :: a in s;
      NarrowSmallAll(s[1..]);
    }
  }

  lemma SmallParts(p: Path)
    requires p != [] && !HasAs4(p)
    ensures !HasAs4(p[1..]) && forall a | a in p[0].asns :: a <= AS_MAX
  {
    assert forall a | a in p[0].asns :: a in Flat(p);
    assert forall a | a in Flat(p[1..]) :: a in Flat(p);
  }

  lemma {:induction false} NarrowSmall(p: Path)
    requires !HasAs4(p)
    ensures NarrowPath(p, false) == p
  {
    if p != [] {
      SmallParts(p);
      hide HasAs4;
      NarrowSmallAll(p[0].asns);
      NarrowSmall(p[1..]);
    }
  }

  lemma NarrowAllBounded(s: seq<Asn>)
    ensures forall a | a in NarrowAll(s, false) :: a <= AS_MAX
  {
    forall k | 0 <= k < |s| ensures NarrowAll(s, false)[k] <= AS_MAX {
      NarrowAllAt(s, false, k);
    }
  }

  lemma {:induction false} NarrowBounded(p: Path)
    ensures !HasAs4(NarrowPath(p, false))
  {
    if p != [] {
      NarrowBounded(p[1..]);
      assert NarrowPath(p, false)[1..] == NarrowPath(p[1..], false);
      NarrowAllBounded(p[0].asns);
      assert Flat(NarrowPath(p, false)) == NarrowAll(p[0].asns, false) + Flat(NarrowPath(p[1..], false));
    }
  }

  lemma NormalBounded(p: Path)
    ensures HasAs4(Normalise(p)) <==> HasAs4(p)
  {
    NormaliseAsns(p);
    assert forall a :: a in Flat(p) <==> a in Asns(p);
    assert forall a :: a in Flat(Normalise(p)) <==> a in Asns(Normalise(p));
  }

  lemma SameFront(a: Path, b: Path, q: Path)
    ensures a + q == b + q ==> a == b
  {
    if a + q == b + q {
      assert a == (a + q)[..|a|] && b == (b + q)[..|b|];
    }
  }

  /** So the whole path is recovered exactly when no ASN of the confederation segments needs four octets. */
  lemma ReconcileConfedsIff(p: Path)
    requires IsNormal(p) && NoEmptySegment(p) && NoConfed(DeleteConfedSeq(p))
    ensures Normalise(NarrowPath(ConfedLead(p), false)) + DeleteConfedSeq(p) == p <==> !HasAs4(ConfedLead(p))
  {
    hide Normalise;
    var l, q := ConfedLead(p), DeleteConfedSeq(p);
    LeadSplits(p);
    SuffixNormal(l, q);
    var n := Normalise(NarrowPath(l, false));
    if HasAs4(l) {
      NarrowBounded(l);
      NormalBounded(NarrowPath(l, false));
      SameFront(n, l, q);
    } else {
      NarrowSmall(l);
      NormalFixed(l);
    }
  }

  /** A member AS that does not: it comes back as AS_TRANS. */
  lemma MemberAsIsLost()
    ensures var p := [Segment(ConfedSequence, [70000])];
            && IsNormal(p) && NoEmptySegment(p) && NoConfed(DeleteConfedSeq(p))
            && Reconcile(Normalise(NarrowPath(p, false)), DeleteConfedSeq(p)) == [Segment(ConfedSequence, [AS_TRANS])]
  {
    var p := [Segment(ConfedSequence, [70000])];
    assert DeleteConfedSeq(p) == [] && ConfedLead(p) == p;
    ReconcileConfeds(p);
    assert NarrowAll([70000], false) == [AS_TRANS];
    assert NarrowPath(p, false) == [Segment(ConfedSequence, [AS_TRANS])];
  }

  lemma {:induction false} LeadingAsns(p: Path, hops: int)
    ensures Asns(Leading(p, hops)) <= Asns(p)
    decreases p
  {
    if p != [] && hops > 0 {
      HeadAsns(p);
      var l := Leading(p, hops);
      HeadAsns(l);
      var left := match p[0].kind
                  case AsSequence => hops - |p[0].asns|
                  case ConfedSequence => (if hops < |p[0].asns| then |p[0].asns| else hops) - |p[0].asns|
                  case _ => hops - 1;
      LeadingAsns(p[1..], left);
      assert l[1..] == Leading(p[1..], left);
      assert Elems(l[0].asns) <= Elems(p[0].asns);
    }
  }

  /** For any two paths: the loop-detection information of AS4_PATH stays, and nothing is invented. */
  lemma ReconcileAsns(p: Path, as4: Path)
    ensures Asns(as4) <= Asns(Reconcile(p, as4)) <= Asns(p) + Asns(as4)
  {
    var l := Leading(p, SurplusHops(p, as4));
    LeadingAsns(p, SurplusHops(p, as4));
    CommonConcat(l, as4);
    NormaliseAsns(l + as4);
  }

  // ----- What reconciliation means, hop by hop

  /** How many hops a hop counts for; a confederation sequence counts for its length. */
  function Weight(h: Hop): nat {
    match h
    case Confed(list) => |list|
    case _ => 1
  }

  ghost function Weights(m: seq<Hop>): nat {
    if m == [] then 0 else Weight(m[0]) + Weights(m[1..])
  }

  /** The hops outside confederation segments. */
  ghost function Outside(m: seq<Hop>): nat {
    if m == [] then 0 else (if m[0].Step? || m[0].AnyOf? then 1 else 0) + Outside(m[1..])
  }

  /** How many hops it takes from the front to reach this weight. */
  ghost function Cover(m: seq<Hop>, weight: int): (k: nat)
    ensures k <= |m|
  {
    if m == [] || weight <= 0 then 0 else 1 + Cover(m[1..], weight - Weight(m[0]))
  }

  lemma {:induction false} WeightsConcat(m: seq<Hop>, n: seq<Hop>)
    ensures Weights(m + n) == Weights(m) + Weights(n) && Outside(m + n) == Outside(m) + Outside(n)
  {
    hide Weight;
    if m == [] {
      assert m + n == n;
    } else {
      WeightsConcat(m[1..], n);
      assert (m + n)[1..] == m[1..] + n;
    }
  }

  lemma {:induction false} StepsWeigh(s: seq<Asn>)
    ensures Weights(Steps(s)) == Outside(Steps(s)) == |Steps(s)| == |s|
  {
    if s != [] {
      StepsWeigh(s[1..]);
      assert Steps(s)[1..] == Steps(s[1..]);
    }
  }

  /** The hop counts of a path are those of its meaning. */
  lemma {:induction false} CountsMean(p: Path)
    ensures CountHops(p) == Outside(Meaning(p)) && CountHops(p) + CountConfeds(p) == Weights(Meaning(p))
  {
    if p != [] {
      CountsMean(p[1..]);
      WeightsConcat(Hops(p[0]), Meaning(p[1..]));
      StepsWeigh(p[0].asns);
    }
  }

  lemma {:induction false} CoverSteps(s: seq<Asn>, m: seq<Hop>, hops: int)
    requires hops > 0
    ensures Cover(Steps(s) + m, hops) == if hops < |s| then hops else |s| + Cover(m, hops - |s|)
    ensures hops <= |s| ==> (Steps(s) + m)[..hops] == Steps(s[..hops])
  {
    if s == [] {
      assert Steps(s) + m == m;
    } else {
      assert Steps(s) + m == [Step(s[0])] + (Steps(s[1..]) + m);
      if hops > 1 {
        CoverSteps(s[1..], m, hops - 1);
        if hops <= |s| {
          assert s[..hops][1..] == s[1..][..hops - 1];
        }
      } else {
        assert s[..1][1..] == [];
      }
    }
  }

  lemma LeadingSteps(s: seq<Asn>, m: seq<Hop>, hops: int)
    requires hops > 0
    ensures var n := if |s| < hops then |s| else hops;
            Steps(s[..n]) + m[..Cover(m, hops - |s|)] == (Steps(s) + m)[..Cover(Steps(s) + m, hops)]
  {
    CoverSteps(s, m, hops);
    StepsWeigh(s);
    assert s[..|s|] == s;
    if hops <= |s| {
      assert Cover(m, hops - |s|) == 0;
    }
    hide Steps;
    hide Cover;
  }

  lemma LeadingHop(h: Hop, m: seq<Hop>, hops: int, left: int)
    requires hops > 0 && left == if hops < Weight(h) then 0 else hops - Weight(h)
    ensures [h] + m[..Cover(m, left)] == ([h] + m)[..Cover([h] + m, hops)]
  {
    assert ([h] + m)[1..] == m;
    assert Cover(m, left) == Cover(m, hops - Weight(h));
  }

  lemma {:induction false} LeadingMeaning(p: Path, hops: int)
    ensures Meaning(Leading(p, hops)) == Meaning(p)[..Cover(Meaning(p), hops)]
    decreases p
  {
    if p != [] && hops > 0 {
      var g, rest := p[0], Meaning(p[1..]);
      var left := match g.kind
                  case AsSequence => hops - |g.asns|
                  case ConfedSequence => (if hops < |g.asns| then |g.asns| else hops) - |g.asns|
                  case _ => hops - 1;
      var l, more := Leading(p, hops), Leading(p[1..], left);
      LeadingMeaning(p[1..], left);
      assert l[1..] == more;
      hide Leading;
      hide Cover;
      if g.kind.AsSequence? {
        LeadingSteps(g.asns, rest, hops);
      } else {
        LeadingHop(Hops(g)[0], rest, hops, left);
      }
    }
  }

  /**
   For any two paths: the reconciled one consists of the hops that AS_PATH has in excess of AS4_PATH, and AS4_PATH
   behind them.  If AS_PATH is the shorter one, its length outside confederations is taken for the excess.
   */
  lemma ReconcileMeaning(p: Path, as4: Path)
    ensures var m, n := Meaning(p), Meaning(as4);
            var excess := Weights(m) - Outside(n);
            Meaning(Reconcile(p, as4)) == m[..Cover(m, if excess < 0 then Outside(m) else excess)] + n
  {
    hide Leading;
    hide Normalise;
    CountsMean(p);
    CountsMean(as4);
    var hops := SurplusHops(p, as4);
    LeadingMeaning(p, hops);
    MeaningConcat(Leading(p, hops), as4);
    NormaliseMeaning(Leading(p, hops) + as4);
    assert [] + Meaning(as4) == Meaning(as4);
  }

  // ----- The loop

  lemma LeadingTurn(p: Path, i: nat, hops: int)
    requires i < |p| && hops > 0
    ensures var n := |p[i].asns|;
            var n' := if p[i].kind.AsSequence? && hops < n then hops else n;
            var left := if p[i].kind.IsSet() then hops - 1
                        else if p[i].kind.ConfedSequence? && hops < n then 0
                        else hops - n;
            Leading(p[i..], hops) == [Segment(p[i].kind, p[i].asns[..n'])] + Leading(p[i + 1..], left)
  {
    assert p[i..][1..] == p[i + 1..];
    assert p[i].asns[..|p[i].asns|] == p[i].asns;
  }

  lemma LeadingEnds(p: Path, i: nat, hops: int)
    requires i <= |p| && (i == |p| || hops <= 0)
    ensures Leading(p[i..], hops) == []
  {
  }

  method Reconciled(p: Path, as4: Path) returns (r: Path)
    ensures r == Reconcile(p, as4)
  {
    hide Normalise;
    hide CountHops;
    hide CountConfeds;
    var hops := CountHops(p) + CountConfeds(p) - CountHops(as4);
    if hops < 0 {
      hops := CountHops(p);
    }
    if hops == 0 {
      return as4;
    }
    ghost var all := Leading(p, hops);
    var i, newpath := 0, [];
    assert p[0..] == p && [] + all == all;
    hide Leading;
    while i < |p| && hops > 0
      invariant 0 <= i <= |p|
      invariant newpath + Leading(p[i..], hops) == all
    {
      LeadingTurn(p, i, hops);
      var cpasns := |p[i].asns|;
      match p[i].kind {
        case AsSet => hops := hops - 1;
        case ConfedSet => hops := hops - 1;
        case ConfedSequence =>
          if hops < |p[i].asns| {
            hops := |p[i].asns|;
          }
          hops := hops - |p[i].asns|;
        case AsSequence =>
          if hops < |p[i].asns| {
            cpasns := hops;
          }
          hops := hops - |p[i].asns|;
      }
      Assoc(newpath, [Segment(p[i].kind, p[i].asns[..cpasns])], Leading(p[i + 1..], hops));
      newpath := newpath + [Segment(p[i].kind, p[i].asns[..cpasns])];
      i := i + 1;
    }
    LeadingEnds(p, i, hops);
    assert newpath + [] == newpath;
    r := NormaliseChain(newpath + as4);
  }
}
