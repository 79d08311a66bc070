/**
 AS paths (bgpd/bgp_aspath.c): segments, their meaning and their normal form.
 */
module AsPath {
  import opened Lists
  import opened Sorting

  type Asn = n: nat | n < 0x1_0000_0000

  const SEGMENT_MAX := 255
  const AS_MAX := 65535
  const AS_TRANS: Asn := 23456

  datatype SegType = AsSet | AsSequence | ConfedSequence | ConfedSet {
    predicate IsSet() { AsSet? || ConfedSet? }
    predicate IsConfed() { ConfedSequence? || ConfedSet? }
  }

  datatype Segment = Segment(kind: SegType, asns: seq<Asn>)

  type Path = seq<Segment>

  // ----- Normal form

  function SortedSet(s: seq<Asn>): (r: seq<Asn>) {
    SortUniqStrict(s);
    var r := SortUniq(s);
    assert forall i | 0 <= i < |r| :: r[i] in Elems(r) && r[i] in Elems(s);
    r
  }

  function NormalSegment(g: Segment): Segment {
    if g.kind.IsSet() then g.(asns := SortedSet(g.asns)) else g
  }

  /** Put a segment in front of a chain, merging it with a following AS_SEQUENCE. */
  function Link(g: Segment, p: Path): Path {
    if g.kind.AsSequence? && p != [] && p[0].kind.AsSequence?
    then [Segment(AsSequence, g.asns + p[0].asns)] + p[1..]
    else [g] + p
  }

  /** assegment_normalise, as a function of the chain. */
  function Normalise(p: Path): Path {
    if p == [] then [] else Link(NormalSegment(p[0]), Normalise(p[1..]))
  }

  /** Sets are sorted without repetition, and no two AS_SEQUENCEs are adjacent. */
  predicate IsNormal(p: Path) {
    p == [] ||
    (&& (p[0].kind.IsSet() ==> Strict(p[0].asns))
     && (p[0].kind.AsSequence? && |p| > 1 ==> !p[1].kind.AsSequence?)
     && IsNormal(p[1..]))
  }

  predicate NoEmptySequence(p: Path) {
    p == [] || ((p[0].kind.AsSequence? ==> p[0].asns != []) && NoEmptySequence(p[1..]))
  }

  // ----- Meaning

  /** One hop of a path: sequences are hop by hop, sets are sets. */
  datatype Hop = Step(asn: Asn) | AnyOf(choice: set<nat>) | Confed(list: seq<Asn>) | ConfedAnyOf(choice: set<nat>)

  ghost function Steps(s: seq<Asn>): seq<Hop> {
    if s == [] then [] else [Step(s[0])] + Steps(s[1..])
  }

  ghost function Hops(g: Segment): seq<Hop> {
    match g.kind
    case AsSequence => Steps(g.asns)
    case AsSet => [AnyOf(Elems(g.asns))]
    case ConfedSequence => [Confed(g.asns)]
    case ConfedSet => [ConfedAnyOf(Elems(g.asns))]
  }

  ghost function Meaning(p: Path): seq<Hop> {
    if p == [] then [] else Hops(p[0]) + Meaning(p[1..])
  }

  lemma {:induction false} StepsConcat(s: seq<Asn>, t: seq<Asn>)
    ensures Steps(s + t) == Steps(s) + Steps(t)
  {
    if s == [] {
      assert s + t == t;
    } else {
      StepsConcat(s[1..], t);
      assert (s + t)[1..] == s[1..] + t;
      Assoc([Step(s[0])], Steps(s[1..]), Steps(t));
    }
  }

  lemma {:induction false} MeaningConcat(p: Path, q: Path)
    ensures Meaning(p + q) == Meaning(p) + Meaning(q)
  {
    hide Hops;
    if p == [] {
      assert p + q == q;
    } else {
      MeaningConcat(p[1..], q);
      assert (p + q)[1..] == p[1..] + q;
      Assoc(Hops(p[0]), Meaning(p[1..]), Meaning(q));
    }
  }

  lemma LinkMeaning(g: Segment, p: Path)
    ensures Meaning(Link(g, p)) == Hops(g) + Meaning(p)
  {
    if g.kind.AsSequence? && p != [] && p[0].kind.AsSequence? {
      StepsConcat(g.asns, p[0].asns);
      var m := Segment(AsSequence, g.asns + p[0].asns);
      assert ([m] + p[1..])[1..] == p[1..];
    } else {
      assert ([g] + p)[1..] == p;
    }
  }

  /** Normalising keeps the meaning. */
  lemma {:induction false} NormaliseMeaning(p: Path)
    ensures Meaning(Normalise(p)) == Meaning(p)
  {
    if p != [] {
      NormaliseMeaning(p[1..]);
      LinkMeaning(NormalSegment(p[0]), Normalise(p[1..]));
      SortUniqStrict(p[0].asns);
    }
  }

  lemma LinkNormal(g: Segment, p: Path)
    requires IsNormal(p) && (g.kind.IsSet() ==> Strict(g.asns))
    ensures IsNormal(Link(g, p))
  {
    if g.kind.AsSequence? && p != [] && p[0].kind.AsSequence? {
      assert Link(g, p)[1..] == p[1..];
    } else {
      assert Link(g, p)[1..] == p;
    }
  }

  lemma {:induction false} NormaliseNormal(p: Path)
    ensures IsNormal(Normalise(p))
    ensures NoEmptySequence(p) ==> NoEmptySequence(Normalise(p))
  {
    if p != [] {
      NormaliseNormal(p[1..]);
      SortUniqStrict(p[0].asns);
      var g, q := NormalSegment(p[0]), Normalise(p[1..]);
      LinkNormal(g, q);
      assert Link(g, q)[1..] == if g.kind.AsSequence? && q != [] && q[0].kind.AsSequence? then q[1..] else q;
    }
  }

  lemma {:induction false} NormalFixed(p: Path)
    requires IsNormal(p)
    ensures Normalise(p) == p
  {
    if p != [] {
      NormalFixed(p[1..]);
      if p[0].kind.IsSet() {
        SortUniqFixed(p[0].asns);
      }
      assert p == [p[0]] + p[1..];
    }
  }

  lemma NormaliseIdempotent(p: Path)
    ensures Normalise(Normalise(p)) == Normalise(p)
  {
    NormaliseNormal(p);
    NormalFixed(Normalise(p));
  }

  // ----- A normal form is determined by its meaning

  ghost function Listed(s: set<nat>): seq<Asn> {
    if r: seq<Asn> :| Strict(r) && Elems(r) == s then r else []
  }

  /** Read a normal form back from its hops. */
  ghost function Rebuild(h: seq<Hop>): Path {
    if h == [] then []
    else
      var rest := Rebuild(h[1..]);
      match h[0]
      case Step(a) => Link(Segment(AsSequence, [a]), rest)
      case AnyOf(c) => [Segment(AsSet, Listed(c))] + rest
      case Confed(l) => [Segment(ConfedSequence, l)] + rest
      case ConfedAnyOf(c) => [Segment(ConfedSet, Listed(c))] + rest
  }

  lemma ListedStrict(s: seq<Asn>)
    requires Strict(s)
    ensures Listed(Elems(s)) == s
  {
    StrictUnique(Listed(Elems(s)), s);
  }

  lemma RebuildStep(a: Asn, h: seq<Hop>)
    ensures Rebuild([Step(a)] + h) == Link(Segment(AsSequence, [a]), Rebuild(h))
  {
    assert ([Step(a)] + h)[1..] == h;
  }

  lemma {:induction false} RebuildSteps(s: seq<Asn>, h: seq<Hop>)
    requires s != [] && (Rebuild(h) != [] ==> !Rebuild(h)[0].kind.AsSequence?)
    ensures Rebuild(Steps(s) + h) == [Segment(AsSequence, s)] + Rebuild(h)
  {
    hide Rebuild;
    assert Steps(s) + h == [Step(s[0])] + (Steps(s[1..]) + h);
    RebuildStep(s[0], Steps(s[1..]) + h);
    if |s| > 1 {
      RebuildSteps(s[1..], h);
      assert [s[0]] + s[1..] == s;
    } else {
      assert Steps(s[1..]) + h == h;
      assert s == [s[0]];
    }
  }

  lemma {:induction false} RebuildMeaning(p: Path)
    requires IsNormal(p) && NoEmptySequence(p)
    ensures Rebuild(Meaning(p)) == p
  {
    if p != [] {
      RebuildMeaning(p[1..]);
      var m := Meaning(p[1..]);
      assert p == [p[0]] + p[1..];
      if p[0].kind.AsSequence? {
        RebuildSteps(p[0].asns, m);
      } else {
        assert (Hops(p[0]) + m)[1..] == m;
        if p[0].kind.IsSet() {
          ListedStrict(p[0].asns);
        }
      }
    }
  }

  /** Two paths have the same normal form exactly when they mean the same. */
  lemma NormaliseCanonical(p: Path, q: Path)
    requires NoEmptySequence(p) && NoEmptySequence(q)
    ensures Normalise(p) == Normalise(q) <==> Meaning(p) == Meaning(q)
  {
    NormaliseMeaning(p);
    NormaliseMeaning(q);
    NormaliseNormal(p);
    NormaliseNormal(q);
    RebuildMeaning(Normalise(p));
    RebuildMeaning(Normalise(q));
  }

  /** aspath_cmp */
  method Compare(p: Path, q: Path) returns (same: bool)
    ensures same <==> p == q
  {
    var i := 0;
    while i < |p| || i < |q|
      invariant 0 <= i <= |p| && i <= |q|
      invariant p[..i] == q[..i]
      decreases |p| - i
    {
      if i >= |p| || i >= |q| {
        return false;
      }
      if p[i].kind != q[i].kind || |p[i].asns| != |q[i].asns| {
        return false;
      }
      var j := 0;
      while j < |p[i].asns|
        invariant 0 <= j <= |p[i].asns|
        invariant p[i].asns[..j] == q[i].asns[..j]
      {
        if p[i].asns[j] != q[i].asns[j] {
          return false;
        }
        j := j + 1;
      }
      assert p[i].asns[..j] == p[i].asns && q[i].asns[..j] == q[i].asns;
      i := i + 1;
    }
    assert p[..i] == p && q[..i] == q;
    return true;
  }

  /** One turn of the weeding loop, seen on the values still to come. */
  lemma DedupTurn(kept: seq<nat>, t: seq<nat>)
    requires |t| > 1
    ensures t[0] == t[1] ==> kept + Dedup(t) == kept + Dedup(t[1..])
    ensures t[0] != t[1] ==> kept + Dedup(t) == (kept + [t[0]]) + Dedup(t[1..])
  {
    Assoc(kept, [t[0]], Dedup(t[1..]));
  }

  lemma DedupLast(s: seq<nat>)
    requires s != []
    ensures Dedup(s[|s| - 1..]) == [s[|s| - 1]]
  {
  }

  /** The loop of assegment_normalise that weeds out repeated values, in place. */
  method WeedDupes(a: array<Asn>) returns (length: nat)
    modifies a
    ensures length <= a.Length && a[..length] == Dedup(old(a[..]))
  {
    ghost var was: seq<nat> := a[..];
    if a.Length == 0 {
      return 0;
    }
    hide Dedup;
    var tail := 0;
    var i := 1;
    assert a[..0] + Dedup(was[0..]) == Dedup(was) by {
      assert was[0..] == was;
    }
    while i < a.Length
      invariant 0 <= tail < i <= a.Length && a[tail] == was[i - 1]
      invariant a[..tail] + Dedup(was[i - 1..]) == Dedup(was)
      invariant a[i..] == was[i..]
    {
      DedupTurn(a[..tail], was[i - 1..]);
      assert was[i - 1..][1..] == was[i..];
      assert a[i] == a[i..][0] == was[i];
      if a[tail] != a[i] {
        assert a[..tail + 1] == a[..tail] + [a[tail]];
        tail := tail + 1;
        if tail < i {
          a[tail] := a[i];
        }
      }
      assert a[i + 1..] == a[i..][1..] && was[i + 1..] == was[i..][1..];
      i := i + 1;
    }
    DedupLast(was);
    assert a[..tail + 1] == a[..tail] + [a[tail]];
    return tail + 1;
  }

  /** qsort of the values of a segment. */
  function SortAsns(s: seq<Asn>): (r: seq<Asn>)
    ensures r == Sort(s)
  {
    SortAscending(s);
    var r := Sort(s);
    assert forall i | 0 <= i < |r| :: r[i] in multiset(r) && r[i] in multiset(s);
    r
  }

  /** The sorting part of assegment_normalise, for one set segment. */
  method SortSegment(g: Segment) returns (r: Segment)
    ensures r == NormalSegment(g) && r.kind == g.kind
  {
    if !g.kind.IsSet() {
      return g;
    }
    var sorted := SortAsns(g.asns);
    var a := new Asn[|sorted|](i requires 0 <= i < |sorted| => sorted[i]);
    assert a[..] == sorted;
    var length := WeedDupes(a);
    return g.(asns := a[..length]);
  }

  lemma PinMore(pin: Segment, head: Path, j: nat)
    requires j < |head| && pin.kind.AsSequence? && head[j].kind.AsSequence?
    ensures Link(pin, Normalise(head[j..])) ==
            Link(Segment(AsSequence, pin.asns + head[j].asns), Normalise(head[j + 1..]))
  {
    assert head[j..][1..] == head[j + 1..];
    var q := Normalise(head[j + 1..]);
    if q != [] && q[0].kind.AsSequence? {
      assert (pin.asns + head[j].asns) + q[0].asns == pin.asns + (head[j].asns + q[0].asns);
    }
  }

  /** The first segment of a normal form has the type of the first segment. */
  lemma PinDone(pin: Segment, head: Path, j: nat)
    requires j <= |head| && (j < |head| ==> !(pin.kind.AsSequence? && head[j].kind.AsSequence?))
    ensures Link(pin, Normalise(head[j..])) == [pin] + Normalise(head[j..])
  {
  }

  /** assegment_normalise: `done` is what has been walked over, `pin` the pinned segment. */
  method NormaliseChain(head: Path) returns (r: Path)
    ensures r == Normalise(head)
  {
    hide Link;
    hide NormalSegment;
    var i := 0;
    r := [];
    assert head[0..] == head && [] + Normalise(head) == Normalise(head);
    while i < |head|
      invariant 0 <= i <= |head|
      invariant r + Normalise(head[i..]) == Normalise(head)
    {
      var pin := SortSegment(head[i]);
      assert head[i..][1..] == head[i + 1..];
      var j := i + 1;
      while j < |head| && pin.kind.AsSequence? && head[j].kind.AsSequence?
        invariant i < j <= |head| && pin.kind == head[i].kind
        invariant Link(pin, Normalise(head[j..])) == Normalise(head[i..])
        decreases |head| - j
      {
        PinMore(pin, head, j);
        pin := Segment(AsSequence, pin.asns + head[j].asns);
        j := j + 1;
      }
      PinDone(pin, head, j);
      Assoc(r, [pin], Normalise(head[j..]));
      r := r + [pin];
      i := j;
    }
  }
}
