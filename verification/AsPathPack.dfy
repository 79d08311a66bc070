/**
 How aspath_put packs adjacent sequences together on the fly (bgpd/bgp_aspath.c): right for two, wrong for three.
 Paths are normalised before they are sent, so that there is nothing to pack then.
 */
module AsPathPack {
  import opened Lists
  import opened Octets
  import opened Options
  import opened AsPath
  import opened AsPathAggregate
  import opened AsPathWire

  /** Both are sequences that fit into one segment. */
  predicate Packable(g: Segment, h: Segment) {
    g.kind.AsSequence? && h.kind.AsSequence? && |g.asns| + |h.asns| <= SEGMENT_MAX
  }

  /** Each sequence with the next one, where they fit together. */
  function Paired(p: Path): Path {
    if p == [] then []
    else if |p| > 1 && Packable(p[0], p[1]) then [Segment(AsSequence, p[0].asns + p[1].asns)] + Paired(p[2..])
    else [p[0]] + Paired(p[1..])
  }

  /** No sequence can be packed with the two that follow it. */
  predicate AtMostPairs(p: Path) {
    if p == [] then true
    else if |p| > 1 && Packable(p[0], p[1]) then
      (|p| > 2 ==> !Packable(p[0], p[2])) && AtMostPairs(p[2..])
    else AtMostPairs(p[1..])
  }

  lemma ShortSegment(g: Segment)
    requires 0 < |g.asns| <= SEGMENT_MAX
    ensures FullChunks(g, |g.asns|) == [] && LastChunk(g) == g && LastLength(|g.asns|) == |g.asns|
  {
    assert g.asns[0..] == g.asns;
  }

  lemma PacksNone(g: Segment, rest: Path)
    requires rest == [] || !Packable(g, rest[0])
    ensures PackCount(g, rest) == 0
  {
  }

  lemma PacksOne(g: Segment, rest: Path)
    requires rest != [] && Packable(g, rest[0]) && (|rest| > 1 ==> !Packable(g, rest[1]))
    ensures PackCount(g, rest) == 1
  {
    PacksNone(g, rest[1..]);
  }

  lemma OneFlat(g: Segment)
    ensures Flat([g]) == g.asns
  {
    assert [g][1..] == [] && g.asns + [] == g.asns;
  }

  lemma NoChunks(wide: bool)
    ensures EncodeAll([], wide) == []
  {
  }

  lemma LoopTurn(p: Path, wide: bool)
    requires p != []
    ensures var k := PackCount(p[0], p[1..]);
            WireLoop(p, wide) ==
            EncodeAll(FullChunks(p[0], |p[0].asns|), wide) + [TypeCode(p[0].kind), PackedLength(p[0], p[1..]) % 256]
            + EncodeAsns(LastChunk(p[0]).asns + Flat(p[1..][..k]), wide) + WireLoop(p[1 + k..], wide)
  {
    hide EncodeAsns;
    hide EncodeAll;
    hide PackCount;
    hide PackedLength;
    hide FullChunks;
    hide LastChunk;
    hide Flat;
    hide TypeCode;
  }

  lemma LoopShort(p: Path, wide: bool)
    requires p != [] && 0 < |p[0].asns| <= SEGMENT_MAX
    ensures var k := PackCount(p[0], p[1..]);
            var n := |p[0].asns| + if k == 0 then 0 else |p[1..][k - 1].asns|;
            WireLoop(p, wide) ==
            [TypeCode(p[0].kind), n % 256] + EncodeAsns(p[0].asns + Flat(p[1..][..k]), wide)
            + WireLoop(p[1 + k..], wide)
  {
    hide WireLoop;
    hide EncodeAsns;
    hide EncodeAll;
    hide PackCount;
    hide FullChunks;
    hide LastChunk;
    hide LastLength;
    hide Flat;
    hide TypeCode;
    LoopTurn(p, wide);
    ShortSegment(p[0]);
    NoChunks(wide);
    var h := [TypeCode(p[0].kind), PackedLength(p[0], p[1..]) % 256];
    assert [] + h == h;
  }

  /** Nothing to pack: the segment is written as it is. */
  lemma WrittenAlone(p: Path, wide: bool)
    requires p != [] && 0 < |p[0].asns| <= SEGMENT_MAX && (|p| > 1 ==> !Packable(p[0], p[1]))
    ensures WireLoop(p, wide) == Encode(p[0], wide) + WireLoop(p[1..], wide)
  {
    hide EncodeAsns;
    hide WireLoop;
    hide PackCount;
    PacksNone(p[0], p[1..]);
    LoopShort(p, wide);
    var g := p[0];
    assert p[1..][..0] == [] && Flat([]) == [] && g.asns + [] == g.asns && p[1 + 0..] == p[1..];
  }

  /** Two sequences that fit are written as one. */
  lemma WrittenTogether(p: Path, wide: bool)
    requires |p| > 1 && p[0].asns != [] && p[1].asns != [] && Packable(p[0], p[1])
    requires |p| > 2 ==> !Packable(p[0], p[2])
    ensures WireLoop(p, wide) == Encode(Segment(AsSequence, p[0].asns + p[1].asns), wide) + WireLoop(p[2..], wide)
  {
    hide EncodeAsns;
    hide WireLoop;
    hide PackCount;
    PacksOne(p[0], p[1..]);
    LoopShort(p, wide);
    OneFlat(p[1]);
    hide Flat;
    assert p[1..][..1] == [p[1]] && p[1 + 1..] == p[2..] && p[1..][0] == p[1];
  }

  lemma Nothing(wide: bool)
    ensures WireLoop([], wide) == []
  {
  }

  lemma {:induction false} WritesPairs(p: Path, wide: bool)
    requires ChunkSized(p) && AtMostPairs(p)
    ensures WireLoop(p, wide) == EncodeAll(Paired(p), wide) && ChunkSized(Paired(p))
  {
    hide WireLoop;
    hide Encode;
    if p == [] {
      assert WireLoop(p, wide) == [] by { Nothing(wide); }
    } else if |p| > 1 && Packable(p[0], p[1]) {
      assert p[1..][1..] == p[2..];
      WrittenTogether(p, wide);
      WritesPairs(p[2..], wide);
      var q := Paired(p);
      assert q[1..] == Paired(p[2..]);
    } else {
      WrittenAlone(p, wide);
      WritesPairs(p[1..], wide);
      var q := Paired(p);
      assert q[1..] == Paired(p[1..]);
    }
  }

  lemma NarrowSegment(g: Segment, p: Path, wide: bool)
    ensures NarrowPath([g] + p, wide) == [Segment(g.kind, NarrowAll(g.asns, wide))] + NarrowPath(p, wide)
  {
    assert ([g] + p)[1..] == p;
  }

  lemma HeadMeans(g: Segment, p: Path)
    ensures Meaning([g] + p) == Hops(g) + Meaning(p)
  {
    assert ([g] + p)[1..] == p;
  }

  lemma {:induction false} PairsMean(p: Path, wide: bool)
    ensures Meaning(NarrowPath(Paired(p), wide)) == Meaning(NarrowPath(p, wide))
  {
    hide Meaning;
    hide NarrowAll;
    if p == [] {
    } else if |p| > 1 && Packable(p[0], p[1]) {
      PairsMean(p[2..], wide);
      var g, h, both := p[0], p[1], Segment(AsSequence, p[0].asns + p[1].asns);
      var s, t, m := NarrowAll(g.asns, wide), NarrowAll(h.asns, wide), Meaning(NarrowPath(p[2..], wide));
      NarrowSegment(both, Paired(p[2..]), wide);
      NarrowSegment(h, p[2..], wide);
      NarrowSegment(g, p[1..], wide);
      assert p == [g] + p[1..] && p[1..] == [h] + p[2..];
      NarrowAllConcat(g.asns, h.asns, wide);
      HeadMeans(Segment(AsSequence, s + t), NarrowPath(Paired(p[2..]), wide));
      HeadMeans(Segment(AsSequence, s), NarrowPath(p[1..], wide));
      HeadMeans(Segment(AsSequence, t), NarrowPath(p[2..], wide));
      StepsConcat(s, t);
      Assoc(Steps(s), Steps(t), m);
    } else {
      PairsMean(p[1..], wide);
      var g := p[0];
      NarrowSegment(g, Paired(p[1..]), wide);
      NarrowSegment(g, p[1..], wide);
      assert p == [g] + p[1..];
      HeadMeans(Segment(g.kind, NarrowAll(g.asns, wide)), NarrowPath(Paired(p[1..]), wide));
      HeadMeans(Segment(g.kind, NarrowAll(g.asns, wide)), NarrowPath(p[1..], wide));
    }
  }

  lemma {:induction false} NarrowSized(p: Path, wide: bool)
    requires ChunkSized(p)
    ensures NoEmptySequence(NarrowPath(p, wide))
  {
    if p != [] {
      NarrowSized(p[1..], wide);
      assert NarrowPath(p, wide)[1..] == NarrowPath(p[1..], wide);
    }
  }

  lemma NarrowNothing(wide: bool)
    ensures NarrowPath([], wide) == []
  {
  }

  /** A path of segments of 1 to 255 ASNs comes back in normal form if no sequence is packed with two others. */
  lemma PackedArrives(p: Path, wide: bool)
    requires ChunkSized(p) && AtMostPairs(p)
    ensures Parse(Wire(p, wide), wide) == Some(Normalise(NarrowPath(p, wide)))
  {
    hide WireLoop;
    hide Normalise;
    hide NarrowPath;
    hide ParseLoop;
    var q := Paired(p);
    if p == [] {
      NormaliseNothing();
      NarrowNothing(wide);
      return;
    }
    assert EncodeAll(q, wide) != [];
    WritesPairs(p, wide);
    ParseEncodeAll(q, wide);
    EncodeAllEven(q, wide);
    PairsMean(p, wide);
    NarrowSized(p, wide);
    NarrowSized(q, wide);
    NormaliseCanonical(NarrowPath(p, wide), NarrowPath(q, wide));
  }

  lemma ThreeEncoded()
    ensures EncodeAsns([1, 2, 3], false) == [0, 1, 0, 2, 0, 3]
  {
    var none: seq<Asn> := [];
    assert [1, 2, 3][1..] == [2, 3] && [2, 3][1..] == [3] && [3][1..] == none;
    assert EncodeAsns(none, false) == [];
    assert EncodeAsns([3], false) == [0, 3] + [];
    assert EncodeAsns([2, 3], false) == [0, 2] + [0, 3];
  }

  lemma SameRemainder(a: nat, b: nat)
    ensures a % 256 == (a + b) % 256 <==> b % 256 == 0
  {
  }

  lemma FlatUpTo(p: Path, k: nat)
    requires k <= |p|
    ensures |Flat(p[..k])| == if k == 0 then 0 else |Flat(p[..k - 1])| + |p[k - 1].asns|
  {
    if k > 0 {
      assert p[..k] == p[..k - 1] + [p[k - 1]];
      FlatConcat(p[..k - 1], [p[k - 1]]);
      OneFlat(p[k - 1]);
    }
  }

  lemma PackedIs(g: Segment, rest: Path)
    requires 0 < |g.asns| <= SEGMENT_MAX
    ensures var k := PackCount(g, rest);
            PackedLength(g, rest) == |g.asns| + if k == 0 then 0 else |rest[k - 1].asns|
  {
    hide PackCount;
    ShortSegment(g);
  }

  /** The length octet tells the ASNs behind it exactly when those between the first and the last pack make up 256s. */
  lemma LengthRightIff(g: Segment, rest: Path)
    requires 0 < |g.asns| <= SEGMENT_MAX
    ensures var k := PackCount(g, rest);
            PackedLength(g, rest) % 256 == (|g.asns| + |Flat(rest[..k])|) % 256 <==>
            k == 0 || |Flat(rest[..k - 1])| % 256 == 0
  {
    hide Flat;
    hide PackCount;
    hide PackedLength;
    var k := PackCount(g, rest);
    FlatUpTo(rest, k);
    PackedIs(g, rest);
    if k > 0 {
      SameRemainder(PackedLength(g, rest), |Flat(rest[..k - 1])|);
    }
  }

  const FIRST := Segment(AsSequence, [1])
  const SECOND := Segment(AsSequence, [2])
  const THIRD := Segment(AsSequence, [3])
  const THREE: Path := [FIRST, SECOND, THIRD]
  const WRITTEN: seq<Octet> := [2, 2, 0, 1, 0, 2, 0, 3]

  lemma ThreePacked()
    ensures PackCount(FIRST, [SECOND, THIRD]) == 2 && FIRST.asns + Flat([SECOND, THIRD]) == [1, 2, 3]
  {
    assert [SECOND, THIRD][1..] == [THIRD] && [THIRD][1..] == [];
    PacksNone(FIRST, []);
    assert PackCount(FIRST, [THIRD]) == 1;
    OneFlat(THIRD);
    assert Flat([SECOND, THIRD]) == [2] + Flat([THIRD]);
  }

  lemma ThreeWritten()
    ensures WireLoop(THREE, false) == WRITTEN
  {
    ThreePacked();
    ThreeEncoded();
    ShortSegment(FIRST);
    Nothing(false);
    hide EncodeAsns;
    hide PackCount;
    hide FullChunks;
    hide LastChunk;
    hide LastLength;
    hide Flat;
    assert THREE[1..] == [SECOND, THIRD] && THREE[1..][..2] == [SECOND, THIRD] && THREE[3..] == [];
    assert EncodeAll([], false) == [];
    assert PackedLength(FIRST, THREE[1..]) == 2;
    hide EncodeAll;
    assert WireLoop(THREE, false) == [] + [2, 2] + [0, 1, 0, 2, 0, 3] + [];
  }

  lemma ThreeRefused()
    ensures Parse(WRITTEN, false) == None
  {
    assert WRITTEN[2 + Size(2, false)..] == [0, 3];
    assert ParseLoop([0, 3], false) == None;
  }

  /** Three sequences of one ASN each: all are written, the length tells two of them, and the path is refused. */
  lemma ThreeAreLost()
    ensures ChunkSized(THREE) && Wire(THREE, false) == WRITTEN && Parse(WRITTEN, false) == None
  {
    ThreeWritten();
    ThreeRefused();
    hide WireLoop;
    hide Parse;
    assert THREE[1..] == [SECOND, THIRD] && [SECOND, THIRD][1..] == [THIRD] && [THIRD][1..] == [];
    assert ChunkSized([THIRD]) && ChunkSized([SECOND, THIRD]);
  }

  /** A path is written as nothing exactly when it is empty, or starts with an empty segment. */
  lemma NothingWritten(p: Path, wide: bool)
    ensures Wire(p, wide) == [] <==> p == [] || p[0].asns == []
    ensures Count(p, wide) == 0 <==> p == [] || p[0].asns == []
  {
  }
}
