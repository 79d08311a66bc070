/**
 The octets of one route, attribute by attribute, as a reflector sends it to a neighbour with 2-octet ASNs.
 */
module AttrVectors {
  import opened Octets
  import opened Options
  import opened AsPath
  import opened AsPathAggregate
  import opened AsPathReconcile
  import opened AttrParse
  import opened AttrSend
  import opened AttrArrive
  import Encap
  import W = AsPathWire

  const SESSION := Session(Ibgp, false, false, 65000, false, None)

  const POLICY := Policy(AFI_IP, SAFI_UNICAST, Nexthop(0, NO_ADDRESS, NO_ADDRESS, 0), [], true, true,
                         Some(Reflection(0x0A00_0003, 0x0A00_0001)))

  const PATH: Path := [Segment(AsSequence, [70000, 3])]

  const ROUTE := NO_ATTR.(
    flags := {ORIGIN, AS_PATH, NEXT_HOP, MED, LOCAL_PREF, ATOMIC_AGGREGATE, AGGREGATOR, COMMUNITIES, EXT_COMMUNITIES},
    origin := 2, nexthop := 0x0A00_0002, med := 100, localPref := 200, aggregator := 70000,
    aggregatorAddr := 0x0A00_0009, community := [0xFDE8_0001], ecommunity := [0x0002_FDE8_0000_0001])

  function From(c: Octet): seq<Octet> {
    WrittenFrom(SESSION, POLICY, ROUTE, PATH, c)
  }

  lemma Next(c: Octet)
    requires c <= ENCAP
    ensures From(c) == (if SentInOrder(SESSION, POLICY, ROUTE, PATH, c)
                        then OctetsFor(SESSION, POLICY, ROUTE, PATH, c) else []) + From(c + 1)
  {
  }

  lemma PathWire()
    ensures W.Wire(PATH, false) == [2, 2, 0x5b, 0xa0, 0, 3] && W.Count(PATH, false) == 6
    ensures W.Wire(PATH, true) == [2, 2, 0, 1, 0x11, 0x70, 0, 0, 0, 3] && W.Count(PATH, true) == 10
  {
    var g := PATH[0];
    var none: seq<Asn> := [];
    assert PATH[1..] == [] && PATH[1..][..0] == [] && g.asns[0..] == g.asns && Flat([]) == [];
    assert [70000, 3][1..] == [3] && [3][1..] == none;
    assert W.LastChunk(g) == g && W.FullChunks(g, 2) == [] && g.asns + [] == g.asns;
    assert W.EncodeAsns(none, false) == [] && W.EncodeAsns(none, true) == [];
    assert W.EncodeAsns([3], false) == [0, 3] + [] && W.EncodeAsns([3], true) == [0, 0, 0, 3] + [];
    assert W.EncodeAsns(g.asns, false) == [0x5b, 0xa0] + [0, 3];
    assert W.EncodeAsns(g.asns, true) == [0, 1, 0x11, 0x70] + [0, 0, 0, 3];
  }

  lemma Short(t: Tlv)
    requires !t.Extended() && |t.value| < 256
    ensures Raw(t) == [t.flags, t.code, |t.value|] + t.value
  {
  }

  function Of(c: Octet): seq<Octet> {
    OctetsFor(SESSION, POLICY, ROUTE, PATH, c)
  }

  lemma OfPaths()
    ensures Of(2) == [0x50, 2, 0, 6, 2, 2, 0x5b, 0xa0, 0, 3]
    ensures Of(17) == [0xd0, 17, 0, 10, 2, 2, 0, 1, 0x11, 0x70, 0, 0, 0, 3]
  {
    PathWire();
    hide W.Wire;
    hide W.Count;
    BigEndian(0, 6, 0, 0);
    BigEndian(0, 10, 0, 0);
    hide PutW;
    assert DeleteConfedSeq(PATH) == PATH;
    hide DeleteConfedSeq;
  }

  lemma OfPlain()
    ensures Of(1) == [0x40, 1, 1, 2] && Of(6) == [0x40, 6, 0]
    ensures Of(3) == [0x40, 3, 4, 10, 0, 0, 2]
    ensures Of(4) == [0x80, 4, 4, 0, 0, 0, 100] && Of(5) == [0x40, 5, 4, 0, 0, 0, 200]
  {
    BigEndian(10, 0, 0, 2);
    BigEndian(0, 0, 0, 100);
    BigEndian(0, 0, 0, 200);
    hide PutL;
    Short(OriginTlv(ROUTE));
    Short(AtomicTlv());
    Short(NexthopTlv(ROUTE));
    Short(MedTlv(ROUTE));
    Short(LocalPrefTlv(ROUTE));
    hide Raw;
  }

  lemma OfAggregators()
    ensures Of(7) == [0xc0, 7, 6, 0x5b, 0xa0, 10, 0, 0, 9]
    ensures Of(18) == [0xc0, 18, 8, 0, 1, 0x11, 0x70, 10, 0, 0, 9]
  {
    BigEndian(0x5b, 0xa0, 0, 0);
    BigEndian(0, 1, 0x11, 0x70);
    BigEndian(10, 0, 0, 9);
    hide PutL;
    hide PutW;
    Short(AggregatorTlv(SESSION, ROUTE));
    Short(As4AggregatorTlv(ROUTE));
    hide Raw;
  }

  lemma OfReflection()
    ensures Of(9) == [0x80, 9, 4, 10, 0, 0, 3] && Of(10) == [0x80, 10, 4, 10, 0, 0, 1]
  {
    BigEndian(10, 0, 0, 3);
    BigEndian(10, 0, 0, 1);
    hide PutL;
    Short(OriginatorTlv(POLICY.reflection.value, ROUTE));
    Short(ClusterTlv(POLICY.reflection.value, ROUTE));
    hide Raw;
  }

  lemma OneQuad(x: Quad)
    ensures EncodeQuads([x]) == PutL(x)
  {
    var one: seq<nat> := [x];
    assert one[1..] == [] && PutL(x) + [] == PutL(x);
  }

  lemma OneOctal(high: Quad, low: Quad)
    ensures EncodeOctals([high * 0x1_0000_0000 + low]) == PutL(high) + PutL(low)
  {
    var x := high * 0x1_0000_0000 + low;
    assert x / 0x1_0000_0000 == high && x % 0x1_0000_0000 == low;
    hide PutL;
    var b := PutL(high) + PutL(low);
    assert [x][1..] == [] && b + [] == b;
  }

  lemma OfCommunity()
    ensures Of(8) == [0xc0, 8, 4, 0xfd, 0xe8, 0, 1]
  {
    BigEndian(0xfd, 0xe8, 0, 1);
    hide PutL;
    OneQuad(0xFDE8_0001);
    hide EncodeQuads;
    Short(CommunityTlv(ROUTE));
    hide Raw;
  }

  lemma OfExtCommunity()
    ensures Of(16) == [0xc0, 16, 8, 0, 2, 0xfd, 0xe8, 0, 0, 0, 1]
  {
    BigEndian(0, 2, 0xfd, 0xe8);
    BigEndian(0, 0, 0, 1);
    hide PutL;
    OneOctal(0x0002_FDE8, 1);
    hide EncodeOctals;
    hide Transitives;
    assert Shown(SESSION, ROUTE.ecommunity) == [0x0002_FDE8 * 0x1_0000_0000 + 1];
    Short(ExtCommunityTlv(SESSION, ROUTE));
    hide Raw;
  }

  const LAST: seq<Octet> :=
    [0xc0, 8, 4, 0xfd, 0xe8, 0, 1] + ([0x80, 9, 4, 10, 0, 0, 3] + ([0x80, 10, 4, 10, 0, 0, 1] + (
    [0xc0, 16, 8, 0, 2, 0xfd, 0xe8, 0, 0, 0, 1] + ([0xd0, 17, 0, 10, 2, 2, 0, 1, 0x11, 0x70, 0, 0, 0, 3] +
    [0xc0, 18, 8, 0, 1, 0x11, 0x70, 10, 0, 0, 9]))))

  const OCTETS: seq<Octet> :=
    [0x40, 1, 1, 2] + ([0x50, 2, 0, 6, 2, 2, 0x5b, 0xa0, 0, 3] + ([0x40, 3, 4, 10, 0, 0, 2] + (
    [0x80, 4, 4, 0, 0, 0, 100] + ([0x40, 5, 4, 0, 0, 0, 200] + ([0x40, 6, 0] + (
    [0xc0, 7, 6, 0x5b, 0xa0, 10, 0, 0, 9] + LAST))))))

  lemma AllSent()
    ensures forall c: Octet | c <= ENCAP ::
              SentInOrder(SESSION, POLICY, ROUTE, PATH, c) <==> c in {1, 2, 3, 4, 5, 6, 7, 8, 9, 10, 16, 17, 18}
  {
    assert PATH[1..] == [];
    assert Flat(PATH) == [70000, 3] + Flat([]) && 70000 in Flat(PATH);
    hide Flat;
  }

  lemma Ended()
    ensures From(24) == []
  {
  }

  lemma Not(c: Octet)
    requires c in {11, 12, 13, 14, 15, 19, 20, 21, 22, 23}
    ensures From(c) == From(c + 1)
  {
    AllSent();
    Next(c);
    hide From;
    hide SentInOrder;
    assert [] + From(c + 1) == From(c + 1);
  }

  lemma Then(c: Octet)
    requires c in {1, 2, 3, 4, 5, 6, 7, 8, 9, 10, 16, 17, 18}
    ensures From(c) == Of(c) + From(c + 1)
  {
    AllSent();
    Next(c);
    hide From;
    hide SentInOrder;
  }

  lemma LastOctets()
    ensures From(8) == LAST
  {
    hide From;
    hide Of;
    Ended();
    Not(23); Not(22); Not(21); Not(20); Not(19); Not(15); Not(14); Not(13); Not(12); Not(11);
    Then(18); Then(17); Then(16); Then(10); Then(9); Then(8);
    OfCommunity();
    OfExtCommunity();
    OfReflection();
    OfPaths();
    OfAggregators();
    assert Of(18) + [] == Of(18);
  }

  lemma FromFirst()
    ensures Message(SESSION, POLICY, ROUTE, PATH) == From(1)
  {
    hide WrittenFrom;
    assert [] + From(1) + [] == From(1);
  }

  /** The whole message, with the octets of each attribute. */
  lemma MessageVector()
    ensures Message(SESSION, POLICY, ROUTE, PATH) == OCTETS
  {
    hide From;
    hide Of;
    hide Message;
    LastOctets();
    FromFirst();
    Then(7); Then(6); Then(5); Then(4); Then(3); Then(2); Then(1);
    OfPlain();
    OfPaths();
    OfAggregators();
  }

  lemma PathCarried()
    ensures Carried(PATH, false) && Carried(PATH, true) && HasAs4(PATH) && NoConfed(PATH)
    ensures DeleteConfedSeq(PATH) == PATH && ConfedLead(PATH) == []
  {
    PathWire();
    hide W.Wire;
    assert PATH[1..] == [];
    assert Flat(PATH) == [70000, 3] + Flat([]) && 70000 in Flat(PATH);
  }

  lemma CommunitiesSound()
    ensures Communities(ROUTE.community, 0x1_0000_0000) && Communities(ROUTE.ecommunity, 0x1_0000_0000_0000_0000)
    ensures Shown(SESSION, ROUTE.ecommunity) == ROUTE.ecommunity
  {
    assert ROUTE.community[1..] == [] && ROUTE.ecommunity[1..] == [];
  }

  lemma RouteSendable()
    ensures Sendable(SESSION, POLICY, ROUTE, PATH) && Admitted(SESSION, PATH)
  {
    PathCarried();
    CommunitiesSound();
    hide Carried;
    hide HasAs4;
    hide Communities;
    hide Transitives;
    assert TransitRight([]);
    hide TransitRight;
    assert !Martian(0x0A00_0002);
    hide Martian;
  }

  /** The neighbour reads the octets as the route that was sent, 4-octet ASNs included. */
  lemma VectorArrives()
    ensures Parse(SESSION, OCTETS).Proceed?
    ensures var b := Parse(SESSION, OCTETS).st.attr;
            && b.aspath == PATH && b.origin == 2 && b.nexthop == 0x0A00_0002 && b.med == 100 && b.localPref == 200
            && b.aggregator == 70000 && b.aggregatorAddr == 0x0A00_0009 && b.community == [0xFDE8_0001]
            && b.ecommunity == [0x0002_FDE8_0000_0001] && b.originator == 0x0A00_0003 && b.cluster == [10, 0, 0, 1]
  {
    MessageVector();
    hide Message;
    hide Parse;
    RouteSendable();
    PathCarried();
    CommunitiesSound();
    hide Sendable;
    hide Admitted;
    hide Carried;
    hide HasAs4;
    hide Communities;
    hide Transitives;
    AttributesArrive(SESSION, POLICY, ROUTE, PATH);
    BigEndian(10, 0, 0, 1);
    hide PutL;
    assert Normalise(W.NarrowPath([], false)) + PATH == PATH;
    hide ConfedLead;
    hide DeleteConfedSeq;
  }

  lemma SubsEncoded()
    ensures var subs := [Encap.SubTlv(1, [7, 8]), Encap.SubTlv(2, [9, 10])];
            Encap.EncodeSubs(subs) == [1, 2, 7, 8, 2, 2, 9, 10] && Encap.SubsLength(subs) == 8
  {
    var a, b := Encap.SubTlv(1, [7, 8]), Encap.SubTlv(2, [9, 10]);
    assert [a, b][1..] == [b] && [b][1..] == [];
    assert Encap.EncodeSubs([]) == [] && Encap.SubsLength([]) == 0;
    assert Encap.EncodeSubs([b]) == [2, 2, 9, 10] && Encap.SubsLength([b]) == 4;
  }

  /** A tunnel encapsulation with two sub-TLVs. */
  lemma EncapVector()
    ensures Encap.EncodeAttribute(1, [Encap.SubTlv(1, [7, 8]), Encap.SubTlv(2, [9, 10])]) ==
            [0xc0, 23, 12, 0, 1, 0, 8, 1, 2, 7, 8, 2, 2, 9, 10]
  {
    SubsEncoded();
    BigEndian(0, 1, 0, 8);
    BigEndian(0, 8, 0, 0);
    hide PutW;
    hide Encap.EncodeSubs;
    hide Encap.SubsLength;
  }
}
