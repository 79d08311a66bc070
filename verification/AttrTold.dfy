/**
 What a neighbour is told about a route and what it is not, said of the session, the policy and the route alone
 (bgp_packet_attribute in bgpd/bgp_attr.c).
 */
module AttrTold {
  import opened Octets
  import opened AsPath
  import opened AsPathAggregate
  import opened AsPathReconcile
  import opened AttrParse
  import opened AttrAccept
  import opened AttrSend
  import opened AttrArrive
  import Encap

  /** Neighbours in the same AS or confederation. */
  predicate Near(ses: Session) {
    ses.sort.Ibgp? || ses.sort.Confed?
  }

  /** The extended community is to stay within the AS: bit 6 of its first octet is set. */
  predicate StaysInside(c: nat) {
    c / 0x100_0000_0000_0000 / 64 % 2 == 1
  }

  lemma StaysIs(c: nat)
    ensures StaysInside(c) <==> NonTransitive(c)
  {
    var q, r := c / 0x100_0000_0000_0000, c % 0x100_0000_0000_0000;
    var h, l := q / 64, q % 64;
    assert c == h * 0x4000_0000_0000_0000 + (l * 0x100_0000_0000_0000 + r);
    assert 0 <= l * 0x100_0000_0000_0000 + r < 0x4000_0000_0000_0000;
  }

  lemma {:induction false} TransitivesAre(cs: seq<nat>)
    ensures forall c :: c in Transitives(cs) <==> c in cs && !StaysInside(c)
  {
    hide NonTransitive;
    hide StaysInside;
    if cs != [] {
      TransitivesAre(cs[1..]);
      StaysIs(cs[0]);
    }
  }

  lemma LargeAsns(p: Path)
    ensures HasAs4(p) <==> exists x :: x in Members(p) && x > AS_MAX
  {
    MembersAre(p);
    hide Members;
    if HasAs4(p) {
      var a :| a in Flat(p) && a > AS_MAX;
      assert a in Asns(p);
    }
    if x :| x in Members(p) && x > AS_MAX {
      assert x in Flat(p);
    }
  }

  /** Communities are written and read four octets at a time, in order... */
  lemma {:induction false} QuadsInOrder(cs: seq<nat>, v: seq<Octet>, i: nat)
    ensures i < |cs| ==> EncodeQuads(cs)[4 * i..4 * i + 4] == PutL(cs[i])
    ensures |DecodeQuads(v)| == |v| / 4
    ensures i < |v| / 4 ==> DecodeQuads(v)[i] == GetL(v[4 * i..])
    decreases |cs| + |v|
  {
    hide PutL;
    hide GetL;
    if i > 0 {
      if i < |cs| {
        QuadsInOrder(cs[1..], [], i - 1);
        var e := EncodeQuads(cs[1..]);
        assert EncodeQuads(cs)[4 * i..4 * i + 4] == e[4 * (i - 1)..4 * (i - 1) + 4];
      }
      if |v| >= 4 {
        QuadsInOrder([], v[4..], i - 1);
        assert i < |v| / 4 ==> v[4..][4 * (i - 1)..] == v[4 * i..];
      }
    } else {
      if |v| >= 4 {
        QuadsInOrder([], v[4..], 0);
      }
      assert v[0..] == v;
    }
  }

  /** ...and extended ones eight at a time. */
  lemma {:induction false} OctalsInOrder(cs: seq<nat>, v: seq<Octet>, i: nat)
    ensures i < |cs| ==>
              EncodeOctals(cs)[8 * i..8 * i + 8] == PutL(cs[i] / 0x1_0000_0000) + PutL(cs[i] % 0x1_0000_0000)
    ensures |DecodeOctals(v)| == |v| / 8
    ensures i < |v| / 8 ==> DecodeOctals(v)[i] == GetL(v[8 * i..]) * 0x1_0000_0000 + GetL(v[8 * i + 4..])
    decreases |cs| + |v|
  {
    hide PutL;
    hide GetL;
    if i > 0 {
      if i < |cs| {
        OctalsInOrder(cs[1..], [], i - 1);
        var e := EncodeOctals(cs[1..]);
        assert EncodeOctals(cs)[8 * i..8 * i + 8] == e[8 * (i - 1)..8 * (i - 1) + 8];
      }
      if |v| >= 8 {
        OctalsInOrder([], v[8..], i - 1);
        assert i < |v| / 8 ==> v[8..][8 * (i - 1)..] == v[8 * i..] && v[8..][8 * (i - 1) + 4..] == v[8 * i + 4..];
      }
    } else {
      if |v| >= 8 {
        OctalsInOrder([], v[8..], 0);
      }
      assert v[0..] == v;
    }
  }

  /** Which attributes are sent. */
  lemma CodesSent(ses: Session, pol: Policy, a: Attr, p: Path)
    ensures var plain := pol.afi == 1 && pol.safi == 1;
            && CodeSent(ses, pol, a, p, ORIGIN) && CodeSent(ses, pol, a, p, AS_PATH)
            && (CodeSent(ses, pol, a, p, NEXT_HOP) <==> plain && NEXT_HOP in a.flags)
            && (CodeSent(ses, pol, a, p, MP_REACH) <==> !plain) && !CodeSent(ses, pol, a, p, MP_UNREACH)
            && (CodeSent(ses, pol, a, p, MED) <==> MED in a.flags)
            && (CodeSent(ses, pol, a, p, ATOMIC_AGGREGATE) <==> ATOMIC_AGGREGATE in a.flags)
            && (CodeSent(ses, pol, a, p, LOCAL_PREF) <==> Near(ses))
            && (CodeSent(ses, pol, a, p, AGGREGATOR) <==> AGGREGATOR in a.flags)
            && (CodeSent(ses, pol, a, p, COMMUNITIES) <==> pol.community && COMMUNITIES in a.flags)
            && (CodeSent(ses, pol, a, p, ORIGINATOR_ID) <==> ses.sort.Ibgp? && pol.reflection.Some?)
            && (CodeSent(ses, pol, a, p, CLUSTER_LIST) <==> ses.sort.Ibgp? && pol.reflection.Some?)
            && (CodeSent(ses, pol, a, p, EXT_COMMUNITIES) <==>
                  && pol.extCommunity && EXT_COMMUNITIES in a.flags
                  && (Near(ses) || Transitives(a.ecommunity) != []))
            && (CodeSent(ses, pol, a, p, AS4_PATH) <==> !ses.as4 && HasAs4(p))
            && (CodeSent(ses, pol, a, p, AS4_AGGREGATOR) <==>
                  !ses.as4 && AGGREGATOR in a.flags && a.aggregator > AS_MAX)
  {
    hide HasAs4;
    hide Transitives;
  }

  lemma SomeTransitive(cs: seq<nat>)
    ensures Transitives(cs) != [] <==> exists c :: c in cs && !StaysInside(c)
  {
    hide StaysInside;
    TransitivesAre(cs);
    if Transitives(cs) != [] {
      var c := Transitives(cs)[0];
      assert c in Transitives(cs);
    }
  }

  /** Which attributes the neighbour has when it has read the message. */
  lemma AttributesTold(ses: Session, pol: Policy, a: Attr, p: Path)
    requires Sendable(ses, pol, a, p) && Admitted(ses, p)
    ensures Parse(ses, Message(ses, pol, a, p)).Proceed?
    ensures var f, plain := Parse(ses, Message(ses, pol, a, p)).st.attr.flags, pol.afi == 1 && pol.safi == 1;
            && ORIGIN in f && AS_PATH in f
            && (NEXT_HOP in f <==> plain && NEXT_HOP in a.flags) && (MP_REACH in f <==> !plain)
            && (MED in f <==> MED in a.flags) && (ATOMIC_AGGREGATE in f <==> ATOMIC_AGGREGATE in a.flags)
            && (LOCAL_PREF in f <==> Near(ses)) && (AGGREGATOR in f <==> AGGREGATOR in a.flags)
            && (COMMUNITIES in f <==> pol.community && COMMUNITIES in a.flags)
            && (ORIGINATOR_ID in f <==> ses.sort.Ibgp? && pol.reflection.Some?)
            && (CLUSTER_LIST in f <==> ses.sort.Ibgp? && pol.reflection.Some?)
            && (EXT_COMMUNITIES in f <==>
                  && pol.extCommunity && EXT_COMMUNITIES in a.flags
                  && (Near(ses) || exists c :: c in a.ecommunity && !StaysInside(c)))
            && (AS4_PATH in f <==> !ses.as4 && exists x :: x in Members(p) && x > AS_MAX)
            && (AS4_AGGREGATOR in f <==> !ses.as4 && AGGREGATOR in a.flags && a.aggregator > AS_MAX)
            && MP_UNREACH !in f
  {
    hide Parse;
    hide Message;
    hide Sendable;
    hide Admitted;
    hide CodeSent;
    hide Transitives;
    hide HasAs4;
    AttributesArrive(ses, pol, a, p);
    var f := Parse(ses, Message(ses, pol, a, p)).st.attr.flags;
    assert forall c: Octet :: c in f <==> CodeSent(ses, pol, a, p, c) && c != ENCAP;
    CodesSent(ses, pol, a, p);
    LargeAsns(p);
    SomeTransitive(a.ecommunity);
    hide Members;
    hide StaysInside;
  }

  /** The extended communities that arrive are all of them nearby, and elsewhere those that may leave the AS. */
  lemma CommunitiesTold(ses: Session, pol: Policy, a: Attr, p: Path)
    requires Sendable(ses, pol, a, p) && Admitted(ses, p)
    ensures Parse(ses, Message(ses, pol, a, p)).Proceed?
    ensures var b := Parse(ses, Message(ses, pol, a, p)).st.attr;
            && (COMMUNITIES in b.flags ==> b.community == a.community)
            && (EXT_COMMUNITIES in b.flags ==>
                  forall c :: c in b.ecommunity <==> c in a.ecommunity && (Near(ses) || !StaysInside(c)))
  {
    hide Parse;
    hide Message;
    hide Sendable;
    hide Admitted;
    hide StaysInside;
    hide HasAs4;
    hide Transitives;
    AttributesArrive(ses, pol, a, p);
    TransitivesAre(a.ecommunity);
  }

  /** A reflected route: who brought it into the AS, and the clusters that it has passed, the own one in front. */
  lemma ReflectionTold(ses: Session, pol: Policy, a: Attr, p: Path)
    requires Sendable(ses, pol, a, p) && Admitted(ses, p) && ses.sort.Ibgp? && pol.reflection.Some?
    ensures Parse(ses, Message(ses, pol, a, p)).Proceed?
    ensures var b, r := Parse(ses, Message(ses, pol, a, p)).st.attr, pol.reflection.value;
            && b.originator == (if ORIGINATOR_ID in a.flags then a.originator else r.from)
            && b.cluster == PutL(r.cluster) + a.cluster && b.localPref == a.localPref
  {
    hide Parse;
    hide Message;
    hide Sendable;
    hide Admitted;
    hide PutL;
    AttributesArrive(ses, pol, a, p);
  }

  /** The multiprotocol nexthop, for each address family. */
  function NexthopFor(pol: Policy, a: Attr): seq<Octet> {
    var rd := if pol.safi == 4 then [0, 0, 0, 0, 0, 0, 0, 0] else [];
    if pol.afi == 1 then rd + PutL(if pol.safi == 2 then a.nexthop else pol.hop.globalIn)
    else rd + pol.hop.global + if pol.safi != 7 && pol.hop.length == 32 then rd + pol.hop.local else []
  }

  lemma HopIs(pol: Policy, a: Attr)
    requires HopSound(pol)
    ensures HopOctets(pol, a) != [] && HopOctets(pol, a)[1..] == NexthopFor(pol, a)
    ensures |NexthopFor(pol, a)| in {32, 48} <==> pol.afi == 2 && pol.safi != 7 && pol.hop.length == 32
    ensures |NexthopFor(pol, a)| in {32, 48} ==> NexthopFor(pol, a)[|NexthopFor(pol, a)| - 16..] == pol.hop.local
  {
    hide PutL;
    var g, rd := pol.hop.global, [0, 0, 0, 0, 0, 0, 0, 0];
    assert g + [] == g && rd + g + [] == rd + g && RD == rd;
    assert [] + PutL(a.nexthop) == PutL(a.nexthop) && [] + PutL(pol.hop.globalIn) == PutL(pol.hop.globalIn);
    assert [] + g + [] == g && [] + g + ([] + pol.hop.local) == g + pol.hop.local;
    assert rd + g + (rd + pol.hop.local) == rd + g + rd + pol.hop.local;
  }

  /** A route that is not plain IPv4: family, nexthop and prefixes; a second nexthop only counts if it is link-local. */
  lemma ReachTold(ses: Session, pol: Policy, a: Attr, p: Path)
    requires Sendable(ses, pol, a, p) && Admitted(ses, p)
    ensures Parse(ses, Message(ses, pol, a, p)).Proceed?
    ensures var b := Parse(ses, Message(ses, pol, a, p)).st.attr;
            if pol.afi == 1 && pol.safi == 1 then b.nexthop == a.nexthop
            else
              && b.reach.Some?
              && var r, l := b.reach.value, pol.hop.local;
                 && r.afi == pol.afi && r.safi == (if pol.safi == 4 then 128 else pol.safi) && r.nlri == pol.nlri
                 && r.nexthop == NexthopFor(pol, a)
                 && r.nexthopLength ==
                    if pol.afi == 2 && pol.safi != 7 && pol.hop.length == 32 && !(l[0] == 0xfe && l[1] / 64 == 2)
                    then 16 else |NexthopFor(pol, a)|
  {
    hide Parse;
    hide Message;
    hide Admitted;
    hide NexthopFor;
    hide HopOctets;
    hide HopSound;
    AttributesArrive(ses, pol, a, p);
    if !Plain(pol) {
      HopKnown(ses, pol, a, p);
      HopIs(pol, a);
    }
    hide Sendable;
  }

  /** Tunnel encapsulation goes with VPN and encapsulation routes only, and not if it is empty or too long. */
  lemma EncapTold(ses: Session, pol: Policy, a: Attr, p: Path)
    requires Sendable(ses, pol, a, p) && Admitted(ses, p)
    ensures Parse(ses, Message(ses, pol, a, p)).Proceed?
    ensures var b := Parse(ses, Message(ses, pol, a, p)).st.attr;
            var told := (pol.afi == 1 || pol.afi == 2) && (pol.safi == 4 || pol.safi == 7)
                        && a.subs != [] && Encap.LengthField(a.subs) < 0x1_0000;
            b.tunnel == (if told then a.tunnel else 0) && b.subs == if told then a.subs else []
  {
    hide Parse;
    hide Message;
    hide Sendable;
    hide Admitted;
    AttributesArrive(ses, pol, a, p);
  }

  // ----- The outgoing path

  lemma {:induction false} DropAll(p: Path)
    ensures var q := DropConfed(p);
            && |q| <= |p| && q == p[|p| - |q|..]
            && (forall i | 0 <= i < |p| - |q| :: p[i].kind.IsConfed())
            && (q == [] || !q[0].kind.IsConfed())
  {
    if p != [] && p[0].kind.IsConfed() {
      DropAll(p[1..]);
      var q := DropConfed(p[1..]);
      assert p[|p| - |q|..] == p[1..][|p[1..]| - |q|..];
      forall i | 0 <= i < |p| - |q|
        ensures p[i].kind.IsConfed()
      {
        assert i > 0 ==> p[i] == p[1..][i - 1];
      }
    }
  }

  /** What aspath_delete_confed_seq takes away: all confederation segments in front, if the first is a sequence. */
  lemma ConfedsDeleted(p: Path)
    ensures var q := DeleteConfedSeq(p);
            && |q| <= |p| && q == p[|p| - |q|..]
            && (forall i | 0 <= i < |p| - |q| :: p[i].kind.IsConfed())
            && (if p != [] && p[0].kind.ConfedSequence? then q == [] || !q[0].kind.IsConfed() else q == p)
  {
    DropAll(p);
  }

  lemma AddedRest(p: Path, a: Asn)
    ensures Rest(AddSeq(p, a)) == AddSeq(p, a)
  {
  }

  lemma AddedTwice(p: Path, a: Asn, b: Asn)
    ensures Meaning(AddSeq(AddSeq(p, a), b)) == [Step(b), Step(a)] + Meaning(Rest(p))
  {
    hide Meaning;
    AddedRest(p, a);
    hide AddSeq;
    AddedInFront(p, a);
    AddedInFront(AddSeq(p, a), b);
    hide Rest;
    assert [Step(b)] + ([Step(a)] + Meaning(Rest(p))) == [Step(b), Step(a)] + Meaning(Rest(p));
  }

  /**
   The path that is sent, hop by hop: to an external neighbour with the AS in front that it knows the sender by,
   behind which the own AS stays visible unless it is replaced, inside a confederation with the member AS, and
   otherwise as it is.
   */
  lemma OutgoingMeans(ses: Session, sp: Speaker, p: Path)
    ensures var m := Meaning(Outgoing(ses, sp, p));
            if ses.sort.Ebgp? && !sp.routeServer && (p == [] || !sp.pathUnchanged) then
              if sp.confederation.Some? then m == [Step(sp.confederation.value)] + Meaning(Rest(DeleteConfedSeq(p)))
              else if sp.changeLocalAs.Some? && !sp.replaceAs then
                m == [Step(sp.changeLocalAs.value), Step(sp.localAs)] + Meaning(Rest(p))
              else
                m == [Step(if sp.changeLocalAs.Some? then sp.changeLocalAs.value else sp.localAs)] + Meaning(Rest(p))
            else if ses.sort.Confed? then
              m == if p != [] && p[0].kind.ConfedSequence? then [Hop.Confed([sp.localAs] + p[0].asns)] + Meaning(p[1..])
                   else [Hop.Confed([sp.localAs])] + Meaning(Rest(p))
            else m == Meaning(p)
  {
    hide AddSeq;
    hide AddAsn;
    hide Meaning;
    hide Rest;
    hide DeleteConfedSeq;
    AddedToConfed(p, sp.localAs);
    AddedInFront(p, sp.localAs);
    if sp.confederation.Some? {
      AddedInFront(DeleteConfedSeq(p), sp.confederation.value);
    }
    if sp.changeLocalAs.Some? {
      AddedInFront(p, sp.changeLocalAs.value);
      AddedTwice(p, sp.localAs, sp.changeLocalAs.value);
    }
  }
}
