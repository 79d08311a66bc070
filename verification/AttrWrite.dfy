/**
 Writing the path attributes into a stream (bgp_packet_attribute in bgpd/bgp_attr.c).
 */
module AttrWrite {
  import opened Lists
  import opened Octets
  import opened AsPath
  import opened AsPathReconcile
  import opened AttrParse
  import opened AttrSend
  import opened Streams
  import Encap
  import W = AsPathWire

  method PutTlv(out: Stream, t: Tlv)
    requires |out.data| + |Raw(t)| <= out.size
    modifies out
    ensures out.data == old(out.data) + Raw(t)
  {
    out.Putc(t.flags);
    out.Putc(t.code);
    if t.Extended() {
      out.Put(PutW(|t.value|));
    } else {
      out.Putc(|t.value| % 256);
    }
    out.Put(t.value);
  }

  /** AS_PATH and AS4_PATH: the length is filled in from what aspath_put says it wrote. */
  method PutPath(out: Stream, flags: Octet, code: Octet, p: Path, wide: bool)
    requires |out.data| + |PathOctets(flags, code, p, wide)| <= out.size
    modifies out
    ensures out.data == old(out.data) + PathOctets(flags, code, p, wide)
  {
    hide W.Wire;
    hide W.Count;
    ghost var start := out.data;
    out.Putc(flags);
    out.Putc(code);
    var sizep := |out.data|;
    out.Put(PutW(0));
    assert out.data == start + [flags, code] + PutW(0);
    var n := W.Put(out, p, wide);
    ghost var before := out.data;
    assert before[..sizep] == start + [flags, code];
    assert before[sizep + 2..] == W.Wire(p, wide);
    out.PutwAt(sizep, n);
    assert out.data == start + [flags, code] + PutW(n) + W.Wire(p, wide);
  }

  method PutHop6(out: Stream, h: Nexthop)
    requires |out.data| + 1 + 16 + (if h.length == 32 then 16 else 0) <= out.size
    modifies out
    ensures out.data == old(out.data) + ([h.length] + (h.global + if h.length == 32 then h.local else []))
  {
    out.Putc(h.length);
    out.Put(h.global);
    if h.length == 32 {
      out.Put(h.local);
    }
  }

  method PutVpnHop6(out: Stream, h: Nexthop)
    requires |out.data| + (if h.length == 16 then 25 else if h.length == 32 then 49 else 0) <= out.size
    modifies out
    ensures out.data == old(out.data) + if h.length == 16 then [24] + (RD + h.global)
                                        else if h.length == 32 then [48] + (RD + h.global + RD + h.local)
                                        else []
  {
    if h.length == 16 {
      out.Putc(24);
      out.Put(RD);
      out.Put(h.global);
    } else if h.length == 32 {
      out.Putc(48);
      out.Put(RD);
      out.Put(h.global);
      out.Put(RD);
      out.Put(h.local);
    }
  }

  /** bgp_packet_mpattr_start: the nexthop, by address family. */
  method PutHop(out: Stream, pol: Policy, a: Attr)
    requires |out.data| + |HopOctets(pol, a)| <= out.size
    modifies out
    ensures out.data == old(out.data) + HopOctets(pol, a)
  {
    hide PutL;
    var h := pol.hop;
    if pol.afi == AFI_IP {
      match pol.safi {
        case 2 =>
          out.Putc(4);
          out.Put(PutL(a.nexthop));
        case 4 =>
          out.Putc(12);
          out.Put(RD);
          out.Put(PutL(h.globalIn));
        case 7 =>
          out.Putc(4);
          out.Put(PutL(h.globalIn));
        case _ =>
      }
    } else if pol.afi == AFI_IP6 {
      match pol.safi {
        case 1 => PutHop6(out, h);
        case 2 => PutHop6(out, h);
        case 4 => PutVpnHop6(out, h);
        case 7 =>
          out.Putc(16);
          out.Put(h.global);
        case _ =>
      }
    }
  }

  method PutReachValue(out: Stream, pol: Policy, a: Attr)
    requires |out.data| + |ReachTlv(pol, a).value| <= out.size
    modifies out
    ensures out.data == old(out.data) + ReachTlv(pol, a).value
  {
    hide PutW;
    hide HopOctets;
    ghost var start, afi, safi, hop := out.data, PutW(pol.afi), WireSafi(pol.safi), HopOctets(pol, a);
    out.Put(PutW(pol.afi));
    out.Putc(WireSafi(pol.safi));
    Assoc(start, afi, [safi]);
    PutHop(out, pol, a);
    Assoc(start, afi + [safi], hop);
    out.Putc(0);
    Assoc(start, afi + [safi] + hop, [0]);
    out.Put(pol.nlri);
    Assoc(start, afi + [safi] + hop + [0], pol.nlri);
  }

  lemma FilledIn(front: seq<Octet>, w: seq<Octet>, w': seq<Octet>, value: seq<Octet>)
    ensures var b := front + w + value;
            b[..|front|] + w' + b[|front| + |w|..] == front + w' + value
  {
    var b := front + w + value;
    assert b[..|front|] == front && b[|front| + |w|..] == value;
  }

  /** MP_REACH_NLRI: the length is filled in when all is written. */
  method PutReach(out: Stream, pol: Policy, a: Attr)
    requires |out.data| + |Raw(ReachTlv(pol, a))| <= out.size
    modifies out
    ensures out.data == old(out.data) + Raw(ReachTlv(pol, a))
  {
    hide PutW;
    hide HopOctets;
    ghost var start, value := out.data, ReachTlv(pol, a).value;
    var head: seq<Octet> := [OPTIONAL + EXTENDED, MP_REACH];
    assert Raw(ReachTlv(pol, a)) == head + PutW(|value|) + value;
    out.Put(head);
    var sizep := |out.data|;
    out.Put(PutW(0));
    PutReachValue(out, pol, a);
    FilledIn(start + head, PutW(0), PutW(|value|), value);
    out.PutwAt(sizep, |out.data| - sizep - 2);
    Assoc(start, head, PutW(|value|));
    Assoc(start, head + PutW(|value|), value);
  }

  /** Write attribute `c`, if it is sent. */
  method PutCode(out: Stream, ses: Session, pol: Policy, a: Attr, p: Path, c: Octet)
    requires c <= ENCAP && |out.data| + |WrittenFrom(ses, pol, a, p, c)| <= out.size
    modifies out
    ensures out.data + WrittenFrom(ses, pol, a, p, c + 1) == old(out.data) + WrittenFrom(ses, pol, a, p, c)
  {
    hide Raw;
    hide PathOctets;
    hide CodeSent;
    hide TlvFor;
    hide Encap.EncodeAttribute;
    ghost var start, rest := out.data, WrittenFrom(ses, pol, a, p, c + 1);
    if SentInOrder(ses, pol, a, p, c) {
      if c == AS_PATH {
        PutPath(out, TRANS + EXTENDED, c, p, ses.as4);
      } else if c == AS4_PATH {
        PutPath(out, OPTIONAL_TRANS + EXTENDED, c, DeleteConfedSeq(p), true);
      } else if c == ENCAP {
        Encap.PutAttribute(out, a.tunnel, a.subs);
      } else {
        PutTlv(out, TlvFor(ses, pol, a, p, c));
      }
      Assoc(start, OctetsFor(ses, pol, a, p, c), rest);
    } else {
      assert [] + rest == rest;
    }
  }

  predicate Gap(c: Octet) {
    CLUSTER_LIST < c < EXT_COMMUNITIES || AS4_AGGREGATOR < c < ENCAP
  }

  /** Codes 11 to 15 and 19 to 22 are not written here. */
  lemma NotSent(ses: Session, pol: Policy, a: Attr, p: Path, c: Octet)
    requires Gap(c)
    ensures !SentInOrder(ses, pol, a, p, c)
  {
    hide SendsExtCommunity;
    hide SendsAs4Path;
    hide SendsEncap;
  }

  lemma {:induction false} WrittenGap(ses: Session, pol: Policy, a: Attr, p: Path, c: Octet, d: Octet)
    requires c <= d && (forall e: Octet | c <= e < d :: Gap(e))
    ensures WrittenFrom(ses, pol, a, p, c) == WrittenFrom(ses, pol, a, p, d)
    decreases d - c
  {
    hide OctetsFor;
    hide SentInOrder;
    if c < d {
      WrittenGap(ses, pol, a, p, c + 1, d);
      NotSent(ses, pol, a, p, c);
      var rest := WrittenFrom(ses, pol, a, p, c + 1);
      assert [] + rest == rest;
    }
  }

  /** bgp_packet_attribute: whatever the attributes are, with room for it, exactly the message is written. */
  method PutAttributes(out: Stream, ses: Session, pol: Policy, a: Attr, p: Path)
    requires |out.data| + |Message(ses, pol, a, p)| <= out.size
    modifies out
    ensures out.data == old(out.data) + Message(ses, pol, a, p)
  {
    WrittenGap(ses, pol, a, p, CLUSTER_LIST + 1, EXT_COMMUNITIES);
    WrittenGap(ses, pol, a, p, AS4_AGGREGATOR + 1, ENCAP);
    ghost var start, reach, all := out.data, ReachOctets(pol, a), WrittenFrom(ses, pol, a, p, ORIGIN);
    assert WrittenFrom(ses, pol, a, p, ENCAP + 1) == [];
    hide WrittenFrom;
    hide Raw;
    if !Plain(pol) {
      PutReach(out, pol, a);
    }
    assert out.data == start + reach;
    hide ReachOctets;
    PutCode(out, ses, pol, a, p, ORIGIN);
    PutCode(out, ses, pol, a, p, AS_PATH);
    PutCode(out, ses, pol, a, p, NEXT_HOP);
    PutCode(out, ses, pol, a, p, MED);
    PutCode(out, ses, pol, a, p, LOCAL_PREF);
    PutCode(out, ses, pol, a, p, ATOMIC_AGGREGATE);
    PutCode(out, ses, pol, a, p, AGGREGATOR);
    PutCode(out, ses, pol, a, p, COMMUNITIES);
    PutCode(out, ses, pol, a, p, ORIGINATOR_ID);
    PutCode(out, ses, pol, a, p, CLUSTER_LIST);
    PutCode(out, ses, pol, a, p, EXT_COMMUNITIES);
    PutCode(out, ses, pol, a, p, AS4_PATH);
    PutCode(out, ses, pol, a, p, AS4_AGGREGATOR);
    PutCode(out, ses, pol, a, p, ENCAP);
    assert out.data == start + reach + all;
    Assoc(start, reach, all);
    Assoc(start, reach + all, a.transit);
    out.Put(a.transit);
  }
}
