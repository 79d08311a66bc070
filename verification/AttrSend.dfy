/**
 The path attributes of an UPDATE as octets (bgp_packet_attribute in bgpd/bgp_attr.c), for all address
 families, and what the parser stores when it reads them.
 */
module AttrSend {
  import opened Lists
  import opened Octets
  import opened Options
  import opened Sorting
  import opened AsPath
  import opened AsPathAggregate
  import opened AsPathReconcile
  import opened AttrParse
  import Encap
  import W = AsPathWire

  const TRANS: Octet := 64
  const OPTIONAL: Octet := 128
  const OPTIONAL_TRANS: Octet := 192
  const EXTENDED: Octet := 16

  /** A route that goes from one internal neighbour to another: who sent it, and the cluster it passes through. */
  datatype Reflection = Reflection(from: Quad, cluster: Quad)

  /** An IPv6 address. */
  type Address = s: seq<Octet> | |s| == 16 witness [0, 0, 0, 0, 0, 0, 0, 0, 0, 0, 0, 0, 0, 0, 0, 0]

  /** The multiprotocol nexthop of the route: the mp_nexthop fields of struct attr_extra. */
  datatype Nexthop = Nexthop(length: Octet, global: Address, local: Address, globalIn: Quad)

  const AFI_IP: Encap.Word := 1
  const AFI_IP6: Encap.Word := 2
  const SAFI_UNICAST: Octet := 1
  const SAFI_MULTICAST: Octet := 2
  const SAFI_MPLS_VPN: Octet := 4
  const SAFI_ENCAP: Octet := 7
  const SAFI_MPLS_LABELED_VPN: Octet := 128

  /**
   What else decides about the message: the address family with the nexthop and the prefixes that go with it, which
   communities the neighbour gets, and whether it is a reflection.
   */
  datatype Policy = Policy(afi: Encap.Word, safi: Octet, hop: Nexthop, nlri: seq<Octet>,
                           community: bool, extCommunity: bool, reflection: Option<Reflection>)

  /** IPv4 unicast routes have their prefixes outside the attributes. */
  predicate Plain(pol: Policy) { pol.afi == AFI_IP && pol.safi == SAFI_UNICAST }

  function EncodeQuads(cs: seq<nat>): (b: seq<Octet>)
    ensures |b| == 4 * |cs|
  {
    if cs == [] then [] else PutL(cs[0]) + EncodeQuads(cs[1..])
  }

  function EncodeOctals(cs: seq<nat>): (b: seq<Octet>)
    ensures |b| == 8 * |cs|
  {
    if cs == [] then []
    else PutL(cs[0] / 0x1_0000_0000) + PutL(cs[0] % 0x1_0000_0000) + EncodeOctals(cs[1..])
  }

  /** ECOMMUNITY_FLAG_NON_TRANSITIVE is bit 6 of the first octet. */
  predicate NonTransitive(c: nat) {
    c / 0x4000_0000_0000_0000 % 2 == 1
  }

  function Transitives(cs: seq<nat>): seq<nat> {
    if cs == [] then []
    else if NonTransitive(cs[0]) then Transitives(cs[1..])
    else [cs[0]] + Transitives(cs[1..])
  }

  /** The extended communities that the neighbour is to see. */
  function Shown(tx: Session, cs: seq<nat>): seq<nat> {
    if tx.sort.Ibgp? || tx.sort.Confed? then cs else Transitives(cs)
  }

  function Sized(flags: Octet, code: Octet, value: seq<Octet>): Tlv
    requires flags <= 239
  {
    Tlv(if |value| > 255 then flags + EXTENDED else flags, code, value)
  }

  // ----- The attributes, one by one

  function OriginTlv(a: Attr): Tlv { Tlv(TRANS, ORIGIN, [a.origin]) }
  function PathTlv(tx: Session, p: Path): Tlv { Tlv(TRANS + EXTENDED, AS_PATH, W.Wire(p, tx.as4)) }
  function NexthopTlv(a: Attr): Tlv { Tlv(TRANS, NEXT_HOP, PutL(a.nexthop)) }
  function MedTlv(a: Attr): Tlv { Tlv(OPTIONAL, MED, PutL(a.med)) }
  function LocalPrefTlv(a: Attr): Tlv { Tlv(TRANS, LOCAL_PREF, PutL(a.localPref)) }
  function AtomicTlv(): Tlv { Tlv(TRANS, ATOMIC_AGGREGATE, []) }

  function AggregatorTlv(tx: Session, a: Attr): Tlv {
    var asn := if tx.as4 then PutL(a.aggregator)
               else PutW(if a.aggregator > AS_MAX then AS_TRANS else a.aggregator);
    Tlv(OPTIONAL_TRANS, AGGREGATOR, asn + PutL(a.aggregatorAddr))
  }

  function CommunityTlv(a: Attr): Tlv { Sized(OPTIONAL_TRANS, COMMUNITIES, EncodeQuads(a.community)) }

  function OriginatorTlv(r: Reflection, a: Attr): Tlv {
    Tlv(OPTIONAL, ORIGINATOR_ID, PutL(if ORIGINATOR_ID in a.flags then a.originator else r.from))
  }

  function ClusterTlv(r: Reflection, a: Attr): Tlv { Tlv(OPTIONAL, CLUSTER_LIST, PutL(r.cluster) + a.cluster) }

  function ExtCommunityTlv(tx: Session, a: Attr): Tlv {
    Sized(OPTIONAL_TRANS, EXT_COMMUNITIES, EncodeOctals(Shown(tx, a.ecommunity)))
  }

  function As4PathTlv(p: Path): Tlv { Tlv(OPTIONAL_TRANS + EXTENDED, AS4_PATH, W.Wire(p, true)) }

  function As4AggregatorTlv(a: Attr): Tlv {
    Tlv(OPTIONAL_TRANS, AS4_AGGREGATOR, PutL(a.aggregator) + PutL(a.aggregatorAddr))
  }

  const RD: seq<Octet> := [0, 0, 0, 0, 0, 0, 0, 0]

  /** The nexthop of MP_REACH_NLRI with its length, as far as there is one for the address family. */
  function HopOctets(pol: Policy, a: Attr): seq<Octet> {
    var h := pol.hop;
    if pol.afi == AFI_IP then
      if pol.safi == SAFI_MULTICAST then [4] + PutL(a.nexthop)
      else if pol.safi == SAFI_MPLS_VPN then [12] + (RD + PutL(h.globalIn))
      else if pol.safi == SAFI_ENCAP then [4] + PutL(h.globalIn)
      else []
    else if pol.afi == AFI_IP6 then
      if pol.safi == SAFI_UNICAST || pol.safi == SAFI_MULTICAST then
        [h.length] + (h.global + if h.length == 32 then h.local else [])
      else if pol.safi == SAFI_MPLS_VPN then
        if h.length == 16 then [24] + (RD + h.global)
        else if h.length == 32 then [48] + (RD + h.global + RD + h.local)
        else []
      else if pol.safi == SAFI_ENCAP then [16] + h.global
      else []
    else []
  }

  function WireSafi(safi: Octet): Octet { if safi == SAFI_MPLS_VPN then SAFI_MPLS_LABELED_VPN else safi }

  /** bgp_packet_mpattr_start, the prefixes, and bgp_packet_mpattr_end */
  function ReachTlv(pol: Policy, a: Attr): Tlv {
    Tlv(OPTIONAL + EXTENDED, MP_REACH,
        PutW(pol.afi) + [WireSafi(pol.safi)] + HopOctets(pol, a) + [0] + pol.nlri)
  }

  // ----- The attributes, in order

  predicate SendsLocalPref(tx: Session) { tx.sort.Ibgp? || tx.sort.Confed? }
  predicate SendsCommunity(pol: Policy, a: Attr) { pol.community && COMMUNITIES in a.flags }
  predicate Reflects(tx: Session, pol: Policy) { tx.sort.Ibgp? && pol.reflection.Some? }
  predicate SendsExtCommunity(tx: Session, pol: Policy, a: Attr) {
    pol.extCommunity && EXT_COMMUNITIES in a.flags && (SendsLocalPref(tx) || Transitives(a.ecommunity) != [])
  }
  predicate SendsAs4Path(tx: Session, p: Path) { !tx.as4 && HasAs4(p) }
  predicate SendsEncap(pol: Policy, a: Attr) {
    && pol.afi in {AFI_IP, AFI_IP6} && pol.safi in {SAFI_ENCAP, SAFI_MPLS_VPN}
    && a.subs != [] && Encap.LengthField(a.subs) <= 65535
  }
  predicate SendsAs4Aggregator(tx: Session, a: Attr) {
    !tx.as4 && AGGREGATOR in a.flags && a.aggregator > AS_MAX
  }

  /** Whether a route with attributes `a` and outgoing path `p` is sent with attribute `c`. */
  predicate CodeSent(tx: Session, pol: Policy, a: Attr, p: Path, c: Octet) {
    match c
    case 1 => true
    case 2 => true
    case 3 => Plain(pol) && NEXT_HOP in a.flags
    case 5 => SendsLocalPref(tx)
    case 8 => SendsCommunity(pol, a)
    case 9 => Reflects(tx, pol)
    case 10 => Reflects(tx, pol)
    case 14 => !Plain(pol)
    case 16 => SendsExtCommunity(tx, pol, a)
    case 17 => SendsAs4Path(tx, p)
    case 18 => SendsAs4Aggregator(tx, a)
    case 23 => SendsEncap(pol, a)
    case _ => c in {MED, ATOMIC_AGGREGATE, AGGREGATOR} && c in a.flags
  }

  /** The attribute `c`, if it is sent. */
  function TlvFor(tx: Session, pol: Policy, a: Attr, p: Path, c: Octet): Tlv {
    match c
    case 1 => OriginTlv(a)
    case 2 => PathTlv(tx, p)
    case 3 => NexthopTlv(a)
    case 4 => MedTlv(a)
    case 5 => LocalPrefTlv(a)
    case 6 => AtomicTlv()
    case 7 => AggregatorTlv(tx, a)
    case 8 => CommunityTlv(a)
    case 9 => if pol.reflection.Some? then OriginatorTlv(pol.reflection.value, a) else AtomicTlv()
    case 10 => if pol.reflection.Some? then ClusterTlv(pol.reflection.value, a) else AtomicTlv()
    case 14 => ReachTlv(pol, a)
    case 16 => ExtCommunityTlv(tx, a)
    case 17 => As4PathTlv(DeleteConfedSeq(p))
    case 23 => EncapTlv(a.tunnel, a.subs)
    case _ => As4AggregatorTlv(a)
  }

  /** MP_REACH_NLRI comes first, whatever its code. */
  predicate SentInOrder(tx: Session, pol: Policy, a: Attr, p: Path, c: Octet) {
    c != MP_REACH && CodeSent(tx, pol, a, p, c)
  }

  /** The others are written in ascending order of code. */
  function Pick(tx: Session, pol: Policy, a: Attr, p: Path, from: Octet): seq<Tlv>
    decreases ENCAP - from
  {
    if from > ENCAP then []
    else
      var rest := Pick(tx, pol, a, p, from + 1);
      if SentInOrder(tx, pol, a, p, from) then [TlvFor(tx, pol, a, p, from)] + rest else rest
  }

  function Reaching(pol: Policy, a: Attr): seq<Tlv> {
    if Plain(pol) then [] else [ReachTlv(pol, a)]
  }

  /** The attributes of the message, before the unknown ones that are passed on. */
  function Attributes(tx: Session, pol: Policy, a: Attr, p: Path): seq<Tlv> {
    Reaching(pol, a) + Pick(tx, pol, a, p, ORIGIN)
  }

  // ----- What is written, whatever the attributes are

  /** Flags, code, length and value, with the length cut to the octets it has. */
  function Raw(t: Tlv): seq<Octet> {
    [t.flags, t.code] + (if t.Extended() then PutW(|t.value|) else [|t.value| % 256]) + t.value
  }

  /** AS_PATH and AS4_PATH have the length that aspath_put returns. */
  function PathOctets(flags: Octet, code: Octet, p: Path, wide: bool): seq<Octet> {
    [flags, code] + PutW(W.Count(p, wide)) + W.Wire(p, wide)
  }

  function OctetsFor(tx: Session, pol: Policy, a: Attr, p: Path, c: Octet): seq<Octet> {
    if c == AS_PATH then PathOctets(TRANS + EXTENDED, AS_PATH, p, tx.as4)
    else if c == AS4_PATH then PathOctets(OPTIONAL_TRANS + EXTENDED, AS4_PATH, DeleteConfedSeq(p), true)
    else if c == ENCAP then Encap.EncodeAttribute(a.tunnel, a.subs)
    else Raw(TlvFor(tx, pol, a, p, c))
  }

  /** What is written from attribute `c` on. */
  function WrittenFrom(tx: Session, pol: Policy, a: Attr, p: Path, c: Octet): seq<Octet>
    decreases ENCAP - c
  {
    if c > ENCAP then []
    else
      (if SentInOrder(tx, pol, a, p, c) then OctetsFor(tx, pol, a, p, c) else []) + WrittenFrom(tx, pol, a, p, c + 1)
  }

  function ReachOctets(pol: Policy, a: Attr): seq<Octet> {
    if Plain(pol) then [] else Raw(ReachTlv(pol, a))
  }

  /** The octets of the message: the attributes in order, and the unknown ones that are passed on. */
  function Message(tx: Session, pol: Policy, a: Attr, p: Path): seq<Octet> {
    ReachOctets(pol, a) + WrittenFrom(tx, pol, a, p, ORIGIN) + a.transit
  }

  // ----- What can be sent faithfully

  predicate AllBelow(cs: seq<nat>, limit: nat) {
    cs == [] || (cs[0] < limit && AllBelow(cs[1..], limit))
  }

  predicate Communities(cs: seq<nat>, limit: nat) {
    cs != [] && Strict(cs) && AllBelow(cs, limit)
  }

  /** A path that the wire format carries unharmed. */
  predicate Carried(p: Path, wide: bool) {
    IsNormal(p) && NoEmptySegment(p) && W.InRange(p) && |W.Wire(p, wide)| < 65536
  }

  /** The address family is one of those with a nexthop, and this has a length for which it is written whole. */
  predicate HopSound(pol: Policy) {
    if pol.afi == AFI_IP then pol.safi in {SAFI_MULTICAST, SAFI_MPLS_VPN, SAFI_ENCAP}
    else
      && pol.afi == AFI_IP6
      && (pol.safi == SAFI_ENCAP
          || (pol.safi in {SAFI_UNICAST, SAFI_MULTICAST, SAFI_MPLS_VPN} && pol.hop.length in {16, 32}))
  }

  /** Attributes that the message can carry, except that the cluster list may be too long for its length octet. */
  predicate Presentable(tx: Session, pol: Policy, a: Attr, p: Path) {
    && a.origin <= 2
    && (if Plain(pol) then NEXT_HOP in a.flags && !Martian(a.nexthop)
        else HopSound(pol) && pol.nlri != [] && |ReachTlv(pol, a).value| < 65536)
    && (SendsEncap(pol, a) ==> Encap.FitsOctets(a.subs) && Encap.LongEnd(a.subs))
    && (SendsCommunity(pol, a) ==> Communities(a.community, 0x1_0000_0000) && 4 * |a.community| < 65536)
    && (SendsExtCommunity(tx, pol, a) ==>
          Communities(a.ecommunity, 0x1_0000_0000_0000_0000) && 8 * |Shown(tx, a.ecommunity)| < 65536)
    && TransitRight(a.transit)
    && (Reflects(tx, pol) ==> |a.cluster| % 4 == 0)
    && NoConfed(DeleteConfedSeq(p))
    && Carried(p, tx.as4)
    && (SendsAs4Path(tx, p) ==> Carried(DeleteConfedSeq(p), true))
  }

  predicate ClustersFit(tx: Session, pol: Policy, a: Attr) {
    Reflects(tx, pol) ==> |a.cluster| + 4 < 256
  }

  predicate Sendable(tx: Session, pol: Policy, a: Attr, p: Path) {
    Presentable(tx, pol, a, p) && ClustersFit(tx, pol, a)
  }

  // ----- Each attribute is read back

  lemma {:induction false} QuadsBack(cs: seq<nat>)
    requires AllBelow(cs, 0x1_0000_0000)
    ensures DecodeQuads(EncodeQuads(cs)) == cs
  {
    if cs != [] {
      GetPutL(cs[0], EncodeQuads(cs[1..]));
      assert EncodeQuads(cs)[4..] == EncodeQuads(cs[1..]);
      QuadsBack(cs[1..]);
    }
  }

  lemma {:induction false} OctalsBack(cs: seq<nat>)
    requires AllBelow(cs, 0x1_0000_0000_0000_0000)
    ensures DecodeOctals(EncodeOctals(cs)) == cs
  {
    if cs != [] {
      var high, low, rest := cs[0] / 0x1_0000_0000, cs[0] % 0x1_0000_0000, EncodeOctals(cs[1..]);
      var b := EncodeOctals(cs);
      Assoc(PutL(high), PutL(low), rest);
      GetPutL(high, PutL(low) + rest);
      GetPutL(low, rest);
      assert b[4..] == PutL(low) + rest && b[8..] == rest;
      OctalsBack(cs[1..]);
    }
  }

  lemma {:induction false} TransitivesStrict(cs: seq<nat>)
    requires Strict(cs)
    ensures Strict(Transitives(cs))
    ensures forall c | c in Transitives(cs) :: c in cs
    ensures forall limit | AllBelow(cs, limit) :: AllBelow(Transitives(cs), limit)
  {
    if cs != [] {
      TransitivesStrict(cs[1..]);
      StrictHead(cs);
      var rest := Transitives(cs[1..]);
      assert ([cs[0]] + rest)[1..] == rest;
      assert rest != [] ==> rest[0] in rest;
    }
  }

  lemma PlainFlagged(rx: Session, a: Attr)
    ensures a.origin <= 2 ==> Flagged(rx, OriginTlv(a))
    ensures !Martian(a.nexthop) ==> Flagged(rx, NexthopTlv(a))
    ensures Flagged(rx, MedTlv(a)) && Flagged(rx, AtomicTlv())
    ensures !rx.sort.Ebgp? ==> Flagged(rx, LocalPrefTlv(a))
  {
    hide GetL;
    hide PutL;
    assert PutL(a.nexthop) + [] == PutL(a.nexthop);
    GetPutL(a.nexthop, []);
  }

  lemma AggregatorFlagged(rx: Session, a: Attr)
    ensures Flagged(rx, AggregatorTlv(rx, a)) && Flagged(rx, As4AggregatorTlv(a))
  {
    hide GetL;
    hide PutL;
    hide GetW;
    hide PutW;
  }

  lemma PathFlagged(rx: Session, p: Path)
    requires Carried(p, rx.as4)
    ensures Flagged(rx, PathTlv(rx, p))
  {
    hide W.Wire;
    hide W.Parse;
    hide W.InRange;
    hide IsNormal;
    hide NoEmptySegment;
    hide Normalise;
    hide W.NarrowPath;
    W.WireRoundTrip(p, rx.as4);
  }

  lemma As4PathFlagged(rx: Session, p: Path)
    requires Carried(p, true)
    ensures Flagged(rx, As4PathTlv(p))
  {
    hide W.Wire;
    hide W.Parse;
    hide W.InRange;
    hide IsNormal;
    hide NoEmptySegment;
    hide Normalise;
    hide W.NarrowPath;
    W.WireRoundTrip(p, true);
  }

  lemma CommunityFlagged(rx: Session, a: Attr)
    requires a.community != [] && 4 * |a.community| < 65536
    ensures Flagged(rx, CommunityTlv(a))
  {
    hide EncodeQuads;
    hide SortUniq;
    hide DecodeQuads;
    assert |EncodeQuads(a.community)| == 4 * |a.community|;
  }

  lemma ReflectionFlagged(rx: Session, r: Reflection, a: Attr)
    ensures Flagged(rx, OriginatorTlv(r, a))
    ensures |a.cluster| % 4 == 0 && |a.cluster| + 4 < 256 ==> Flagged(rx, ClusterTlv(r, a))
  {
    hide GetL;
    hide PutL;
  }

  /** What MP_REACH_NLRI says: of two IPv6 nexthops the second counts only if it is link-local. */
  function Reached(pol: Policy, a: Attr): Reach
    requires HopSound(pol)
  {
    var h := HopOctets(pol, a)[1..];
    Reach(pol.afi, WireSafi(pol.safi),
          if |h| in {32, 48} && !LinkLocal(h[|h| - 16..]) then 16 else |h|, h, pol.nlri)
  }

  lemma HopFramed(pol: Policy, a: Attr)
    requires HopSound(pol)
    ensures var h := HopOctets(pol, a);
            h != [] && h[0] == |h| - 1 && |h| - 1 in {4, 12, 16, 24, 32, 48}
  {
    hide PutL;
  }

  lemma ReachFramed(front: seq<Octet>, h: seq<Octet>, nlri: seq<Octet>)
    requires |front| == 3 && h != []
    ensures var v := front + h + [0] + nlri;
            && |v| == 4 + |h| + |nlri| && v[2] == front[2] && v[3] == h[0]
            && v[4..3 + |h|] == h[1..] && v[4 + |h|..] == nlri && v[..2] == front[..2]
  {
    var v := front + h + [0] + nlri;
    assert v == front + (h + ([0] + nlri));
  }

  lemma ReachBack(pol: Policy, a: Attr)
    requires HopSound(pol) && pol.nlri != []
    ensures ReachOf(ReachTlv(pol, a).value) == Some(Reached(pol, a))
  {
    HopFramed(pol, a);
    var h := HopOctets(pol, a);
    hide HopOctets;
    hide PutW;
    hide GetW;
    hide LinkLocal;
    var w, v := PutW(pol.afi), ReachTlv(pol, a).value;
    ReachFramed(w + [WireSafi(pol.safi)], h, pol.nlri);
    GetPutW(pol.afi, v[2..]);
    assert v[..2] == w && v == v[..2] + v[2..];
  }

  lemma ReachTaken(rx: Session, value: seq<Octet>)
    requires |value| < 65536 && ReachOf(value).Some?
    ensures Flagged(rx, Tlv(OPTIONAL + EXTENDED, MP_REACH, value))
  {
    hide ReachOf;
  }

  lemma ReachFlagged(rx: Session, pol: Policy, a: Attr)
    requires HopSound(pol) && pol.nlri != [] && |ReachTlv(pol, a).value| < 65536
    ensures Flagged(rx, ReachTlv(pol, a))
  {
    hide ReachOf;
    hide HopOctets;
    hide Flagged;
    hide Reached;
    ReachBack(pol, a);
    ReachTaken(rx, ReachTlv(pol, a).value);
  }

  lemma EncapAccepted(rx: Session, a: Attr)
    requires a.subs != [] && Encap.LengthField(a.subs) <= 65535
    requires Encap.FitsOctets(a.subs) && Encap.LongEnd(a.subs)
    ensures var t := EncapTlv(a.tunnel, a.subs);
            && Acceptable(rx, t) && !Flagged(rx, t)
            && Encap.ParseValue(t.value) == Some((a.tunnel, a.subs))
            && Encap.EncodeAttribute(a.tunnel, a.subs) == EncodeTlv(t)
  {
    hide Encap.ParseValue;
    hide Encap.EncodeValue;
    hide EncodeTlv;
    var t := EncapTlv(a.tunnel, a.subs);
    EncapIsTlv(a.tunnel, a.subs);
    Encap.ValueRoundTripIff(a.tunnel, a.subs);
    EncapTaken(rx, t, START);
  }

  lemma ExtCommunityFlagged(rx: Session, a: Attr)
    requires Shown(rx, a.ecommunity) != [] && 8 * |Shown(rx, a.ecommunity)| < 65536
    ensures Flagged(rx, ExtCommunityTlv(rx, a))
  {
    hide EncodeOctals;
    hide SortUniq;
    hide DecodeOctals;
    hide Shown;
    assert |EncodeOctals(Shown(rx, a.ecommunity))| == 8 * |Shown(rx, a.ecommunity)|;
  }

  // ----- The whole message

  lemma {:induction false} RangeAtMost510(p: Path)
    requires W.InRange(p)
    ensures W.AtMost510(p)
  {
    if p != [] {
      RangeAtMost510(p[1..]);
    }
  }

  lemma PathWritten(flags: Octet, code: Octet, p: Path, wide: bool)
    requires Carried(p, wide) && flags / 16 % 2 == 1
    ensures var t := Tlv(flags, code, W.Wire(p, wide));
            t.Encodable() && PathOctets(flags, code, p, wide) == EncodeTlv(t)
  {
    hide W.Wire;
    hide W.Count;
    RangeAtMost510(p);
    W.CountIff(p, wide);
  }

  lemma RawIs(t: Tlv)
    requires t.Encodable()
    ensures Raw(t) == EncodeTlv(t)
  {
  }

  lemma FlaggedAcceptable(ses: Session, t: Tlv)
    requires Flagged(ses, t)
    ensures Acceptable(ses, t) && t.Encodable()
  {
  }

  lemma SentFlagged(ses: Session, pol: Policy, a: Attr, p: Path, c: Octet)
    requires Presentable(ses, pol, a, p) && CodeSent(ses, pol, a, p, c)
    requires c == CLUSTER_LIST ==> ClustersFit(ses, pol, a)
    ensures var t := TlvFor(ses, pol, a, p, c);
            && Acceptable(ses, t) && (Flagged(ses, t) <==> c != ENCAP) && t.code == c
            && OctetsFor(ses, pol, a, p, c) == EncodeTlv(t)
    ensures ORIGIN <= c <= ENCAP && Known(c)
  {
    hide Flagged;
    hide Carried;
    hide HasAs4;
    hide Transitives;
    hide W.Wire;
    hide W.Count;
    hide HopOctets;
    hide Encap.EncodeAttribute;
    hide Encap.EncodeValue;
    hide One;
    hide Raw;
    hide EncodeTlv;
    hide PathOctets;
    match c {
      case 2 =>
        PathFlagged(ses, p);
        PathWritten(TRANS + EXTENDED, AS_PATH, p, ses.as4);
      case 7 => AggregatorFlagged(ses, a);
      case 8 => CommunityFlagged(ses, a);
      case 9 => ReflectionFlagged(ses, pol.reflection.value, a);
      case 10 => ReflectionFlagged(ses, pol.reflection.value, a);
      case 14 => ReachFlagged(ses, pol, a);
      case 16 => ExtCommunityFlagged(ses, a);
      case 17 =>
        As4PathFlagged(ses, DeleteConfedSeq(p));
        PathWritten(OPTIONAL_TRANS + EXTENDED, AS4_PATH, DeleteConfedSeq(p), true);
      case 18 => AggregatorFlagged(ses, a);
      case 23 => EncapAccepted(ses, a);
      case _ => PlainFlagged(ses, a);
    }
    if c != ENCAP {
      FlaggedAcceptable(ses, TlvFor(ses, pol, a, p, c));
      RawIs(TlvFor(ses, pol, a, p, c));
    }
  }

  /** The picked attributes are those sent, each once. */
  lemma {:induction false} PickFlagged(ses: Session, pol: Policy, a: Attr, p: Path, from: Octet)
    requires Sendable(ses, pol, a, p)
    ensures var ts := Pick(ses, pol, a, p, from);
            && AllEncodable(ts) && NoDup(Codes(ts))
            && (forall t | t in ts :: Acceptable(ses, t))
            && (forall c | c in Codes(ts) :: c >= from && SentInOrder(ses, pol, a, p, c))
            && (forall c: Octet | c >= from && SentInOrder(ses, pol, a, p, c) :: TlvFor(ses, pol, a, p, c) in ts)
    decreases ENCAP - from
  {
    hide Presentable;
    hide ClustersFit;
    hide CodeSent;
    hide TlvFor;
    hide OctetsFor;
    hide One;
    hide Known;
    hide EncodeTlv;
    forall c: Octet | CodeSent(ses, pol, a, p, c)
      ensures c <= ENCAP
    {
      SentFlagged(ses, pol, a, p, c);
    }
    if from <= ENCAP {
      var rest := Pick(ses, pol, a, p, from + 1);
      PickFlagged(ses, pol, a, p, from + 1);
      if SentInOrder(ses, pol, a, p, from) {
        SentFlagged(ses, pol, a, p, from);
        var t := TlvFor(ses, pol, a, p, from);
        assert ([t] + rest)[1..] == rest;
        NoDupPrepend(Codes(rest), from);
      }
    }
  }

  /** So are the attributes of the message. */
  lemma AttributesSent(ses: Session, pol: Policy, a: Attr, p: Path)
    requires Sendable(ses, pol, a, p)
    ensures var ts := Attributes(ses, pol, a, p);
            && AllEncodable(ts) && NoDup(Codes(ts))
            && (forall t | t in ts :: Acceptable(ses, t))
            && (forall c | c in Codes(ts) :: CodeSent(ses, pol, a, p, c))
            && (forall c: Octet | CodeSent(ses, pol, a, p, c) :: TlvFor(ses, pol, a, p, c) in ts)
  {
    hide Presentable;
    hide ClustersFit;
    hide OctetsFor;
    hide ReachTlv;
    hide One;
    hide Known;
    hide EncodeTlv;
    hide Pick;
    PickFlagged(ses, pol, a, p, ORIGIN);
    var ts := Pick(ses, pol, a, p, ORIGIN);
    assert CodeSent(ses, pol, a, p, MP_REACH) <==> !Plain(pol);
    assert TlvFor(ses, pol, a, p, MP_REACH) == ReachTlv(pol, a);
    forall c: Octet | CodeSent(ses, pol, a, p, c)
      ensures c >= ORIGIN
    {
      SentFlagged(ses, pol, a, p, c);
    }
    hide CodeSent;
    hide TlvFor;
    if Plain(pol) {
      assert [] + ts == ts;
    } else {
      SentFlagged(ses, pol, a, p, MP_REACH);
      var t := ReachTlv(pol, a);
      assert ([t] + ts)[1..] == ts;
      NoDupPrepend(Codes(ts), MP_REACH);
    }
  }

  lemma {:induction false} WrittenIs(ses: Session, pol: Policy, a: Attr, p: Path, c: Octet)
    requires Sendable(ses, pol, a, p)
    ensures AllEncodable(Pick(ses, pol, a, p, c))
    ensures WrittenFrom(ses, pol, a, p, c) == Join(Pick(ses, pol, a, p, c))
    decreases ENCAP - c
  {
    hide CodeSent;
    hide TlvFor;
    hide OctetsFor;
    hide Presentable;
    hide ClustersFit;
    hide One;
    hide EncodeTlv;
    if c <= ENCAP {
      WrittenIs(ses, pol, a, p, c + 1);
      var rest := Pick(ses, pol, a, p, c + 1);
      if SentInOrder(ses, pol, a, p, c) {
        SentFlagged(ses, pol, a, p, c);
        assert ([TlvFor(ses, pol, a, p, c)] + rest)[1..] == rest;
      } else {
        assert [] + Join(rest) == Join(rest);
      }
    }
  }

  lemma ReachIs(ses: Session, pol: Policy, a: Attr, p: Path)
    requires Presentable(ses, pol, a, p)
    ensures AllEncodable(Reaching(pol, a)) && ReachOctets(pol, a) == Join(Reaching(pol, a))
  {
    hide HopOctets;
    hide Carried;
    if !Plain(pol) {
      var t := ReachTlv(pol, a);
      assert Join([t]) == EncodeTlv(t) + [];
    }
  }

  /** What is written are the attributes one after the other. */
  lemma MessageIs(ses: Session, pol: Policy, a: Attr, p: Path)
    requires Sendable(ses, pol, a, p)
    ensures AllEncodable(Attributes(ses, pol, a, p))
    ensures Message(ses, pol, a, p) == Join(Attributes(ses, pol, a, p)) + a.transit
  {
    hide Presentable;
    hide ClustersFit;
    hide Reaching;
    hide ReachOctets;
    hide Pick;
    hide WrittenFrom;
    hide Join;
    WrittenIs(ses, pol, a, p, ORIGIN);
    ReachIs(ses, pol, a, p);
    JoinConcat(Reaching(pol, a), Pick(ses, pol, a, p, ORIGIN));
  }

  /** The message as a list of attributes. */
  ghost function Everything(ses: Session, pol: Policy, a: Attr, p: Path): seq<Tlv>
    requires TransitRight(a.transit)
  {
    Attributes(ses, pol, a, p) + Split(a.transit).value
  }

  lemma UnknownAccepted(ses: Session, t: Tlv)
    requires t.Encodable() && !Known(t.code) && t.Optional()
    ensures Acceptable(ses, t) && !Flagged(ses, t)
  {
  }

  lemma {:induction false} MembersEncodable(ts: seq<Tlv>)
    requires AllEncodable(ts)
    ensures forall t | t in ts :: t.Encodable()
  {
    if ts != [] {
      MembersEncodable(ts[1..]);
    }
  }

  lemma {:induction false} CodesAt(ts: seq<Tlv>)
    ensures |Codes(ts)| == |ts| && forall i | 0 <= i < |ts| :: Codes(ts)[i] == ts[i].code
  {
    if ts != [] {
      CodesAt(ts[1..]);
    }
  }

  /** The attributes passed on: acceptable, of unknown codes, and they set no flag. */
  lemma TransitAccepted(ses: Session, transit: seq<Octet>)
    requires TransitRight(transit)
    ensures var us := Split(transit).value;
            && AllEncodable(us) && Join(us) == transit
            && (forall u | u in us :: Acceptable(ses, u) && !Flagged(ses, u))
            && (forall c | c in Codes(us) :: !Known(c))
  {
    hide Split;
    hide Known;
    hide Acceptable;
    hide Flagged;
    SplitJoins(transit);
    var us := Split(transit).value;
    PassedOnUnknown(us);
    MembersEncodable(us);
    CodesAt(us);
    hide PassedOn;
    forall u | u in us
      ensures Acceptable(ses, u) && !Flagged(ses, u)
    {
      UnknownAccepted(ses, u);
    }
  }

  lemma {:induction false} PassedOnKnown(ts: seq<Tlv>)
    requires forall c | c in Codes(ts) :: Known(c)
    ensures PassedOn(ts) == []
  {
    hide Known;
    if ts != [] {
      assert ts[0].code in Codes(ts) && forall c | c in Codes(ts[1..]) :: c in Codes(ts);
      PassedOnKnown(ts[1..]);
    }
  }

  /** What the message splits into, and that all of it is acceptable. */
  lemma MessageSplits(ses: Session, pol: Policy, a: Attr, p: Path)
    requires Sendable(ses, pol, a, p)
    ensures var ts := Everything(ses, pol, a, p);
            && Split(Message(ses, pol, a, p)) == Some(ts)
            && NoDup(Codes(ts))
            && (forall t | t in ts :: Acceptable(ses, t))
            && PassedOn(ts) == Split(a.transit).value
            && AllEncodable(Split(a.transit).value) && Join(Split(a.transit).value) == a.transit
  {
    hide TlvFor;
    hide CodeSent;
    hide One;
    hide Pick;
    hide NoDup;
    hide Known;
    hide Split;
    hide Join;
    var us, ts := Split(a.transit).value, Attributes(ses, pol, a, p);
    AttributesSent(ses, pol, a, p);
    MessageIs(ses, pol, a, p);
    hide Attributes;
    hide Message;
    forall c | c in Codes(ts)
      ensures Known(c)
    {
      SentFlagged(ses, pol, a, p, c);
    }
    TransitAccepted(ses, a.transit);
    hide Presentable;
    hide ClustersFit;
    JoinConcat(ts, us);
    JoinSplits(ts + us);
    PassedOnConcat(ts, us);
    PassedOnKnown(ts);
    hide PassedOn;
    assert [] + us == us;
    NoDupConcat(Codes(ts), Codes(us));
  }

  /** A flag belongs to an attribute of the message proper. */
  lemma FlagOfSent(ses: Session, pol: Policy, a: Attr, p: Path, st: State, c: Octet)
    requires Sendable(ses, pol, a, p) && Agrees(ses, Everything(ses, pol, a, p), st)
    requires c in st.attr.flags && c in Codes(Everything(ses, pol, a, p))
    ensures CodeSent(ses, pol, a, p, c)
  {
    hide Stored;
    hide TlvFor;
    hide CodeSent;
    hide Pick;
    hide Known;
    hide Split;
    hide Flagged;
    hide Acceptable;
    var us, ts := Split(a.transit).value, Attributes(ses, pol, a, p);
    PassedOnConcat(ts, us);
    AttributesSent(ses, pol, a, p);
    hide Attributes;
    TransitAccepted(ses, a.transit);
    hide Presentable;
    hide ClustersFit;
    hide PassedOn;
    forall u | u in us
      ensures u.code !in st.attr.flags
    {
      assert u in ts + us;
    }
    CodesAt(us);
  }

  /** What the parser has after the message: it stored every attribute sent, and set no other flag. */
  ghost predicate Received(ses: Session, pol: Policy, a: Attr, p: Path, st: State) {
    forall c: Octet ::
      && (c in st.attr.flags <==> CodeSent(ses, pol, a, p, c) && c != ENCAP)
      && (c in st.attr.flags ==> Stored(ses, TlvFor(ses, pol, a, p, c), st))
  }

  lemma EncapKnown()
    ensures Known(ENCAP)
  {
  }

  lemma EncapReceived(ses: Session, pol: Policy, a: Attr, p: Path)
    requires Sendable(ses, pol, a, p)
    ensures EncapOf(Everything(ses, pol, a, p), 0, []) == if SendsEncap(pol, a) then (a.tunnel, a.subs) else (0, [])
  {
    hide One;
    hide Split;
    hide Known;
    hide NoDup;
    hide Message;
    hide Encap.ParseValue;
    hide Encap.EncodeValue;
    hide EncapOf;
    MessageSplits(ses, pol, a, p);
    AttributesSent(ses, pol, a, p);
    TransitAccepted(ses, a.transit);
    hide PassedOn;
    hide Acceptable;
    hide Flagged;
    var us, ts := Split(a.transit).value, Attributes(ses, pol, a, p);
    hide Attributes;
    assert TlvFor(ses, pol, a, p, ENCAP) == EncapTlv(a.tunnel, a.subs);
    assert CodeSent(ses, pol, a, p, ENCAP) == SendsEncap(pol, a);
    hide TlvFor;
    hide CodeSent;
    if SendsEncap(pol, a) {
      EncapAccepted(ses, a);
      EncapOne(ts + us, EncapTlv(a.tunnel, a.subs));
    } else {
      PassedOnConcat(ts, us);
      EncapKnown();
      EncapNone(ts + us, 0, []);
    }
  }

  /** The loop gets through the message, and keeps encapsulation and unknown attributes, too. */
  lemma MessageStored(ses: Session, pol: Policy, a: Attr, p: Path)
    requires Sendable(ses, pol, a, p)
    ensures var b := Message(ses, pol, a, p);
            && Loop(ses, b, {}, START).Proceed?
            && var st := Loop(ses, b, {}, START).st;
               && Received(ses, pol, a, p, st)
               && st.attr.transit == a.transit
               && (st.attr.tunnel, st.attr.subs) == if SendsEncap(pol, a) then (a.tunnel, a.subs) else (0, [])
  {
    hide Loop;
    hide Stored;
    hide Join;
    hide One;
    hide TlvFor;
    hide CodeSent;
    hide NoDup;
    hide Known;
    hide Split;
    hide Message;
    hide EncapOf;
    hide OctetsFor;
    hide EncodeTlv;
    var b, ts := Message(ses, pol, a, p), Everything(ses, pol, a, p);
    MessageSplits(ses, pol, a, p);
    LoopAcceptsIff(ses, b, {}, START);
    LoopReads(ses, b, {}, START, []);
    TransitPassedOn(ses, b, {}, START);
    LoopEncap(ses, b, {}, START);
    EncapReceived(ses, pol, a, p);
    assert [] + ts == ts && [] + a.transit == a.transit;
    hide PassedOn;
    hide SendsEncap;
    var st := Loop(ses, b, {}, START).st;
    AttributesSent(ses, pol, a, p);
    hide Attributes;
    hide Flagged;
    hide Acceptable;
    forall c: Octet
      ensures c in st.attr.flags <==> CodeSent(ses, pol, a, p, c) && c != ENCAP
      ensures c in st.attr.flags ==> Stored(ses, TlvFor(ses, pol, a, p, c), st)
    {
      if CodeSent(ses, pol, a, p, c) {
        SentFlagged(ses, pol, a, p, c);
        assert TlvFor(ses, pol, a, p, c) in ts;
      } else if c in st.attr.flags {
        FlagOfSent(ses, pol, a, p, st, c);
      }
    }
  }
}
