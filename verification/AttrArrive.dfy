/**
 What a neighbour makes of the attributes it is sent: on 4-octet sessions and through AS_TRANS on 2-octet ones,
 inside and outside a confederation, and with cluster lists of any length.
 */
module AttrArrive {
  import opened Lists
  import opened Octets
  import opened Options
  import opened Sorting
  import opened AsPath
  import opened AsPathAggregate
  import opened AsPathReconcile
  import opened AttrParse
  import opened AttrSend
  import W = AsPathWire

  // ----- What the neighbour gets

  lemma SameQuad(x: Quad, y: Quad)
    requires PutL(x) == PutL(y)
    ensures x == y
  {
    GetPutL(x, []);
    GetPutL(y, []);
  }

  lemma SamePair(v: seq<Octet>, w: seq<Octet>, x: Quad, y: Quad)
    requires |v| == |w| && v + PutL(x) == w + PutL(y)
    ensures v == w && x == y
  {
    assert (v + PutL(x))[..|v|] == v && (w + PutL(y))[..|w|] == w;
    assert (v + PutL(x))[|v|..] == PutL(x) && (w + PutL(y))[|w|..] == PutL(y);
    SameQuad(x, y);
  }

  lemma SameWord(x: nat, y: nat)
    requires PutW(x) == PutW(y) && x < 65536 && y < 65536
    ensures x == y
  {
    GetPutW(x, []);
    GetPutW(y, []);
  }

  /** The fields that arrive as they were sent. */
  lemma PlainFields(ses: Session, a: Attr, st: State)
    ensures Stored(ses, OriginTlv(a), st) ==> st.attr.origin == a.origin
    ensures Stored(ses, NexthopTlv(a), st) ==> st.attr.nexthop == a.nexthop
    ensures Stored(ses, MedTlv(a), st) ==> st.attr.med == a.med
    ensures Stored(ses, LocalPrefTlv(a), st) ==> st.attr.localPref == a.localPref
  {
    hide PutL;
    var b := st.attr;
    if Stored(ses, NexthopTlv(a), st) {
      SameQuad(b.nexthop, a.nexthop);
    }
    if Stored(ses, MedTlv(a), st) {
      SameQuad(b.med, a.med);
    }
    if Stored(ses, LocalPrefTlv(a), st) {
      SameQuad(b.localPref, a.localPref);
    }
  }

  /** The AGGREGATOR arrives, large ASNs as AS_TRANS on an OLD session. */
  lemma AggregatorFields(ses: Session, a: Attr, st: State)
    ensures Stored(ses, AggregatorTlv(ses, a), st) ==>
              && st.attr.aggregator == W.Narrow(a.aggregator, ses.as4)
              && st.attr.aggregatorAddr == a.aggregatorAddr
    ensures Stored(ses, As4AggregatorTlv(a), st) ==>
              st.as4Aggregator == a.aggregator && st.as4AggregatorAddr == a.aggregatorAddr
  {
    hide PutL;
    hide PutW;
    var b := st.attr;
    if Stored(ses, AggregatorTlv(ses, a), st) {
      if ses.as4 {
        SamePair(PutL(b.aggregator), PutL(a.aggregator), b.aggregatorAddr, a.aggregatorAddr);
        SameQuad(b.aggregator, a.aggregator);
      } else {
        var n := W.Narrow(a.aggregator, false);
        SamePair(PutW(b.aggregator), PutW(n), b.aggregatorAddr, a.aggregatorAddr);
        SameWord(b.aggregator, n);
      }
    }
    if Stored(ses, As4AggregatorTlv(a), st) {
      SamePair(PutL(st.as4Aggregator), PutL(a.aggregator), st.as4AggregatorAddr, a.aggregatorAddr);
      SameQuad(st.as4Aggregator, a.aggregator);
    }
  }

  /** The communities arrive. */
  lemma CommunityFields(ses: Session, a: Attr, st: State)
    ensures Communities(a.community, 0x1_0000_0000) && Stored(ses, CommunityTlv(a), st) ==>
              st.attr.community == a.community
    ensures Communities(a.ecommunity, 0x1_0000_0000_0000_0000) && Stored(ses, ExtCommunityTlv(ses, a), st) ==>
              st.attr.ecommunity == Shown(ses, a.ecommunity)
  {
    hide EncodeQuads;
    hide EncodeOctals;
    hide DecodeQuads;
    hide DecodeOctals;
    if Communities(a.community, 0x1_0000_0000) && Stored(ses, CommunityTlv(a), st) {
      QuadsBack(a.community);
      StrictUnique(st.attr.community, a.community);
    }
    if Communities(a.ecommunity, 0x1_0000_0000_0000_0000) && Stored(ses, ExtCommunityTlv(ses, a), st) {
      TransitivesStrict(a.ecommunity);
      var shown := Shown(ses, a.ecommunity);
      OctalsBack(shown);
      StrictUnique(st.attr.ecommunity, shown);
    }
  }

  /** The originator and the clusters of a reflected route arrive. */
  lemma ReflectionFields(ses: Session, r: Reflection, a: Attr, st: State)
    ensures Stored(ses, OriginatorTlv(r, a), st) ==>
              st.attr.originator == if ORIGINATOR_ID in a.flags then a.originator else r.from
    ensures Stored(ses, ClusterTlv(r, a), st) ==> st.attr.cluster == PutL(r.cluster) + a.cluster
  {
    hide PutL;
    if Stored(ses, OriginatorTlv(r, a), st) {
      SameQuad(st.attr.originator, if ORIGINATOR_ID in a.flags then a.originator else r.from);
    }
  }

  /** The path that arrives: through AS_TRANS, the confederation segments lose their 4-octet ASNs. */
  function Arriving(ses: Session, p: Path): Path {
    if SendsAs4Path(ses, p) then Normalise(W.NarrowPath(ConfedLead(p), false)) + DeleteConfedSeq(p) else p
  }

  lemma PathFacts(ses: Session, pol: Policy, a: Attr, p: Path)
    requires Presentable(ses, pol, a, p)
    ensures IsNormal(p) && NoEmptySegment(p) && NoConfed(DeleteConfedSeq(p))
    ensures Carried(p, ses.as4) && (SendsAs4Path(ses, p) ==> Carried(DeleteConfedSeq(p), true))
  {
  }

  lemma LeadSmall(p: Path)
    ensures HasAs4(ConfedLead(p)) ==> HasAs4(p)
    ensures NoConfed(p) ==> !HasAs4(ConfedLead(p))
  {
    LeadSplits(p);
    FlatConcat(ConfedLead(p), DeleteConfedSeq(p));
    assert forall a | a in Flat(ConfedLead(p)) :: a in Flat(p);
    assert Flat([]) == [];
  }

  lemma LeadKind(p: Path)
    requires p != [] && p[0].kind.IsConfed() && NoConfed(DeleteConfedSeq(p))
    ensures ConfedLead(p) != []
    ensures var n := Normalise(W.NarrowPath(ConfedLead(p), false)); n != [] && n[0].kind.IsConfed()
  {
    LeadSplits(p);
    var l := W.NarrowPath(ConfedLead(p), false);
    assert l != [] && l[0].kind == p[0].kind;
    NormalConfed(l[0]);
  }

  /** It is the path that was sent exactly if the session is a 4-octet one or no confederation segment needs it. */
  lemma ArrivingIff(ses: Session, pol: Policy, a: Attr, p: Path)
    requires Presentable(ses, pol, a, p)
    ensures Arriving(ses, p) == p <==> ses.as4 || !HasAs4(ConfedLead(p))
    ensures NoConfed(p) ==> Arriving(ses, p) == p
    ensures p != [] && p[0].kind.IsConfed() ==> Arriving(ses, p) != [] && Arriving(ses, p)[0].kind.IsConfed()
  {
    hide Normalise;
    PathFacts(ses, pol, a, p);
    ReconcileConfedsIff(p);
    LeadSplits(p);
    LeadSmall(p);
    if p != [] && p[0].kind.IsConfed() {
      LeadKind(p);
    }
    if NoConfed(p) {
      NothingDeleted(p);
    }
  }

  /** The path arrives, reconciled if it went through AS_TRANS. */
  lemma PathFields(ses: Session, pol: Policy, a: Attr, p: Path, st: State)
    requires Presentable(ses, pol, a, p) && Stored(ses, PathTlv(ses, p), st)
    requires SendsAs4Path(ses, p) ==> Stored(ses, As4PathTlv(DeleteConfedSeq(p)), st)
    ensures SendsAs4Path(ses, p) ==> Reconcile(st.attr.aspath, st.as4Path) == Arriving(ses, p)
    ensures !SendsAs4Path(ses, p) ==> st.attr.aspath == Arriving(ses, p)
  {
    hide W.Wire;
    hide W.Parse;
    hide HasAs4;
    hide Presentable;
    hide Normalise;
    hide Reconcile;
    hide DeleteConfedSeq;
    hide ConfedLead;
    hide NoConfed;
    PathFacts(ses, pol, a, p);
    W.WireRoundTrip(p, ses.as4);
    if SendsAs4Path(ses, p) {
      W.WireRoundTrip(DeleteConfedSeq(p), true);
      ReconcileConfeds(p);
    } else if !ses.as4 {
      NarrowSmall(p);
      NormalFixed(p);
    }
  }

  /** The path as the receiver files it: with its local AS in front, if it is configured to put one there. */
  function Filed(ses: Session, p: Path): Path {
    if ses.localAs.Some? then AddSeq(p, ses.localAs.value) else p
  }

  /** AS4_PATH and AS4_AGGREGATOR undo AS_TRANS. */
  lemma MungeRestores(ses: Session, pol: Policy, a: Attr, p: Path, st: State)
    requires Sendable(ses, pol, a, p) && Received(ses, pol, a, p, st)
    ensures var b := Munge(ses, st);
            && b == st.attr.(aspath := Arriving(ses, p),
                             aggregator := b.aggregator, aggregatorAddr := b.aggregatorAddr)
            && (AGGREGATOR in a.flags ==> b.aggregator == a.aggregator && b.aggregatorAddr == a.aggregatorAddr)
  {
    hide Stored;
    hide HasAs4;
    hide Reconcile;
    hide PutL;
    hide Arriving;
    hide Presentable;
    hide ReachTlv;
    hide EncapTlv;
    AggregatorFields(ses, a, st);
    assert CodeSent(ses, pol, a, p, AS_PATH) && AS_PATH in st.attr.flags;
    assert SendsAs4Path(ses, p) <==> AS4_PATH in st.attr.flags;
    assert SendsAs4Aggregator(ses, a) <==> AS4_AGGREGATOR in st.attr.flags;
    assert AGGREGATOR in a.flags <==> AGGREGATOR in st.attr.flags;
    PathFields(ses, pol, a, p, st);
  }

  lemma StoredReach(ses: Session, t: Tlv, st: State)
    requires t.code == MP_REACH && Stored(ses, t, st)
    ensures ReachOf(t.value) == st.attr.reach
  {
    hide ReachOf;
    hide PutL;
    hide W.Parse;
  }

  /** MP_REACH_NLRI arrives. */
  lemma ReachFields(ses: Session, pol: Policy, a: Attr, st: State)
    requires HopSound(pol) && pol.nlri != []
    ensures Stored(ses, ReachTlv(pol, a), st) ==> st.attr.reach == Some(Reached(pol, a))
  {
    hide ReachOf;
    hide HopOctets;
    hide Reached;
    hide Stored;
    ReachBack(pol, a);
    if Stored(ses, ReachTlv(pol, a), st) {
      StoredReach(ses, ReachTlv(pol, a), st);
    }
  }

  /** The path passes the checks of the neighbour. */
  predicate Admitted(ses: Session, p: Path) {
    match ses.sort
    case Ebgp => NoConfed(p) && (ses.enforceFirstAs ==> FirstAs(p, ses.remoteAs))
    case Confed => p != [] && p[0].kind.IsConfed()
    case Ibgp => true
    case Internal => false
  }

  lemma SentAlways(ses: Session, pol: Policy, a: Attr, p: Path)
    requires Presentable(ses, pol, a, p)
    ensures CodeSent(ses, pol, a, p, ORIGIN) && CodeSent(ses, pol, a, p, AS_PATH)
    ensures CodeSent(ses, pol, a, p, if Plain(pol) then NEXT_HOP else MP_REACH)
    ensures ses.sort.Ibgp? ==> CodeSent(ses, pol, a, p, LOCAL_PREF)
  {
  }

  lemma FinishReceived(ses: Session, pol: Policy, a: Attr, p: Path, st: State)
    requires Sendable(ses, pol, a, p) && Received(ses, pol, a, p, st) && Admitted(ses, p)
    ensures Finish(ses, st).Proceed?
    ensures var b := Finish(ses, st).st.attr;
            && b == st.attr.(aspath := Filed(ses, Arriving(ses, p)),
                             aggregator := b.aggregator, aggregatorAddr := b.aggregatorAddr)
            && (AGGREGATOR in a.flags ==> b.aggregator == a.aggregator && b.aggregatorAddr == a.aggregatorAddr)
  {
    hide Stored;
    hide Munge;
    hide Arriving;
    hide HasAs4;
    hide AddSeq;
    hide NoConfed;
    hide PutL;
    hide Presentable;
    MungeRestores(ses, pol, a, p, st);
    ArrivingIff(ses, pol, a, p);
    hide TlvFor;
    hide SendsAs4Path;
    SentAlways(ses, pol, a, p);
    assert ORIGIN in st.attr.flags && AS_PATH in st.attr.flags;
    assert NEXT_HOP in st.attr.flags || MP_REACH in st.attr.flags;
    assert ses.sort.Ibgp? ==> LOCAL_PREF in st.attr.flags;
  }

  /** The fields other than path and aggregator. */
  lemma OtherFields(ses: Session, pol: Policy, a: Attr, p: Path, st: State)
    requires Presentable(ses, pol, a, p) && Received(ses, pol, a, p, st)
    ensures var b := st.attr;
            && b.origin == a.origin
            && (if Plain(pol) then b.nexthop == a.nexthop else b.reach == Some(Reached(pol, a)))
            && (MED in a.flags ==> b.med == a.med)
            && (SendsLocalPref(ses) ==> b.localPref == a.localPref)
            && (SendsCommunity(pol, a) ==> b.community == a.community)
            && (SendsExtCommunity(ses, pol, a) ==> b.ecommunity == Shown(ses, a.ecommunity))
            && (Reflects(ses, pol) ==>
                  var r := pol.reflection.value;
                  && b.originator == (if ORIGINATOR_ID in a.flags then a.originator else r.from)
                  && b.cluster == PutL(r.cluster) + a.cluster)
  {
    hide Stored;
    hide PutL;
    hide Carried;
    hide HasAs4;
    hide Transitives;
    hide TransitRight;
    hide ReachTlv;
    hide Reached;
    hide EncapTlv;
    PlainFields(ses, a, st);
    CommunityFields(ses, a, st);
    assert ORIGIN in st.attr.flags;
    assert MED in a.flags ==> MED in st.attr.flags;
    assert SendsLocalPref(ses) ==> LOCAL_PREF in st.attr.flags;
    assert SendsCommunity(pol, a) ==> COMMUNITIES in st.attr.flags;
    assert SendsExtCommunity(ses, pol, a) ==> EXT_COMMUNITIES in st.attr.flags;
    if Plain(pol) {
      assert NEXT_HOP in st.attr.flags;
    } else {
      assert MP_REACH in st.attr.flags;
      ReachFields(ses, pol, a, st);
    }
    if Reflects(ses, pol) {
      assert ORIGINATOR_ID in st.attr.flags && CLUSTER_LIST in st.attr.flags;
      ReflectionFields(ses, pol.reflection.value, a, st);
    }
  }

  lemma HopKnown(ses: Session, pol: Policy, a: Attr, p: Path)
    requires Presentable(ses, pol, a, p)
    ensures !Plain(pol) ==> HopSound(pol)
  {
  }

  /**
   What a neighbour reads is what was sent, in every address family: the path, on an OLD session reconciled, the
   aggregator and the nexthop, with the other attributes, and with no attribute that was not sent.
   */
  lemma AttributesArrive(ses: Session, pol: Policy, a: Attr, p: Path)
    requires Sendable(ses, pol, a, p) && Admitted(ses, p)
    ensures Parse(ses, Message(ses, pol, a, p)).Proceed?
    ensures var b := Parse(ses, Message(ses, pol, a, p)).st.attr;
            && b.aspath == Filed(ses, Arriving(ses, p))
            && (AGGREGATOR in a.flags ==> b.aggregator == a.aggregator && b.aggregatorAddr == a.aggregatorAddr)
            && b.origin == a.origin
            && (if Plain(pol) then b.nexthop == a.nexthop else b.reach == Some(Reached(pol, a)))
            && (MED in a.flags ==> b.med == a.med)
            && (SendsLocalPref(ses) ==> b.localPref == a.localPref)
            && (SendsCommunity(pol, a) ==> b.community == a.community)
            && (SendsExtCommunity(ses, pol, a) ==> b.ecommunity == Shown(ses, a.ecommunity))
            && (Reflects(ses, pol) ==>
                  var r := pol.reflection.value;
                  && b.originator == (if ORIGINATOR_ID in a.flags then a.originator else r.from)
                  && b.cluster == PutL(r.cluster) + a.cluster)
            && (b.tunnel, b.subs) == (if SendsEncap(pol, a) then (a.tunnel, a.subs) else (0, []))
            && b.transit == a.transit
            && forall c: Octet :: c in b.flags <==> CodeSent(ses, pol, a, p, c) && c != ENCAP
  {
    HopKnown(ses, pol, a, p);
    hide Loop;
    hide Message;
    hide Finish;
    hide PutL;
    hide Presentable;
    hide Arriving;
    hide Admitted;
    hide Filed;
    hide Reached;
    hide CodeSent;
    hide TlvFor;
    hide Stored;
    hide SendsEncap;
    hide SendsExtCommunity;
    MessageStored(ses, pol, a, p);
    var st := Loop(ses, Message(ses, pol, a, p), {}, START).st;
    FinishReceived(ses, pol, a, p, st);
    OtherFields(ses, pol, a, p, st);
  }

  // ----- Cluster lists that are too long for their length octet

  lemma {:induction false} SplitConcat(ts: seq<Tlv>, rest: seq<Octet>)
    requires AllEncodable(ts)
    ensures Split(Join(ts) + rest) == match Split(rest)
                                      case None => None
                                      case Some(us) => Some(ts + us)
  {
    hide EncodeTlv;
    hide First;
    if ts == [] {
      assert [] + rest == rest;
      assert Split(rest).Some? ==> [] + Split(rest).value == Split(rest).value;
    } else {
      SplitConcat(ts[1..], rest);
      Assoc(EncodeTlv(ts[0]), Join(ts[1..]), rest);
      JoinFirst(ts[0], Join(ts[1..]) + rest);
      EncodedNotEmpty(ts[0]);
      if Split(rest).Some? {
        Assoc([ts[0]], ts[1..], Split(rest).value);
        assert [ts[0]] + ts[1..] == ts;
      }
    }
  }

  /** The attributes before the cluster list, from `c` on. */
  function UpToClusters(ses: Session, pol: Policy, a: Attr, p: Path, c: Octet): seq<Tlv>
    decreases CLUSTER_LIST - c
  {
    if c >= CLUSTER_LIST then []
    else
      var rest := UpToClusters(ses, pol, a, p, c + 1);
      if SentInOrder(ses, pol, a, p, c) then [TlvFor(ses, pol, a, p, c)] + rest else rest
  }

  lemma {:induction false} WrittenBefore(ses: Session, pol: Policy, a: Attr, p: Path, c: Octet)
    requires Presentable(ses, pol, a, p) && c <= CLUSTER_LIST
    ensures AllEncodable(UpToClusters(ses, pol, a, p, c))
    ensures WrittenFrom(ses, pol, a, p, c) ==
            Join(UpToClusters(ses, pol, a, p, c)) + WrittenFrom(ses, pol, a, p, CLUSTER_LIST)
    decreases CLUSTER_LIST - c
  {
    hide CodeSent;
    hide TlvFor;
    hide OctetsFor;
    hide Presentable;
    hide One;
    hide EncodeTlv;
    var last := WrittenFrom(ses, pol, a, p, CLUSTER_LIST);
    if c == CLUSTER_LIST {
      assert [] + last == last;
    } else {
      WrittenBefore(ses, pol, a, p, c + 1);
      var rest := UpToClusters(ses, pol, a, p, c + 1);
      if SentInOrder(ses, pol, a, p, c) {
        SentFlagged(ses, pol, a, p, c);
        assert ([TlvFor(ses, pol, a, p, c)] + rest)[1..] == rest;
        Assoc(EncodeTlv(TlvFor(ses, pol, a, p, c)), Join(rest), last);
      } else {
        assert [] + WrittenFrom(ses, pol, a, p, c + 1) == WrittenFrom(ses, pol, a, p, c + 1);
      }
    }
  }

  function BeforeClusters(ses: Session, pol: Policy, a: Attr, p: Path): seq<Tlv> {
    Reaching(pol, a) + UpToClusters(ses, pol, a, p, ORIGIN)
  }

  /** The cluster list as the neighbour finds it: as long as the length octet says. */
  function CutList(r: Reflection, a: Attr): Tlv {
    var v := PutL(r.cluster) + a.cluster;
    Tlv(OPTIONAL, CLUSTER_LIST, v[..|v| % 256])
  }

  /** What comes behind it. */
  function CutOff(r: Reflection, a: Attr): seq<Octet> {
    var v := PutL(r.cluster) + a.cluster;
    v[|v| % 256..]
  }

  lemma ClustersFirst(r: Reflection, a: Attr, rest: seq<Octet>)
    ensures First(Raw(ClusterTlv(r, a)) + rest) == Some((CutList(r, a), CutOff(r, a) + rest))
  {
    hide PutL;
    var v := PutL(r.cluster) + a.cluster;
    var b := Raw(ClusterTlv(r, a)) + rest;
    var n := |v| % 256;
    assert b == [OPTIONAL, CLUSTER_LIST, n] + (v + rest);
    assert (v + rest)[..n] == v[..n] && (v + rest)[n..] == v[n..] + rest;
    assert b[3..3 + n] == (v + rest)[..n] && b[3 + n..] == (v + rest)[n..];
  }

  /** What is behind the cluster list in the message. */
  function Behind(ses: Session, pol: Policy, a: Attr, p: Path): seq<Octet> {
    WrittenFrom(ses, pol, a, p, CLUSTER_LIST + 1) + a.transit
  }

  lemma MessageParts(ses: Session, pol: Policy, a: Attr, p: Path)
    requires Presentable(ses, pol, a, p) && Reflects(ses, pol)
    ensures var r, ts := pol.reflection.value, BeforeClusters(ses, pol, a, p);
            && AllEncodable(ts)
            && Message(ses, pol, a, p) == Join(ts) + (Raw(ClusterTlv(r, a)) + Behind(ses, pol, a, p))
  {
    hide Presentable;
    hide Raw;
    hide One;
    hide Reaching;
    hide ReachOctets;
    var ts, list := UpToClusters(ses, pol, a, p, ORIGIN), Raw(ClusterTlv(pol.reflection.value, a));
    WrittenBefore(ses, pol, a, p, ORIGIN);
    ReachIs(ses, pol, a, p);
    JoinConcat(Reaching(pol, a), ts);
    var later := WrittenFrom(ses, pol, a, p, CLUSTER_LIST + 1);
    assert WrittenFrom(ses, pol, a, p, CLUSTER_LIST) == list + later;
    hide WrittenFrom;
    hide UpToClusters;
    var reach, front := Join(Reaching(pol, a)), Join(ts);
    hide Join;
    Assoc(reach, front, list + later);
    Assoc(reach + front, list + later, a.transit);
    Assoc(list, later, a.transit);
  }

  /** If the neighbour gets through the message at all, it has found the cut list, and goes on in what was cut off. */
  lemma CutListFound(ses: Session, pol: Policy, a: Attr, p: Path)
    requires Presentable(ses, pol, a, p) && Reflects(ses, pol)
    ensures var b, r := Message(ses, pol, a, p), pol.reflection.value;
            var us := Split(CutOff(r, a) + Behind(ses, pol, a, p));
            Split(b) == match us
                        case None => None
                        case Some(more) =>
                          Some(BeforeClusters(ses, pol, a, p) + ([CutList(r, a)] + more))
  {
    hide Presentable;
    hide Message;
    hide BeforeClusters;
    hide Behind;
    hide First;
    hide Raw;
    hide CutList;
    hide CutOff;
    hide Join;
    var r, ts, behind := pol.reflection.value, BeforeClusters(ses, pol, a, p), Behind(ses, pol, a, p);
    MessageParts(ses, pol, a, p);
    SplitConcat(ts, Raw(ClusterTlv(r, a)) + behind);
    ClustersFirst(r, a, behind);
  }

  lemma Multiple(n: nat)
    requires n % 4 == 0
    ensures n % 256 % 4 == 0
  {
    var q, k := n / 256, n / 4;
    assert n == 256 * q + n % 256 && n == 4 * k;
    assert n % 256 == 4 * (k - 64 * q);
  }

  lemma CutListFlagged(ses: Session, r: Reflection, a: Attr)
    requires |a.cluster| % 4 == 0
    ensures Flagged(ses, CutList(r, a)) && |CutList(r, a).value| < 256
  {
    hide PutL;
    var v := PutL(r.cluster) + a.cluster;
    Multiple(|v|);
  }

  lemma CutIsClusters(ses: Session, r: Reflection, a: Attr, st: State)
    requires Stored(ses, CutList(r, a), st)
    ensures st.attr.cluster == CutList(r, a).value
  {
    hide PutL;
  }

  lemma CutListStored(ses: Session, pol: Policy, a: Attr, p: Path)
    requires Presentable(ses, pol, a, p) && Reflects(ses, pol)
    requires Parse(ses, Message(ses, pol, a, p)).Proceed?
    ensures Parse(ses, Message(ses, pol, a, p)).st.attr.cluster == CutList(pol.reflection.value, a).value
  {
    hide Message;
    hide BeforeClusters;
    hide Behind;
    hide Loop;
    hide Finish;
    hide Split;
    hide Join;
    hide CutList;
    hide CutOff;
    hide Flagged;
    hide NoDup;
    hide Mandatory;
    var b, t := Message(ses, pol, a, p), CutList(pol.reflection.value, a);
    ParseProceeds(ses, b);
    CutListFound(ses, pol, a, p);
    CutListFlagged(ses, pol.reflection.value, a);
    assert t in Split(b).value;
    CutIsClusters(ses, pol.reflection.value, a, Loop(ses, b, {}, START).st);
  }

  lemma ClustersMod4(ses: Session, pol: Policy, a: Attr, p: Path)
    requires Presentable(ses, pol, a, p) && Reflects(ses, pol)
    ensures |a.cluster| % 4 == 0
  {
  }

  /**
   A reflected route arrives with its cluster list, the own cluster in front, exactly while the length octet does
   not wrap around.
   */
  lemma ClusterListIff(ses: Session, pol: Policy, a: Attr, p: Path)
    requires Presentable(ses, pol, a, p) && Reflects(ses, pol)
    ensures var r := Parse(ses, Message(ses, pol, a, p));
            r.Proceed? && r.st.attr.cluster == PutL(pol.reflection.value.cluster) + a.cluster <==>
            |a.cluster| + 4 < 256
  {
    hide Presentable;
    hide Message;
    hide Parse;
    hide PutL;
    if |a.cluster| + 4 < 256 {
      AttributesArrive(ses, pol, a, p);
    } else if Parse(ses, Message(ses, pol, a, p)).Proceed? {
      CutListStored(ses, pol, a, p);
      ClustersMod4(ses, pol, a, p);
      CutListFlagged(ses, pol.reflection.value, a);
    }
  }

  /** With 63 clusters the length octet is zero, and the own cluster is taken for the next attribute. */
  lemma CutOffRead(ses: Session, r: Reflection, a: Attr, rest: seq<Octet>)
    requires |a.cluster| == 252 && r.cluster == 0x0A00_0001
    ensures CutList(r, a) == Tlv(OPTIONAL, CLUSTER_LIST, [])
    ensures First(CutOff(r, a) + rest) == Some((Tlv(10, 0, []), [1] + a.cluster + rest))
    ensures !ses.sort.Ebgp? ==> !Acceptable(ses, Tlv(10, 0, []))
  {
    assert PutL(r.cluster) == [10, 0, 0, 1];
    var v := PutL(r.cluster) + a.cluster;
    assert v[..0] == [] && v[0..] == v;
    var b := v + rest;
    assert b[3..3] == [] && b[3..] == [1] + a.cluster + rest;
  }

  /** Whatever else it carries, a reflected route with 63 clusters is an error to a neighbour of cluster 10.0.0.1. */
  lemma LongListIsRefused(ses: Session, pol: Policy, a: Attr, p: Path)
    requires Presentable(ses, pol, a, p) && Reflects(ses, pol)
    requires |a.cluster| == 252 && pol.reflection.value.cluster == 0x0A00_0001
    ensures Parse(ses, Message(ses, pol, a, p)) == Error
  {
    hide Presentable;
    hide Message;
    hide BeforeClusters;
    hide Behind;
    hide Loop;
    hide First;
    hide CutList;
    hide CutOff;
    hide Acceptable;
    hide NoDup;
    var b, t := Message(ses, pol, a, p), Tlv(10, 0, []);
    CutListFound(ses, pol, a, p);
    CutOffRead(ses, pol.reflection.value, a, Behind(ses, pol, a, p));
    InternalErrors(ses, b, {}, START);
    LoopAcceptsIff(ses, b, {}, START);
    if Split(b).Some? {
      assert t in Split(CutOff(pol.reflection.value, a) + Behind(ses, pol, a, p)).value;
      assert t in Split(b).value;
    }
  }

  const NO_ADDRESS: Address := [0, 0, 0, 0, 0, 0, 0, 0, 0, 0, 0, 0, 0, 0, 0, 0]

  /** Such a route, from beginning to end. */
  lemma SixtyThreeClusters(ses: Session)
    requires ses.sort.Ibgp?
    ensures var a := NO_ATTR.(flags := {NEXT_HOP}, nexthop := 0x0A00_0002, cluster := seq(252, i => 0));
            var pol := Policy(AFI_IP, SAFI_UNICAST, Nexthop(0, NO_ADDRESS, NO_ADDRESS, 0), [], false, false,
                              Some(Reflection(0x0A00_0003, 0x0A00_0001)));
            Presentable(ses, pol, a, []) && Parse(ses, Message(ses, pol, a, [])) == Error
  {
    hide Message;
    var a := NO_ATTR.(flags := {NEXT_HOP}, nexthop := 0x0A00_0002, cluster := seq(252, i => 0));
    var pol := Policy(AFI_IP, SAFI_UNICAST, Nexthop(0, NO_ADDRESS, NO_ADDRESS, 0), [], false, false,
                              Some(Reflection(0x0A00_0003, 0x0A00_0001)));
    assert W.Wire([], ses.as4) == [] && Flat([]) == [];
    assert Presentable(ses, pol, a, []);
    LongListIsRefused(ses, pol, a, []);
  }

  // ----- The outgoing path

  /** How the sender is configured to present itself. */
  datatype Speaker = Speaker(localAs: Asn, changeLocalAs: Option<Asn>, replaceAs: bool, confederation: Option<Asn>,
                             pathUnchanged: bool, routeServer: bool)

  predicate Prepends(ses: Session, sp: Speaker, p: Path) {
    ses.sort.Ebgp? && (!sp.pathUnchanged || p == []) && !sp.routeServer
  }

  /** The path that bgp_packet_attribute sends. */
  function Outgoing(ses: Session, sp: Speaker, p: Path): Path {
    if Prepends(ses, sp, p) then
      if sp.confederation.Some? then AddSeq(DeleteConfedSeq(p), sp.confederation.value)
      else if sp.changeLocalAs.Some? then
        AddSeq(if sp.replaceAs then p else AddSeq(p, sp.localAs), sp.changeLocalAs.value)
      else AddSeq(p, sp.localAs)
    else if ses.sort.Confed? then AddAsn(p, sp.localAs, ConfedSequence)
    else p
  }

  /** The AS that an external neighbour takes the sender for. */
  function Identity(sp: Speaker): Asn {
    if sp.confederation.Some? then sp.confederation.value
    else if sp.changeLocalAs.Some? then sp.changeLocalAs.value else sp.localAs
  }

  lemma AddedNoConfed(p: Path, a: Asn)
    ensures NoConfed(p) ==> NoConfed(AddSeq(p, a))
  {
    if p != [] {
      var s := Segment(AsSequence, [a] + p[0].asns);
      assert ([s] + p[1..])[1..] == p[1..];
    }
    var t := Segment(AsSequence, [a]);
    assert ([t] + p)[1..] == p;
    assert p != [] ==> ([t] + p[1..])[1..] == p[1..];
  }

  /**
   A path that is sent out of the AS starts with the AS of the sender, and none of its confederation is left in it;
   inside the confederation it starts with the member AS.
   */
  lemma OutgoingStarts(ses: Session, sp: Speaker, p: Path)
    requires NoConfed(DeleteConfedSeq(p)) && (sp.confederation.None? ==> NoConfed(p))
    ensures var q := Outgoing(ses, sp, p);
            && (Prepends(ses, sp, p) ==> FirstAs(q, Identity(sp)) && NoConfed(q))
            && (ses.sort.Confed? ==> q != [] && q[0].kind.ConfedSequence? && q[0].asns[0] == sp.localAs)
            && (!Prepends(ses, sp, p) && !ses.sort.Confed? ==> q == p)
  {
    AddedNoConfed(p, sp.localAs);
    AddedNoConfed(p, Identity(sp));
    AddedNoConfed(AddSeq(p, sp.localAs), Identity(sp));
    AddedNoConfed(DeleteConfedSeq(p), Identity(sp));
  }

  /** The neighbour knows the sender by the AS that is put in front, or takes the path as it is. */
  predicate Expected(ses: Session, sp: Speaker, p: Path) {
    if Prepends(ses, sp, p) then ses.remoteAs == Identity(sp) else ses.sort.Confed? || Admitted(ses, p)
  }

  /**
   A route that is sent on passes the checks of the neighbour, is filed there with the path that was sent, and what
   it carries of unknown attributes can be passed on again.
   */
  lemma RouteArrives(ses: Session, sp: Speaker, pol: Policy, a: Attr)
    requires Sendable(ses, pol, a, Outgoing(ses, sp, a.aspath)) && Expected(ses, sp, a.aspath)
    requires NoConfed(DeleteConfedSeq(a.aspath)) && (sp.confederation.None? ==> NoConfed(a.aspath))
    ensures var q := Outgoing(ses, sp, a.aspath);
            var r := Parse(ses, Message(ses, pol, a, q));
            && r.Proceed? && r.st.attr.aspath == Filed(ses, Arriving(ses, q))
            && r.st.attr.transit == a.transit && TransitRight(r.st.attr.transit)
  {
    hide Message;
    hide Parse;
    hide TransitRight;
    hide Outgoing;
    hide Presentable;
    hide Arriving;
    var q := Outgoing(ses, sp, a.aspath);
    OutgoingStarts(ses, sp, a.aspath);
    AttributesArrive(ses, pol, a, q);
    ParsedTransit(ses, Message(ses, pol, a, q));
  }
}
