/**
 Reading the path attributes of an UPDATE (bgp_attr_parse in bgpd/bgp_attr.c).
 */
module AttrParse {
  import opened Lists
  import opened Octets
  import opened Options
  import opened Sorting
  import opened AsPath
  import opened AsPathReconcile
  import AsPathWire
  import Encap

  type Quad = n: nat | n < 0x1_0000_0000   // an IPv4 address or another 32-bit value

  const ORIGIN: Octet := 1
  const AS_PATH: Octet := 2
  const NEXT_HOP: Octet := 3
  const MED: Octet := 4
  const LOCAL_PREF: Octet := 5
  const ATOMIC_AGGREGATE: Octet := 6
  const AGGREGATOR: Octet := 7
  const COMMUNITIES: Octet := 8
  const ORIGINATOR_ID: Octet := 9
  const CLUSTER_LIST: Octet := 10
  const MP_REACH: Octet := 14
  const MP_UNREACH: Octet := 15
  const EXT_COMMUNITIES: Octet := 16
  const AS4_PATH: Octet := 17
  const AS4_AGGREGATOR: Octet := 18
  const ENCAP: Octet := 23

  // ----- Attributes on the wire

  /** The flags octet is kept as received; its low four bits mean nothing. */
  datatype Tlv = Tlv(flags: Octet, code: Octet, value: seq<Octet>) {
    predicate Optional() { flags / 128 == 1 }
    predicate Transitive() { flags / 64 % 2 == 1 }
    predicate Partial() { flags / 32 % 2 == 1 }
    predicate Extended() { flags / 16 % 2 == 1 }

    predicate Encodable() {
      |value| < if Extended() then 65536 else 256
    }
  }

  function EncodeTlv(t: Tlv): seq<Octet>
    requires t.Encodable()
  {
    [t.flags, t.code] + (if t.Extended() then PutW(|t.value|) else [|t.value|]) + t.value
  }

  predicate AllEncodable(ts: seq<Tlv>) {
    ts == [] || (ts[0].Encodable() && AllEncodable(ts[1..]))
  }

  function Join(ts: seq<Tlv>): seq<Octet>
    requires AllEncodable(ts)
  {
    if ts == [] then [] else EncodeTlv(ts[0]) + Join(ts[1..])
  }

  function Codes(ts: seq<Tlv>): seq<Octet> {
    if ts == [] then [] else [ts[0].code] + Codes(ts[1..])
  }

  // ----- What the parser knows and what it builds

  datatype PeerSort = Ibgp | Ebgp | Internal | Confed

  /** `localAs` is the change_local_as that is to be put in front of received paths, if any. */
  datatype Session = Session(sort: PeerSort, as4: bool, restart: bool,
                             remoteAs: Asn, enforceFirstAs: bool, localAs: Option<Asn>)

  datatype Reach = Reach(afi: nat, safi: nat, nexthopLength: nat, nexthop: seq<Octet>, nlri: seq<Octet>)
  datatype Unreach = Unreach(afi: nat, safi: nat, nlri: seq<Octet>)

  /** struct attr with its attr_extra; a field is meaningful when its code is in `flags`. */
  datatype Attr = Attr(
    flags: set<Octet>, origin: Octet, aspath: Path, nexthop: Quad, med: Quad, localPref: Quad,
    aggregator: Asn, aggregatorAddr: Quad, community: seq<nat>, originator: Quad, cluster: seq<Octet>,
    ecommunity: seq<nat>, reach: Option<Reach>, unreach: Option<Unreach>,
    tunnel: Encap.Word, subs: seq<Encap.SubTlv>, transit: seq<Octet>)

  const NO_ATTR := Attr({}, 0, [], 0, 0, 0, 0, 0, [], 0, [], [], None, None, 0, [], [])

  /** The attributes read so far, with the AS4_PATH and AS4_AGGREGATOR kept aside. */
  datatype State = State(attr: Attr, as4Path: Path, as4Aggregator: Asn, as4AggregatorAddr: Quad) {
    /** `a` with the flag of attribute `code`. */
    function With(a: Attr, code: Octet): State {
      this.(attr := a.(flags := a.flags + {code}))
    }
  }

  const START := State(NO_ATTR, [], 0, 0)

  /** What one attribute's parser did: it stored a value having read some octets, or found fault. */
  datatype Outcome = Took(st: State, read: nat) | Malformed | Refused

  datatype Result = Proceed(st: State) | Withdraw | Error | NotifyPls

  // ----- One attribute

  function DecodeQuads(v: seq<Octet>): seq<nat> {
    if |v| < 4 then [] else [GetL(v)] + DecodeQuads(v[4..])
  }

  function DecodeOctals(v: seq<Octet>): seq<nat> {
    if |v| < 8 then [] else [GetL(v) * 0x1_0000_0000 + GetL(v[4..])] + DecodeOctals(v[8..])
  }

  predicate Martian(a: Quad) {
    a / 0x100_0000 == 0 || a / 0x100_0000 == 127 || a / 0x100_0000 >= 224
  }

  predicate LinkLocal(a: seq<Octet>) {
    |a| == 16 && a[0] == 0xfe && a[1] / 64 == 2
  }

  /** bgp_mp_reach_parse, on an attribute value. */
  function ReachOf(v: seq<Octet>): Option<Reach> {
    if |v| < 5 then None
    else
      var n: nat := v[3];
      if |v| - 4 < n || n !in {4, 12, 16, 24, 32, 48} || |v| - 4 - n < 2 then None
      else
        var hop := v[4..4 + n];
        var length := if n in {32, 48} && !LinkLocal(hop[n - 16..]) then 16 else n;
        Some(Reach(GetW(v), v[2], length, hop, v[5 + n..]))
  }

  function UnreachOf(v: seq<Octet>): Option<Unreach> {
    if |v| < 3 then None else Some(Unreach(GetW(v), v[2], v[3..]))
  }

  /** A multiprotocol nexthop of four octets also fills an unset NEXT_HOP. */
  function HopOf(a: Attr, r: Reach): Quad {
    if |r.nexthop| == 4 && a.nexthop == 0 then GetL(r.nexthop) else a.nexthop
  }

  function PartialSet(f: Octet): Octet {
    if f / 32 % 2 == 1 then f else f + 32
  }

  function MarkedPartial(t: Tlv): (k: Tlv)
    ensures k.Encodable() <==> t.Encodable()
  {
    t.(flags := PartialSet(t.flags))
  }

  /** bgp_attr_unknown keeps transitive attributes, marked partial, to pass them on. */
  function UnknownValue(t: Tlv, st: State): Outcome
    requires t.Encodable()
  {
    if !t.Optional() then Malformed
    else if !t.Transitive() then Took(st, |t.value|)
    else Took(st.(attr := st.attr.(transit := st.attr.transit + EncodeTlv(MarkedPartial(t)))), |t.value|)
  }

  function EncapValue(t: Tlv, st: State): Outcome {
    if !t.Transitive() || !t.Optional() then Refused
    else
      match Encap.ParseValue(t.value)
      case None => Refused
      case Some((tunnel, subs)) =>
        var a := st.attr;
        Took(st.(attr := if subs == [] then a else a.(subs := a.subs + subs, tunnel := tunnel)), |t.value|)
  }

  function PathValue(ses: Session, t: Tlv, st: State): Outcome {
    match AsPathWire.Parse(t.value, ses.as4 || t.code == AS4_PATH)
    case None => Malformed
    case Some(p) =>
      if t.code == AS_PATH then Took(st.With(st.attr.(aspath := p), AS_PATH), |t.value|)
      else Took(st.(as4Path := p).With(st.attr, AS4_PATH), |t.value|)
  }

  function AggregatorValue(ses: Session, t: Tlv, st: State): Outcome {
    var v := t.value;
    if t.code == AS4_AGGREGATOR then
      if |v| != 8 then Malformed
      else Took(st.(as4Aggregator := GetL(v), as4AggregatorAddr := GetL(v[4..])).With(st.attr, AS4_AGGREGATOR), 8)
    else if |v| != if ses.as4 then 8 else 6 then Malformed
    else if ses.as4 then
      Took(st.With(st.attr.(aggregator := GetL(v), aggregatorAddr := GetL(v[4..])), AGGREGATOR), 8)
    else Took(st.With(st.attr.(aggregator := GetW(v), aggregatorAddr := GetL(v[2..])), AGGREGATOR), 6)
  }

  /** The parser that bgp_attr_parse picks for the attribute. */
  function Value(ses: Session, t: Tlv, st: State): Outcome
    requires t.Encodable()
  {
    var v, a := t.value, st.attr;
    match t.code
    case 1 =>
      if |v| != 1 || v[0] > 2 then Malformed else Took(st.With(a.(origin := v[0]), ORIGIN), 1)
    case 2 => PathValue(ses, t, st)
    case 3 =>
      if |v| != 4 || Martian(GetL(v)) then Malformed else Took(st.With(a.(nexthop := GetL(v)), NEXT_HOP), 4)
    case 4 =>
      if |v| != 4 then Malformed else Took(st.With(a.(med := GetL(v)), MED), 4)
    case 5 =>
      if |v| != 4 then Malformed
      else if ses.sort.Ebgp? then Took(st, |v|)
      else Took(st.With(a.(localPref := GetL(v)), LOCAL_PREF), 4)
    case 6 =>
      if |v| != 0 then Malformed else Took(st.With(a, ATOMIC_AGGREGATE), 0)
    case 7 => AggregatorValue(ses, t, st)
    case 8 =>
      if |v| == 0 then Took(st.(attr := a.(community := [])), 0)
      else if |v| % 4 != 0 then Malformed
      else Took(st.With(a.(community := SortUniq(DecodeQuads(v))), COMMUNITIES), |v|)
    case 9 =>
      if |v| != 4 then Malformed else Took(st.With(a.(originator := GetL(v)), ORIGINATOR_ID), 4)
    case 10 =>
      if |v| % 4 != 0 then Malformed else Took(st.With(a.(cluster := v), CLUSTER_LIST), |v|)
    case 14 =>
      (match ReachOf(v)
       case None => Refused
       case Some(r) => Took(st.With(a.(reach := Some(r), nexthop := HopOf(a, r)), MP_REACH), |v|))
    case 15 =>
      (match UnreachOf(v)
       case None => Refused
       case Some(u) => Took(st.With(a.(unreach := Some(u)), MP_UNREACH), |v|))
    case 16 =>
      if |v| == 0 then Took(st.(attr := a.(ecommunity := [])), 0)
      else if |v| % 8 != 0 then Malformed
      else Took(st.With(a.(ecommunity := SortUniq(DecodeOctals(v))), EXT_COMMUNITIES), |v|)
    case 17 => PathValue(ses, t, st)
    case 18 => AggregatorValue(ses, t, st)
    case 23 => EncapValue(t, st)
    case _ => UnknownValue(t, st)
  }

  /** attr_flags_values: the required Optional and Transitive bits, for the codes that have any. */
  function RequiredFlags(code: Octet): Option<(bool, bool)> {
    if code in {ORIGIN, AS_PATH, NEXT_HOP, LOCAL_PREF, ATOMIC_AGGREGATE} then Some((false, true))
    else if code in {MED, ORIGINATOR_ID, CLUSTER_LIST, MP_REACH, MP_UNREACH} then Some((true, false))
    else if code in {AGGREGATOR, COMMUNITIES, EXT_COMMUNITIES, AS4_PATH, AS4_AGGREGATOR} then Some((true, true))
    else None
  }

  /** bgp_attr_flag_invalid */
  predicate FlagsInvalid(t: Tlv) {
    match RequiredFlags(t.code)
    case None => false
    case Some((optional, transitive)) =>
      || (!t.Optional() && !t.Transitive())
      || (t.Partial() && !(t.Optional() && t.Transitive()))
      || t.Optional() != optional
      || t.Transitive() != transitive
  }

  /** bgp_attr_malformed: how much harm a malformed attribute does. */
  function Malformation(ses: Session, t: Tlv, st: State): Result {
    if !ses.sort.Ebgp? then Error
    else if t.code in {AS4_AGGREGATOR, AGGREGATOR, ATOMIC_AGGREGATE} then Proceed(st)
    else if t.code in {ORIGIN, AS_PATH, NEXT_HOP, MED, LOCAL_PREF, COMMUNITIES, ORIGINATOR_ID, CLUSTER_LIST,
                       MP_REACH, MP_UNREACH, EXT_COMMUNITIES} then Error
    else if t.Transitive() && t.Optional() && t.Partial() then Withdraw
    else NotifyPls
  }

  /** One turn of the loop, once the attribute is known to lie within the block. */
  function One(ses: Session, t: Tlv, st: State): Result
    requires t.Encodable()
  {
    if FlagsInvalid(t) then Malformation(ses, t, st)
    else
      match Value(ses, t, st)
      case Malformed => (match Malformation(ses, t, st) case NotifyPls => Error case r => r)
      case Refused => Error
      case Took(st', read) => if read == |t.value| then Proceed(st') else Error
  }

  // ----- The whole block

  function HeaderLength(b: seq<Octet>): nat
    requires |b| >= 1
  {
    if b[0] / 16 % 2 == 1 then 4 else 3
  }

  function ValueLength(b: seq<Octet>): nat
    requires |b| >= 3 && |b| >= HeaderLength(b)
  {
    if b[0] / 16 % 2 == 1 then GetW(b[2..4]) else b[2]
  }

  /** The first attribute of a block, if it has a whole one. */
  function First(b: seq<Octet>): (r: Option<(Tlv, seq<Octet>)>)
    ensures r.Some? ==> r.value.0.Encodable() && |r.value.1| < |b|
  {
    if |b| < 3 || |b| < HeaderLength(b) then None
    else
      var at := HeaderLength(b);
      var n := ValueLength(b);
      if at + n > |b| then None
      else Some((Tlv(b[0], b[1], b[at..at + n]), b[at + n..]))
  }

  function Loop(ses: Session, b: seq<Octet>, seen: set<Octet>, st: State): Result
    decreases |b|
  {
    if b == [] then Proceed(st)
    else
      match First(b)
      case None => Error
      case Some((t, rest)) =>
        if t.code in seen then Error
        else
          match One(ses, t, st)
          case Proceed(st') => Loop(ses, rest, seen + {t.code}, st')
          case r => r
  }

  /** bgp_attr_check */
  predicate Complete(ses: Session, flags: set<Octet>) {
    || (ses.restart && flags == {})
    || flags == {MP_UNREACH}
    || (&& ORIGIN in flags
        && AS_PATH in flags
        && (NEXT_HOP in flags || MP_REACH in flags)
        && (ses.sort.Ibgp? ==> LOCAL_PREF in flags))
  }

  /** bgp_attr_munge_as4_attrs: AS4_AGGREGATOR and AS4_PATH take effect on an OLD session. */
  function Munge(ses: Session, st: State): Attr {
    var a := st.attr;
    if ses.as4 then a
    else if AS4_AGGREGATOR in a.flags && AGGREGATOR in a.flags && a.aggregator != AS_TRANS then a
    else
      var b := if AS4_AGGREGATOR !in a.flags then a
               else if AGGREGATOR in a.flags
               then a.(aggregator := st.as4Aggregator, aggregatorAddr := st.as4AggregatorAddr)
               else a.(aggregator := st.as4Aggregator, flags := a.flags + {AGGREGATOR});
      if AS4_PATH in a.flags then b.(aspath := Reconcile(a.aspath, st.as4Path)) else b
  }

  predicate FirstAs(p: Path, a: Asn) {
    p != [] && p[0].kind.AsSequence? && p[0].asns != [] && p[0].asns[0] == a
  }

  /** aspath_add_asns, for one ASN */
  function AddAsn(p: Path, a: Asn, kind: SegType): Path {
    if p != [] && p[0].kind == kind then [Segment(kind, [a] + p[0].asns)] + p[1..]
    else if p != [] && p[0].asns == [] then [Segment(kind, [a])] + p[1..]
    else [Segment(kind, [a])] + p
  }

  /** aspath_add_seq */
  function AddSeq(p: Path, a: Asn): Path {
    AddAsn(p, a, AsSequence)
  }

  /** bgp_attr_aspath_check: the checks that wait for the reconciled path. */
  function CheckPath(ses: Session, st: State): Result {
    var p := st.attr.aspath;
    if ses.sort.Confed? && !(p != [] && p[0].kind.IsConfed()) then Error
    else if ses.sort.Ebgp? && !NoConfed(p) then Error
    else if ses.enforceFirstAs && ses.sort.Ebgp? && !FirstAs(p, ses.remoteAs) then Error
    else if ses.localAs.Some? then Proceed(st.(attr := st.attr.(aspath := AddSeq(p, ses.localAs.value))))
    else Proceed(st)
  }

  function Finish(ses: Session, st: State): Result {
    if !Complete(ses, st.attr.flags) then Error
    else if AS_PATH in st.attr.flags then CheckPath(ses, st.(attr := Munge(ses, st)))
    else Proceed(st)
  }

  /** bgp_attr_parse */
  function Parse(ses: Session, b: seq<Octet>): Result {
    match Loop(ses, b, {}, START)
    case Proceed(st) => Finish(ses, st)
    case r => r
  }

  // ----- The block is tiled by the attributes read

  /** The attributes that a block consists of, end to end. */
  function Split(b: seq<Octet>): Option<seq<Tlv>> {
    if b == [] then Some([])
    else
      match First(b)
      case None => None
      case Some((t, rest)) =>
        match Split(rest)
        case None => None
        case Some(ts) => Some([t] + ts)
  }

  lemma FirstJoins(b: seq<Octet>)
    requires First(b).Some?
    ensures EncodeTlv(First(b).value.0) + First(b).value.1 == b
  {
    var at, n := HeaderLength(b), ValueLength(b);
    assert b == b[..at] + b[at..at + n] + b[at + n..];
    if at == 4 {
      PutGetW(b[2..4]);
      assert b[..at] == [b[0], b[1]] + b[2..4];
    } else {
      assert b[..at] == [b[0], b[1]] + [b[2]];
    }
  }

  lemma JoinFirst(t: Tlv, rest: seq<Octet>)
    requires t.Encodable()
    ensures First(EncodeTlv(t) + rest) == Some((t, rest))
  {
    var b := EncodeTlv(t) + rest;
    var at := HeaderLength(b);
    if t.Extended() {
      assert b[2..4] == PutW(|t.value|) + [];
      GetPutW(|t.value|, []);
    }
    assert b[at..at + |t.value|] == t.value && b[at + |t.value|..] == rest;
  }

  /** A block is the concatenation of what it splits into... */
  lemma {:induction false} SplitJoins(b: seq<Octet>)
    requires Split(b).Some?
    ensures AllEncodable(Split(b).value) && Join(Split(b).value) == b
    decreases |b|
  {
    hide EncodeTlv;
    hide First;
    if b != [] {
      var f := First(b).value;
      FirstJoins(b);
      SplitJoins(f.1);
      var ts := Split(f.1).value;
      assert ([f.0] + ts)[1..] == ts;
    }
  }

  lemma EncodedNotEmpty(t: Tlv)
    requires t.Encodable()
    ensures EncodeTlv(t) != []
  {
  }

  /** ...and a concatenation of attributes splits in only one way. */
  lemma {:induction false} JoinSplits(ts: seq<Tlv>)
    requires AllEncodable(ts)
    ensures Split(Join(ts)) == Some(ts)
  {
    if ts != [] {
      hide EncodeTlv;
      hide First;
      JoinFirst(ts[0], Join(ts[1..]));
      JoinSplits(ts[1..]);
      assert Join(ts) != [] by { EncodedNotEmpty(ts[0]); }
      assert ts == [ts[0]] + ts[1..];
    }
  }

  // ----- What the parser stored is what the attributes say

  /** The state holds the value of attribute `t`, and that value is well formed. */
  ghost predicate Stored(ses: Session, t: Tlv, st: State) {
    var v, a := t.value, st.attr;
    match t.code
    case 1 => v == [a.origin] && a.origin <= 2
    case 2 => AsPathWire.Parse(v, ses.as4) == Some(a.aspath)
    case 3 => v == PutL(a.nexthop) && !Martian(a.nexthop)
    case 4 => v == PutL(a.med)
    case 5 => v == PutL(a.localPref) && !ses.sort.Ebgp?
    case 6 => v == []
    case 7 =>
      && (ses.as4 || a.aggregator <= AS_MAX)
      && v == (if ses.as4 then PutL(a.aggregator) else PutW(a.aggregator)) + PutL(a.aggregatorAddr)
    case 8 => v != [] && |v| % 4 == 0 && Strict(a.community) && Elems(a.community) == Elems(DecodeQuads(v))
    case 9 => v == PutL(a.originator)
    case 10 => v == a.cluster && |v| % 4 == 0
    case 14 => a.reach.Some? && ReachOf(v) == a.reach
    case 15 => a.unreach.Some? && UnreachOf(v) == a.unreach
    case 16 => v != [] && |v| % 8 == 0 && Strict(a.ecommunity) && Elems(a.ecommunity) == Elems(DecodeOctals(v))
    case 17 => AsPathWire.Parse(v, true) == Some(st.as4Path)
    case 18 => v == PutL(st.as4Aggregator) + PutL(st.as4AggregatorAddr)
    case _ => true
  }

  lemma TwoQuads(v: seq<Octet>)
    requires |v| == 8
    ensures PutL(GetL(v)) + PutL(GetL(v[4..])) == v
  {
    PutGetL(v[..4]);
    PutGetL(v[4..]);
    assert v == v[..4] + v[4..];
  }

  lemma WordAndQuad(v: seq<Octet>)
    requires |v| == 6
    ensures PutW(GetW(v)) + PutL(GetL(v[2..])) == v
  {
    PutGetW(v[..2]);
    PutGetL(v[2..]);
    assert v == v[..2] + v[2..];
  }

  lemma AggregatorStores(ses: Session, t: Tlv, st: State)
    requires t.code in {AGGREGATOR, AS4_AGGREGATOR} && AggregatorValue(ses, t, st).Took?
    ensures Stored(ses, t, AggregatorValue(ses, t, st).st)
  {
    if t.code == AS4_AGGREGATOR || ses.as4 {
      TwoQuads(t.value);
    } else {
      WordAndQuad(t.value);
    }
  }

  /** A parser sets no flag but its own, and then it has stored the value. */
  lemma ValueStores(ses: Session, t: Tlv, st: State)
    requires t.Encodable() && Value(ses, t, st).Took?
    ensures var st' := Value(ses, t, st).st;
            && st.attr.flags <= st'.attr.flags <= st.attr.flags + {t.code}
            && (t.code in st'.attr.flags && t.code !in st.attr.flags ==> Stored(ses, t, st'))
  {
    hide PutL;
    hide GetL;
    var v := t.value;
    if |v| == 4 {
      PutGetL(v);
    }
    if t.code in {AGGREGATOR, AS4_AGGREGATOR} {
      AggregatorStores(ses, t, st);
    }
    SortUniqStrict(DecodeQuads(v));
    SortUniqStrict(DecodeOctals(v));
  }

  /** A parser changes only the fields of its own attribute, except that MP_REACH may fill an unset NEXT_HOP. */
  lemma ValueFrame(ses: Session, t: Tlv, st: State)
    requires t.Encodable() && Value(ses, t, st).Took?
    ensures var st' := Value(ses, t, st).st;
            var a, a', c := st.attr, st'.attr, t.code;
            && (c != 1 ==> a'.origin == a.origin) && (c != 2 ==> a'.aspath == a.aspath)
            && (c != 3 && a.nexthop != 0 ==> a'.nexthop == a.nexthop) && (c != 4 ==> a'.med == a.med)
            && (c != 5 ==> a'.localPref == a.localPref) && (c != 7 ==> a'.aggregator == a.aggregator)
            && (c != 7 ==> a'.aggregatorAddr == a.aggregatorAddr) && (c != 8 ==> a'.community == a.community)
            && (c != 9 ==> a'.originator == a.originator) && (c != 10 ==> a'.cluster == a.cluster)
            && (c != 14 ==> a'.reach == a.reach) && (c != 15 ==> a'.unreach == a.unreach)
            && (c != 16 ==> a'.ecommunity == a.ecommunity) && (c != 17 ==> st'.as4Path == st.as4Path)
            && (c != 18 ==> st'.as4Aggregator == st.as4Aggregator && st'.as4AggregatorAddr == st.as4AggregatorAddr)
  {
  }

  /** So what was stored stays stored. */
  lemma ValueKeeps(ses: Session, t: Tlv, st: State, u: Tlv)
    requires t.Encodable() && Value(ses, t, st).Took? && t.code != u.code && Stored(ses, u, st)
    ensures Stored(ses, u, Value(ses, t, st).st)
  {
    ValueFrame(ses, t, st);
    hide Value;
    hide PutL;
  }

  lemma OneIsValue(ses: Session, t: Tlv, st: State)
    requires t.Encodable() && One(ses, t, st).Proceed?
    ensures One(ses, t, st).st == st || (Value(ses, t, st).Took? && One(ses, t, st).st == Value(ses, t, st).st)
  {
    hide Value;
  }

  /** Whether an attribute is acceptable does not depend on what was read before it. */
  lemma OneAnywhere(ses: Session, t: Tlv, st: State, st': State)
    requires t.Encodable()
    ensures One(ses, t, st).Proceed? <==> One(ses, t, st').Proceed?
    ensures Value(ses, t, st).Took? ==> Value(ses, t, st).read == |t.value|
  {
    hide AsPathWire.Parse;
    hide Encap.ParseValue;
  }

  /** Some attributes are accepted but ignored; this one sets its flag. */
  ghost predicate Flagged(ses: Session, t: Tlv) {
    t.Encodable() && One(ses, t, START).Proceed? && t.code in One(ses, t, START).st.attr.flags
  }

  /** What a successful run over a block has established. */
  ghost predicate Agrees(ses: Session, ts: seq<Tlv>, st: State) {
    forall t | t in ts :: (t.code in st.attr.flags <==> Flagged(ses, t)) && (Flagged(ses, t) ==> Stored(ses, t, st))
  }

  lemma ValueFlag(ses: Session, t: Tlv, st: State)
    requires t.Encodable() && Value(ses, t, st).Took? && t.code !in st.attr.flags
    ensures Value(ses, t, START).Took?
    ensures t.code in Value(ses, t, st).st.attr.flags <==> t.code in Value(ses, t, START).st.attr.flags
  {
    hide AsPathWire.Parse;
    hide Encap.ParseValue;
  }

  /** Nor does its flag depend on what was read before. */
  lemma FlagAnywhere(ses: Session, t: Tlv, st: State)
    requires t.Encodable() && One(ses, t, st).Proceed? && t.code !in st.attr.flags
    ensures t.code in One(ses, t, st).st.attr.flags <==> Flagged(ses, t)
  {
    OneAnywhere(ses, t, st, START);
    if Value(ses, t, st).Took? {
      ValueFlag(ses, t, st);
    }
  }

  lemma {:induction false} CodesMember(ts: seq<Tlv>)
    ensures forall t | t in ts :: t.code in Codes(ts)
  {
    if ts != [] {
      CodesMember(ts[1..]);
    }
  }

  lemma LoopStep(ses: Session, t: Tlv, st: State, before: seq<Tlv>)
    requires t.Encodable() && One(ses, t, st).Proceed?
    requires t.code !in st.attr.flags && Agrees(ses, before, st)
    requires forall u | u in before :: u.code != t.code
    ensures var st' := One(ses, t, st).st;
            && st.attr.flags <= st'.attr.flags <= st.attr.flags + {t.code}
            && Agrees(ses, before + [t], st')
  {
    OneIsValue(ses, t, st);
    FlagAnywhere(ses, t, st);
    hide One;
    hide Value;
    hide Stored;
    hide Flagged;
    var st' := One(ses, t, st).st;
    if st' != st {
      ValueStores(ses, t, st);
      forall u | u in before && Flagged(ses, u)
        ensures Stored(ses, u, st')
      {
        ValueKeeps(ses, t, st, u);
      }
    }
  }

  /** From any point of the loop on: attributes read earlier stay stored, the rest is tiled and gets stored. */
  lemma {:induction false} LoopReads(ses: Session, b: seq<Octet>, seen: set<Octet>, st: State, before: seq<Tlv>)
    requires Loop(ses, b, seen, st).Proceed?
    requires st.attr.flags <= seen && Agrees(ses, before, st)
    requires forall t | t in before :: t.code in seen
    ensures Split(b).Some?
    ensures var ts, st' := Split(b).value, Loop(ses, b, seen, st).st;
            && NoDup(Codes(ts))
            && (forall c | c in Codes(ts) :: c !in seen)
            && st.attr.flags <= st'.attr.flags
            && (forall c | c in st'.attr.flags :: c in st.attr.flags || c in Codes(ts))
            && Agrees(ses, before + ts, st')
    decreases |b|
  {
    hide One;
    hide First;
    hide Stored;
    hide Flagged;
    if b == [] {
      assert before + [] == before;
    } else {
      var f := First(b).value;
      var t, rest := f.0, f.1;
      var st' := One(ses, t, st).st;
      LoopStep(ses, t, st, before);
      assert forall u | u in before + [t] :: u.code in seen + {t.code};
      LoopReads(ses, rest, seen + {t.code}, st', before + [t]);
      var ts := Split(rest).value;
      Assoc(before, [t], ts);
      assert Codes([t] + ts) == [t.code] + Codes(ts) by { assert ([t] + ts)[1..] == ts; }
      assert t.code !in Codes(ts);
      NoDupPrepend(Codes(ts), t.code);
    }
  }

  /** The mandatory attributes are among those read, unless the UPDATE may do without. */
  predicate Mandatory(ses: Session, ts: seq<Tlv>, flags: set<Octet>) {
    || (ses.restart && flags == {})
    || flags == {MP_UNREACH}
    || (&& ORIGIN in Codes(ts)
        && AS_PATH in Codes(ts)
        && (NEXT_HOP in Codes(ts) || MP_REACH in Codes(ts))
        && (ses.sort.Ibgp? ==> LOCAL_PREF in Codes(ts)))
  }

  lemma FinishFrame(ses: Session, st: State)
    requires Finish(ses, st).Proceed?
    ensures Complete(ses, st.attr.flags)
    ensures var a, a' := st.attr, Finish(ses, st).st.attr;
            a' == a.(aspath := a'.aspath, aggregator := a'.aggregator, aggregatorAddr := a'.aggregatorAddr,
                     flags := if AGGREGATOR in a'.flags then a.flags + {AGGREGATOR} else a.flags)
  {
  }

  /**
   When bgp_attr_parse proceeds, the block is tiled by attributes of pairwise different codes,
   every flagged attribute is one of them with the value stored, and the mandatory ones were there.
   */
  lemma ParseProceeds(ses: Session, b: seq<Octet>)
    requires Parse(ses, b).Proceed?
    ensures Split(b).Some? && AllEncodable(Split(b).value) && Join(Split(b).value) == b
    ensures var ts, st := Split(b).value, Loop(ses, b, {}, START).st;
            && NoDup(Codes(ts))
            && Agrees(ses, ts, st)
            && (forall c | c in st.attr.flags :: c in Codes(ts))
            && Mandatory(ses, ts, st.attr.flags)
    ensures var a, a' := Loop(ses, b, {}, START).st.attr, Parse(ses, b).st.attr;
            a' == a.(aspath := a'.aspath, aggregator := a'.aggregator, aggregatorAddr := a'.aggregatorAddr,
                     flags := if AGGREGATOR in a'.flags then a.flags + {AGGREGATOR} else a.flags)
  {
    hide Loop;
    hide Split;
    hide Stored;
    hide Finish;
    hide Join;
    hide NoDup;
    var st := Loop(ses, b, {}, START).st;
    LoopReads(ses, b, {}, START, []);
    SplitJoins(b);
    assert [] + Split(b).value == Split(b).value;
    FinishFrame(ses, st);
  }

  ghost predicate Acceptable(ses: Session, t: Tlv) {
    t.Encodable() && One(ses, t, START).Proceed?
  }

  /** The loop accepts exactly the tilings by acceptable attributes of different codes. */
  lemma {:induction false} LoopAcceptsIff(ses: Session, b: seq<Octet>, seen: set<Octet>, st: State)
    ensures Loop(ses, b, seen, st).Proceed? <==>
            && Split(b).Some?
            && NoDup(Codes(Split(b).value))
            && (forall c | c in Codes(Split(b).value) :: c !in seen)
            && (forall t | t in Split(b).value :: Acceptable(ses, t))
    decreases |b|
  {
    hide One;
    hide First;
    if b != [] && First(b).Some? {
      var f := First(b).value;
      var t, rest := f.0, f.1;
      OneAnywhere(ses, t, st, START);
      if Split(rest).Some? {
        var ts := Split(rest).value;
        assert Codes([t] + ts) == [t.code] + Codes(ts) by { assert ([t] + ts)[1..] == ts; }
        assert ([t.code] + Codes(ts))[1..] == Codes(ts);
        assert t in [t] + ts;
      }
      if One(ses, t, st).Proceed? {
        LoopAcceptsIff(ses, rest, seen + {t.code}, One(ses, t, st).st);
      }
    }
  }

  // ----- Unknown attributes are passed on

  predicate Known(code: Octet) {
    code in {ORIGIN, AS_PATH, NEXT_HOP, MED, LOCAL_PREF, ATOMIC_AGGREGATE, AGGREGATOR, COMMUNITIES, ORIGINATOR_ID,
             CLUSTER_LIST, MP_REACH, MP_UNREACH, EXT_COMMUNITIES, AS4_PATH, AS4_AGGREGATOR, ENCAP}
  }

  /** What goes to other neighbours: the unknown optional transitive attributes, marked partial. */
  function PassedOn(ts: seq<Tlv>): seq<Tlv> {
    if ts == [] then []
    else if !Known(ts[0].code) && ts[0].Optional() && ts[0].Transitive() then
      [MarkedPartial(ts[0])] + PassedOn(ts[1..])
    else PassedOn(ts[1..])
  }

  lemma PartialOnly(t: Tlv)
    ensures var k := MarkedPartial(t);
            && k.Partial() && k.Optional() == t.Optional() && k.Transitive() == t.Transitive()
            && MarkedPartial(k) == k
  {
  }

  lemma {:induction false} PassedOnEncodable(ts: seq<Tlv>)
    requires AllEncodable(ts)
    ensures AllEncodable(PassedOn(ts))
  {
    if ts != [] {
      PassedOnEncodable(ts[1..]);
      var rest := PassedOn(ts[1..]);
      assert ([MarkedPartial(ts[0])] + rest)[1..] == rest;
    }
  }

  /** Passing on a second time changes nothing more. */
  lemma {:induction false} PassedOnAgain(ts: seq<Tlv>)
    ensures PassedOn(PassedOn(ts)) == PassedOn(ts)
  {
    if ts != [] {
      PassedOnAgain(ts[1..]);
      PartialOnly(ts[0]);
      var k, rest := MarkedPartial(ts[0]), PassedOn(ts[1..]);
      assert ([k] + rest)[1..] == rest;
    }
  }

  lemma {:induction false} PassedOnUnknown(ts: seq<Tlv>)
    ensures forall t | t in PassedOn(ts) :: !Known(t.code) && t.Optional() && t.Transitive()
  {
    hide Known;
    if ts != [] {
      PassedOnUnknown(ts[1..]);
      PartialOnly(ts[0]);
    }
  }

  lemma {:induction false} PassedOnConcat(ts: seq<Tlv>, us: seq<Tlv>)
    ensures PassedOn(ts + us) == PassedOn(ts) + PassedOn(us)
    ensures Codes(ts + us) == Codes(ts) + Codes(us)
  {
    hide Known;
    if ts == [] {
      assert ts + us == us;
    } else {
      PassedOnConcat(ts[1..], us);
      assert (ts + us)[1..] == ts[1..] + us;
      Assoc([MarkedPartial(ts[0])], PassedOn(ts[1..]), PassedOn(us));
      Assoc([ts[0].code], Codes(ts[1..]), Codes(us));
    }
  }

  lemma {:induction false} PassedOnCodes(ts: seq<Tlv>)
    ensures forall c | c in Codes(PassedOn(ts)) :: c in Codes(ts)
    ensures NoDup(Codes(ts)) ==> NoDup(Codes(PassedOn(ts)))
  {
    hide Known;
    if ts != [] {
      PassedOnCodes(ts[1..]);
      var k, rest := MarkedPartial(ts[0]), PassedOn(ts[1..]);
      assert ([k] + rest)[1..] == rest;
      assert ([ts[0].code] + Codes(ts[1..]))[1..] == Codes(ts[1..]);
      if NoDup(Codes(ts)) {
        NoDupPrepend(Codes(rest), k.code);
      }
    }
  }

  lemma {:induction false} JoinConcat(ts: seq<Tlv>, us: seq<Tlv>)
    requires AllEncodable(ts) && AllEncodable(us)
    ensures AllEncodable(ts + us) && Join(ts + us) == Join(ts) + Join(us)
  {
    hide EncodeTlv;
    if ts == [] {
      assert ts + us == us;
    } else {
      JoinConcat(ts[1..], us);
      assert (ts + us)[1..] == ts[1..] + us;
      Assoc(EncodeTlv(ts[0]), Join(ts[1..]), Join(us));
    }
  }

  /** What is kept for the neighbours are whole unknown attributes of different codes, fit to be passed on. */
  predicate TransitRight(transit: seq<Octet>) {
    && Split(transit).Some?
    && PassedOn(Split(transit).value) == Split(transit).value
    && NoDup(Codes(Split(transit).value))
  }

  lemma OneTransit(ses: Session, t: Tlv, st: State)
    requires t.Encodable() && One(ses, t, st).Proceed?
    ensures One(ses, t, st).st.attr.transit ==
            st.attr.transit + if !Known(t.code) && t.Optional() && t.Transitive()
                              then EncodeTlv(MarkedPartial(t)) else []
  {
    hide AsPathWire.Parse;
    hide Encap.ParseValue;
    hide EncodeTlv;
    assert st.attr.transit + [] == st.attr.transit;
  }

  /** The parser keeps exactly these attributes, in order, for the neighbours. */
  lemma {:induction false} TransitPassedOn(ses: Session, b: seq<Octet>, seen: set<Octet>, st: State)
    requires Loop(ses, b, seen, st).Proceed?
    ensures Split(b).Some? && AllEncodable(PassedOn(Split(b).value))
    ensures Loop(ses, b, seen, st).st.attr.transit == st.attr.transit + Join(PassedOn(Split(b).value))
    decreases |b|
  {
    hide One;
    hide First;
    hide EncodeTlv;
    if b == [] {
      assert st.attr.transit + [] == st.attr.transit;
    } else {
      var f := First(b).value;
      var t, rest := f.0, f.1;
      var st' := One(ses, t, st).st;
      TransitPassedOn(ses, rest, seen + {t.code}, st');
      OneTransit(ses, t, st);
      var ts := Split(rest).value;
      var k, on := MarkedPartial(t), PassedOn(ts);
      assert ([t] + ts)[1..] == ts && ([k] + on)[1..] == on;
      if !Known(t.code) && t.Optional() && t.Transitive() {
        Assoc(st.attr.transit, EncodeTlv(k), Join(on));
      } else {
        assert st.attr.transit + [] == st.attr.transit;
      }
    }
  }

  /** Whatever bgp_attr_parse proceeds with is fit to be passed on. */
  lemma ParsedTransit(ses: Session, b: seq<Octet>)
    requires Parse(ses, b).Proceed?
    ensures TransitRight(Parse(ses, b).st.attr.transit)
  {
    hide Loop;
    hide Split;
    hide Finish;
    hide Join;
    hide PassedOn;
    hide Agrees;
    hide Mandatory;
    ParseProceeds(ses, b);
    TransitPassedOn(ses, b, {}, START);
    var ts := Split(b).value;
    var on := PassedOn(ts);
    assert [] + Join(on) == Join(on);
    JoinSplits(on);
    PassedOnAgain(ts);
    PassedOnCodes(ts);
  }

  // ----- Errors do no more harm than they have to

  /**
   On an internal session every error is fatal.  On an external one, an attribute that does not matter is never
   in the way, and routes are withdrawn only for an optional transitive attribute marked partial, which somebody
   other than the neighbour may have broken.
   */
  lemma ErrorsContained(ses: Session, t: Tlv, st: State)
    requires t.Encodable()
    ensures !ses.sort.Ebgp? ==> One(ses, t, st).Proceed? || One(ses, t, st).Error?
    ensures ses.sort.Ebgp? && t.code in {AGGREGATOR, AS4_AGGREGATOR, ATOMIC_AGGREGATE} ==> One(ses, t, st).Proceed?
    ensures One(ses, t, st).Withdraw? ==> ses.sort.Ebgp? && t.Optional() && t.Transitive() && t.Partial()
    ensures One(ses, t, st).NotifyPls? ==> ses.sort.Ebgp? && FlagsInvalid(t)
  {
    hide AsPathWire.Parse;
    hide Encap.ParseValue;
    hide EncodeTlv;
  }

  /** On an internal session there is nothing between success and failure. */
  lemma {:induction false} InternalErrors(ses: Session, b: seq<Octet>, seen: set<Octet>, st: State)
    requires !ses.sort.Ebgp?
    ensures Loop(ses, b, seen, st).Proceed? || Loop(ses, b, seen, st).Error?
    decreases |b|
  {
    hide One;
    hide First;
    if b != [] && First(b).Some? {
      var f := First(b).value;
      ErrorsContained(ses, f.0, st);
      if One(ses, f.0, st).Proceed? {
        InternalErrors(ses, f.1, seen + {f.0.code}, One(ses, f.0, st).st);
      }
    }
  }

  /** Routes are withdrawn only on an external session, and only for such an attribute of the block. */
  lemma {:induction false} WithdrawnFor(ses: Session, b: seq<Octet>, seen: set<Octet>, st: State)
    returns (before: seq<Tlv>, t: Tlv, rest: seq<Octet>)
    requires Loop(ses, b, seen, st).Withdraw?
    ensures AllEncodable(before) && t.Encodable() && b == Join(before) + EncodeTlv(t) + rest
    ensures ses.sort.Ebgp? && t.Optional() && t.Transitive() && t.Partial()
    ensures t.code !in seen && t.code !in Codes(before)
    decreases |b|
  {
    hide One;
    hide First;
    hide EncodeTlv;
    var f := First(b).value;
    FirstJoins(b);
    ErrorsContained(ses, f.0, st);
    if One(ses, f.0, st).Withdraw? {
      before, t, rest := [], f.0, f.1;
      assert [] + EncodeTlv(t) + rest == EncodeTlv(t) + rest;
    } else {
      before, t, rest := WithdrawnFor(ses, f.1, seen + {f.0.code}, One(ses, f.0, st).st);
      assert ([f.0] + before)[1..] == before;
      Assoc(EncodeTlv(f.0), Join(before), EncodeTlv(t));
      Assoc(EncodeTlv(f.0), Join(before) + EncodeTlv(t), rest);
      before := [f.0] + before;
    }
  }

  // ----- The tunnel encapsulation attribute within a block

  function EncapTlv(tunnel: Encap.Word, subs: seq<Encap.SubTlv>): Tlv {
    Tlv(if Encap.LengthField(subs) > 255 then 208 else 192, ENCAP, Encap.EncodeValue(tunnel, subs))
  }

  lemma EncapIsTlv(tunnel: Encap.Word, subs: seq<Encap.SubTlv>)
    requires subs != [] && Encap.LengthField(subs) <= 65535
    ensures EncapTlv(tunnel, subs).Encodable()
    ensures Encap.EncodeAttribute(tunnel, subs) == EncodeTlv(EncapTlv(tunnel, subs))
  {
    hide Encap.EncodeSubs;
    hide Encap.SubsLength;
    hide Encap.FitsOctets;
    Encap.EncodedLength(subs);
    var t := EncapTlv(tunnel, subs);
    assert |t.value| == Encap.LengthField(subs);
    hide Encap.EncodeValue;
    hide PutW;
  }

  /** Wherever it stands in a block, in the one- and in the two-octet length form, the attribute is read back. */
  lemma EncapArrives(ses: Session, tunnel: Encap.Word, subs: seq<Encap.SubTlv>, rest: seq<Octet>,
                     seen: set<Octet>, st: State)
    requires subs != [] && Encap.FitsOctets(subs) && Encap.LongEnd(subs) && Encap.LengthField(subs) <= 65535
    requires ENCAP !in seen
    ensures Loop(ses, Encap.EncodeAttribute(tunnel, subs) + rest, seen, st) ==
            Loop(ses, rest, seen + {ENCAP},
                 st.(attr := st.attr.(subs := st.attr.subs + subs, tunnel := tunnel)))
  {
    hide First;
    hide EncodeTlv;
    hide Encap.EncodeValue;
    var t := EncapTlv(tunnel, subs);
    EncapIsTlv(tunnel, subs);
    JoinFirst(t, rest);
    EncodedNotEmpty(t);
    Encap.ValueRoundTripIff(tunnel, subs);
  }

  /** The state with a received tunnel encapsulation. */
  function Encapsulated(st: State, tunnel: Encap.Word, subs: seq<Encap.SubTlv>): State {
    st.(attr := st.attr.(subs := st.attr.subs + subs, tunnel := tunnel))
  }

  lemma EncapsulatedOnce(st: State, tunnel: Encap.Word, subs: seq<Encap.SubTlv>,
                         tunnel': Encap.Word, subs': seq<Encap.SubTlv>)
    ensures Encapsulated(st, tunnel, subs) == Encapsulated(st, tunnel', subs') <==> tunnel == tunnel' && subs == subs'
    ensures Encapsulated(st, tunnel, subs) == st <==> subs == [] && tunnel == st.attr.tunnel
  {
    var a := st.attr.subs;
    assert (a + subs)[|a|..] == subs && (a + subs')[|a|..] == subs';
    assert a + [] == a;
  }

  /** What is read of the attribute decides what is stored. */
  lemma EncapTaken(ses: Session, t: Tlv, st: State)
    requires t.Encodable() && t.Transitive() && t.Optional() && t.code == ENCAP
    ensures One(ses, t, st) ==
            match Encap.ParseValue(t.value)
            case None => Error
            case Some((tunnel, subs)) => Proceed(if subs == [] then st else Encapsulated(st, tunnel, subs))
  {
    hide Encap.ParseValue;
  }

  lemma LoopAlone(ses: Session, t: Tlv, seen: set<Octet>, st: State)
    requires t.Encodable() && t.code !in seen
    ensures Loop(ses, EncodeTlv(t), seen, st) == One(ses, t, st)
  {
    hide First;
    hide EncodeTlv;
    hide One;
    JoinFirst(t, []);
    EncodedNotEmpty(t);
    assert EncodeTlv(t) + [] == EncodeTlv(t);
  }

  /**
   What bgp_packet_mpattr_tea sends is read back exactly for these chains: types and lengths fit their octets, the
   last sub-TLV is long enough, and the whole is not overlong. An empty chain is not sent at all.
   */
  lemma EncapRoundTripIff(ses: Session, tunnel: Encap.Word, subs: seq<Encap.SubTlv>, seen: set<Octet>, st: State)
    requires ENCAP !in seen
    ensures Loop(ses, Encap.EncodeAttribute(tunnel, subs), seen, st) == Proceed(Encapsulated(st, tunnel, subs)) <==>
            if subs == [] then st.attr.tunnel == tunnel
            else Encap.LengthField(subs) <= 65535 && Encap.FitsOctets(subs) && Encap.LongEnd(subs)
  {
    EncapsulatedOnce(st, tunnel, subs, tunnel, subs);
    hide Encapsulated;
    hide One;
    hide Encap.EncodeValue;
    hide Encap.ParseValue;
    hide First;
    if subs == [] || Encap.LengthField(subs) > 65535 {
      assert Loop(ses, [], seen, st) == Proceed(st);
    } else {
      var t := EncapTlv(tunnel, subs);
      EncapIsTlv(tunnel, subs);
      hide EncodeTlv;
      LoopAlone(ses, t, seen, st);
      hide Loop;
      Encap.ValueRoundTripIff(tunnel, subs);
      EncapTaken(ses, t, st);
      match Encap.ParseValue(t.value)
      case None =>
      case Some((tunnel', subs')) => EncapsulatedOnce(st, tunnel, subs, tunnel', subs');
    }
  }

  /** A last sub-TLV with an empty value: the attribute is sent, and refused. */
  lemma ShortEndIsRefused(ses: Session, st: State)
    ensures var b := Encap.EncodeAttribute(1, [Encap.SubTlv(1, [])]);
            b == [192, 23, 6, 0, 1, 0, 2, 1, 0] && Loop(ses, b, {}, st) == Error
  {
    hide Encap.EncodeValue;
    hide Encap.ParseValue;
    hide Encap.EncodeAttribute;
    hide Loop;
    hide One;
    hide EncodeTlv;
    var subs := [Encap.SubTlv(1, [])];
    Encap.ShortEndUnread();
    var t := EncapTlv(1, subs);
    EncapIsTlv(1, subs);
    LoopAlone(ses, t, {}, st);
    EncapTaken(ses, t, st);
  }

  /** Tunnel type and sub-TLVs after the encapsulation attributes of a block, from some to begin with. */
  function EncapOf(ts: seq<Tlv>, tunnel: Encap.Word, subs: seq<Encap.SubTlv>): (Encap.Word, seq<Encap.SubTlv>) {
    if ts == [] then (tunnel, subs)
    else if ts[0].code != ENCAP then EncapOf(ts[1..], tunnel, subs)
    else
      match Encap.ParseValue(ts[0].value)
      case None => EncapOf(ts[1..], tunnel, subs)
      case Some((w, more)) => EncapOf(ts[1..], if more == [] then tunnel else w, subs + more)
  }

  lemma OneEncap(ses: Session, t: Tlv, st: State)
    requires t.Encodable() && One(ses, t, st).Proceed?
    ensures var a, a' := st.attr, One(ses, t, st).st.attr;
            if t.code != ENCAP then a'.tunnel == a.tunnel && a'.subs == a.subs
            else match Encap.ParseValue(t.value)
                 case None => a'.tunnel == a.tunnel && a'.subs == a.subs
                 case Some((w, more)) => a'.tunnel == (if more == [] then a.tunnel else w) && a'.subs == a.subs + more
  {
    hide AsPathWire.Parse;
    hide Encap.ParseValue;
    hide EncodeTlv;
    assert st.attr.subs + [] == st.attr.subs;
  }

  /** The parser keeps exactly that. */
  lemma {:induction false} LoopEncap(ses: Session, b: seq<Octet>, seen: set<Octet>, st: State)
    requires Loop(ses, b, seen, st).Proceed?
    ensures Split(b).Some?
    ensures var a := Loop(ses, b, seen, st).st.attr;
            (a.tunnel, a.subs) == EncapOf(Split(b).value, st.attr.tunnel, st.attr.subs)
    decreases |b|
  {
    hide One;
    hide First;
    hide Encap.ParseValue;
    if b != [] {
      var f := First(b).value;
      var t, rest := f.0, f.1;
      LoopEncap(ses, rest, seen + {t.code}, One(ses, t, st).st);
      OneEncap(ses, t, st);
      var ts := Split(rest).value;
      assert ([t] + ts)[1..] == ts;
    }
  }

  lemma {:induction false} EncapNone(ts: seq<Tlv>, tunnel: Encap.Word, subs: seq<Encap.SubTlv>)
    requires ENCAP !in Codes(ts)
    ensures EncapOf(ts, tunnel, subs) == (tunnel, subs)
  {
    if ts != [] {
      EncapNone(ts[1..], tunnel, subs);
    }
  }

  lemma {:induction false} EncapOne(ts: seq<Tlv>, t: Tlv)
    requires NoDup(Codes(ts)) && t in ts && t.code == ENCAP
    requires Encap.ParseValue(t.value).Some? && Encap.ParseValue(t.value).value.1 != []
    ensures EncapOf(ts, 0, []) == Encap.ParseValue(t.value).value
  {
    hide Encap.ParseValue;
    assert ([ts[0].code] + Codes(ts[1..]))[1..] == Codes(ts[1..]);
    if ts[0] == t {
      var (w, more) := Encap.ParseValue(t.value).value;
      EncapNone(ts[1..], w, more);
      assert [] + more == more;
    } else {
      CodesMember(ts[1..]);
      EncapOne(ts[1..], t);
    }
  }

  // ----- The loop

  /** The first attribute from `pos` on has its value at `start`, `length` octets long. */
  ghost predicate FirstIs(b: seq<Octet>, pos: nat, start: nat, length: nat)
    requires pos + 3 <= start <= |b|
  {
    First(b[pos..]) == if start + length > |b| then None
                       else Some((Tlv(b[pos], b[pos + 1], b[start..start + length]), b[start + length..]))
  }

  lemma FirstAt(b: seq<Octet>, pos: nat)
    requires pos < |b|
    ensures |b| - pos < 3 ==> First(b[pos..]).None?
    ensures |b| - pos >= 3 && b[pos] / 16 % 2 == 1 ==>
              if |b| - pos < 4 then First(b[pos..]).None?
              else FirstIs(b, pos, pos + 4, GetW(b[pos + 2..pos + 4]))
    ensures |b| - pos >= 3 && b[pos] / 16 % 2 != 1 ==> FirstIs(b, pos, pos + 3, b[pos + 2])
  {
    var c := b[pos..];
    if |c| >= 4 {
      SliceOfRest(b, pos, 2, 4);
    }
    if |c| >= 3 && |c| >= HeaderLength(c) {
      var at, n := HeaderLength(c), ValueLength(c);
      if at + n <= |c| {
        SliceOfRest(b, pos, at, at + n);
        RestOfRest(b, pos, at + n);
      }
    }
  }

  /** bgp_attr_parse, reading the block from position to position. */
  method ParseBlock(ses: Session, b: seq<Octet>) returns (r: Result)
    ensures r == Parse(ses, b)
  {
    hide One;
    hide First;
    hide Finish;
    var pos, seen: set<Octet>, st := 0, {}, START;
    assert b[0..] == b;
    while pos < |b|
      invariant 0 <= pos <= |b|
      invariant Loop(ses, b[pos..], seen, st) == Loop(ses, b, {}, START)
    {
      FirstAt(b, pos);
      if |b| - pos < 3 {
        return Error;
      }
      var flags, code := b[pos], b[pos + 1];
      var extended := flags / 16 % 2 == 1;
      if extended && |b| - pos < 4 {
        return Error;
      }
      var start := pos + if extended then 4 else 3;
      var length: nat := if extended then GetW(b[pos + 2..pos + 4]) else b[pos + 2];
      if code in seen {
        return Error;
      }
      if start + length > |b| {
        return Error;
      }
      var t := Tlv(flags, code, b[start..start + length]);
      match One(ses, t, st) {
        case Proceed(st') =>
          pos, seen, st := start + length, seen + {code}, st';
        case other =>
          return other;
      }
    }
    r := Finish(ses, st);
  }
}
