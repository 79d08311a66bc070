/**
 Which blocks of path attributes bgp_attr_parse accepts, what becomes of the others, and what AS4_PATH and
 AS4_AGGREGATOR make of AS_PATH and AGGREGATOR, all said of the attributes that the block consists of.
 */
module AttrAccept {
  import opened Lists
  import opened Octets
  import opened Options
  import opened AsPath
  import opened AsPathReconcile
  import opened AttrParse
  import AsPathWire
  import Encap

  // ----- One attribute

  /** The flags that section 4.3 of RFC 4271 and its successors ask for; an unknown attribute has to be optional. */
  predicate RightFlags(t: Tlv) {
    if t.code in {ORIGIN, AS_PATH, NEXT_HOP, LOCAL_PREF, ATOMIC_AGGREGATE} then
      !t.Optional() && t.Transitive() && !t.Partial()
    else if t.code in {MED, ORIGINATOR_ID, CLUSTER_LIST, MP_REACH, MP_UNREACH} then
      t.Optional() && !t.Transitive() && !t.Partial()
    else if Known(t.code) then t.Optional() && t.Transitive()
    else t.Optional()
  }

  /** The value has a form and a content that its attribute may have. */
  predicate RightValue(ses: Session, t: Tlv) {
    var v, c := t.value, t.code;
    && (c == ORIGIN ==> v == [0] || v == [1] || v == [2])
    && (c == AS_PATH ==> AsPathWire.Parse(v, ses.as4).Some?)
    && (c == AS4_PATH ==> AsPathWire.Parse(v, true).Some?)
    && (c in {NEXT_HOP, MED, LOCAL_PREF, ORIGINATOR_ID} ==> |v| == 4)
    && (c == NEXT_HOP ==> v[0] != 0 && v[0] != 127 && v[0] < 224)
    && (c == ATOMIC_AGGREGATE ==> v == [])
    && (c == AGGREGATOR ==> |v| == if ses.as4 then 8 else 6)
    && (c == AS4_AGGREGATOR ==> |v| == 8)
    && (c in {COMMUNITIES, CLUSTER_LIST} ==> |v| % 4 == 0)
    && (c == EXT_COMMUNITIES ==> |v| % 8 == 0)
    && (c == MP_REACH ==> ReachOf(v).Some?)
    && (c == MP_UNREACH ==> |v| >= 3)
    && (c == ENCAP ==> Encap.ParseValue(v).Some?)
  }

  /** An MP_REACH_NLRI value: family, nexthop and prefixes; a second nexthop only counts if it is link-local. */
  lemma ReachReads(v: seq<Octet>)
    ensures ReachOf(v).Some? <==> |v| >= 4 && v[3] in {4, 12, 16, 24, 32, 48} && |v| >= v[3] + 6
    ensures ReachOf(v).Some? ==>
              var r, n := ReachOf(v).value, v[3];
              && r.afi == v[0] as int * 256 + v[1] && r.safi == v[2] && r.nexthop == v[4..4 + n] && r.nlri == v[5 + n..]
              && r.nexthopLength == if n in {32, 48} && !(v[n - 12] == 0xfe && v[n - 11] / 64 == 2) then 16 else n
  {
    if |v| >= 4 && v[3] in {4, 12, 16, 24, 32, 48} && |v| >= v[3] + 6 {
      var n := v[3];
      var hop := v[4..4 + n];
      if n >= 16 {
        assert hop[n - 16..] == v[n - 12..4 + n];
      }
    }
  }

  /** An MP_UNREACH_NLRI value: family and prefixes. */
  lemma UnreachReads(v: seq<Octet>)
    ensures UnreachOf(v).Some? <==> |v| >= 3
    ensures UnreachOf(v).Some? ==>
              var u := UnreachOf(v).value;
              v == PutW(u.afi) + [u.safi as Octet] + u.nlri
  {
    if |v| >= 3 {
      PutGetW(v[..2]);
      assert v == v[..2] + [v[2]] + v[3..];
    }
  }

  /** Attributes that carry no routing information: on an external session it does not matter if they are broken. */
  predicate Minor(ses: Session, t: Tlv) {
    ses.sort.Ebgp? && t.code in {ATOMIC_AGGREGATE, AGGREGATOR, AS4_AGGREGATOR}
  }

  lemma FlagsRight(t: Tlv)
    ensures t.code != ENCAP && Known(t.code) ==> (RightFlags(t) <==> !FlagsInvalid(t))
    ensures t.code == ENCAP || !Known(t.code) ==> !FlagsInvalid(t)
  {
  }

  lemma MartianTop(v: seq<Octet>)
    requires |v| == 4
    ensures Martian(GetL(v)) <==> v[0] == 0 || v[0] == 127 || v[0] >= 224
  {
  }

  lemma ValueRight(ses: Session, t: Tlv, st: State)
    requires t.Encodable() && RightFlags(t)
    ensures Value(ses, t, st).Took? <==> RightValue(ses, t)
    ensures t.code in {MP_REACH, MP_UNREACH, ENCAP} ==> !Value(ses, t, st).Malformed?
    ensures t.code !in {MP_REACH, MP_UNREACH, ENCAP} ==> !Value(ses, t, st).Refused?
  {
    hide AsPathWire.Parse;
    hide Encap.ParseValue;
    hide ReachOf;
    hide GetL;
    hide EncodeTlv;
    if |t.value| == 4 {
      MartianTop(t.value);
    }
  }

  lemma WrongFlags(ses: Session, t: Tlv, st: State)
    requires t.Encodable() && !RightFlags(t)
    ensures !FlagsInvalid(t) ==> if t.code == ENCAP then Value(ses, t, st).Refused? else Value(ses, t, st).Malformed?
  {
    FlagsRight(t);
  }

  /** The attribute is no reason to stop reading. */
  predicate Accepted(ses: Session, t: Tlv) {
    (RightFlags(t) && RightValue(ses, t)) || Minor(ses, t)
  }

  /** The attribute takes effect: its flag is set and its value stored. */
  predicate Counts(ses: Session, t: Tlv) {
    && Known(t.code) && t.code != ENCAP && RightFlags(t) && RightValue(ses, t)
    && !(t.code == LOCAL_PREF && ses.sort.Ebgp?)
    && !(t.code in {COMMUNITIES, EXT_COMMUNITIES} && t.value == [])
  }

  /**
   Only a malformed AS4_PATH of an external neighbour is treated more gently than by closing the session: routes
   are withdrawn if somebody else may have broken it, and wrong flags are for the caller to notify.
   */
  lemma OneSorts(ses: Session, t: Tlv, st: State)
    requires t.Encodable()
    ensures One(ses, t, st).Proceed? <==> Accepted(ses, t)
    ensures One(ses, t, st).Withdraw? <==>
            ses.sort.Ebgp? && t.code == AS4_PATH && RightFlags(t) && t.Partial() && !RightValue(ses, t)
    ensures One(ses, t, st).NotifyPls? <==> ses.sort.Ebgp? && t.code == AS4_PATH && !RightFlags(t)
  {
    hide RightValue;
    FlagsRight(t);
    if RightFlags(t) {
      ValueRight(ses, t, st);
      hide Value;
    } else {
      WrongFlags(ses, t, st);
      hide Value;
    }
  }

  lemma FlaggedCounts(ses: Session, t: Tlv)
    requires t.Encodable()
    ensures Flagged(ses, t) <==> Counts(ses, t)
    ensures Acceptable(ses, t) <==> Accepted(ses, t)
  {
    OneSorts(ses, t, START);
    hide RightValue;
    hide AsPathWire.Parse;
    hide Encap.ParseValue;
    hide ReachOf;
    hide GetL;
    hide EncodeTlv;
    FlagsRight(t);
    if RightFlags(t) {
      ValueRight(ses, t, START);
    }
  }

  // ----- The whole block

  /** The flags that the attributes of a block set. */
  ghost function Effective(ses: Session, ts: seq<Tlv>): set<Octet> {
    set t | t in ts && Counts(ses, t) :: t.code
  }

  /** All attributes are accepted, and no two have the same code. */
  ghost predicate AllAccepted(ses: Session, ts: seq<Tlv>) {
    NoDup(Codes(ts)) && forall t | t in ts :: Accepted(ses, t)
  }

  lemma {:induction false} EncodableMembers(ts: seq<Tlv>)
    requires AllEncodable(ts)
    ensures forall t | t in ts :: t.Encodable()
  {
    if ts != [] {
      EncodableMembers(ts[1..]);
    }
  }

  lemma {:induction false} CodedMember(ts: seq<Tlv>, c: Octet)
    requires c in Codes(ts)
    ensures exists t :: t in ts && t.code == c
  {
    if ts[0].code == c {
      assert ts[0] in ts;
    } else {
      CodedMember(ts[1..], c);
      var t :| t in ts[1..] && t.code == c;
      assert t in ts;
    }
  }

  /** What the loop leaves of a block that it accepts. */
  lemma LoopEffect(ses: Session, b: seq<Octet>)
    ensures Loop(ses, b, {}, START).Proceed? <==> Split(b).Some? && AllAccepted(ses, Split(b).value)
    ensures Loop(ses, b, {}, START).Proceed? ==>
              var ts, st := Split(b).value, Loop(ses, b, {}, START).st;
              && st.attr.flags == Effective(ses, ts)
              && forall t | t in ts && Counts(ses, t) :: Stored(ses, t, st)
  {
    hide Loop;
    hide Split;
    hide Accepted;
    hide Counts;
    hide Acceptable;
    hide Flagged;
    hide Stored;
    hide NoDup;
    LoopAcceptsIff(ses, b, {}, START);
    if Split(b).Some? {
      var ts := Split(b).value;
      SplitJoins(b);
      EncodableMembers(ts);
      forall t | t in ts
        ensures Flagged(ses, t) <==> Counts(ses, t)
        ensures Acceptable(ses, t) <==> Accepted(ses, t)
      {
        FlaggedCounts(ses, t);
      }
      if Loop(ses, b, {}, START).Proceed? {
        LoopReads(ses, b, {}, START, []);
        assert [] + ts == ts;
        var flags := Loop(ses, b, {}, START).st.attr.flags;
        forall c | c in flags
          ensures c in Effective(ses, ts)
        {
          CodedMember(ts, c);
          var t :| t in ts && t.code == c;
        }
      }
    }
  }

  /** What the first attribute that is not accepted brings about. */
  function Stop(ses: Session, t: Tlv): Result {
    if !ses.sort.Ebgp? || t.code != AS4_PATH then Error
    else if !RightFlags(t) then NotifyPls
    else if t.Partial() then Withdraw
    else Error
  }

  lemma StopIs(ses: Session, t: Tlv, st: State)
    requires t.Encodable() && !Accepted(ses, t)
    ensures One(ses, t, st) == Stop(ses, t)
  {
    hide One;
    hide RightFlags;
    hide RightValue;
    OneSorts(ses, t, st);
  }

  /** Accepted attributes are read, and the loop goes on behind them. */
  lemma {:induction false} LoopThrough(ses: Session, before: seq<Tlv>, tail: seq<Octet>, seen: set<Octet>, st: State)
    returns (seen': set<Octet>, st': State)
    requires AllEncodable(before) && AllAccepted(ses, before)
    requires forall c | c in Codes(before) :: c !in seen
    ensures Loop(ses, Join(before) + tail, seen, st) == Loop(ses, tail, seen', st')
    ensures forall c :: c in seen' <==> c in seen || c in Codes(before)
    decreases before
  {
    hide One;
    hide First;
    hide EncodeTlv;
    hide Accepted;
    if before == [] {
      assert [] + tail == tail;
      seen', st' := seen, st;
    } else {
      var u, more := before[0], Join(before[1..]) + tail;
      Assoc(EncodeTlv(u), Join(before[1..]), tail);
      JoinFirst(u, more);
      EncodedNotEmpty(u);
      OneSorts(ses, u, st);
      assert ([u.code] + Codes(before[1..]))[1..] == Codes(before[1..]);
      seen', st' := LoopThrough(ses, before[1..], tail, seen + {u.code}, One(ses, u, st).st);
    }
  }

  /** Whether the attribute at the front of `tail` ends the reading of a block, after these. */
  predicate Halts(ses: Session, before: seq<Tlv>, tail: seq<Octet>) {
    tail != [] &&
    match First(tail)
    case None => true
    case Some((t, _)) => t.code in Codes(before) || !Accepted(ses, t)
  }

  /** A block is read up to the first attribute that is cut off, repeated or not accepted, and this one decides. */
  lemma ParseStops(ses: Session, before: seq<Tlv>, tail: seq<Octet>)
    requires AllEncodable(before) && AllAccepted(ses, before) && Halts(ses, before, tail)
    ensures Parse(ses, Join(before) + tail) ==
            match First(tail)
            case None => Error
            case Some((t, _)) => if t.code in Codes(before) then Error else Stop(ses, t)
  {
    hide One;
    hide First;
    hide Accepted;
    hide Join;
    var seen, st := LoopThrough(ses, before, tail, {}, START);
    match First(tail)
    case None =>
    case Some((t, _)) =>
      if t.code !in Codes(before) {
        StopIs(ses, t, st);
      }
  }

  /** Every block is made up of attributes that are accepted, or of some that are and a rest that ends the reading. */
  lemma {:induction false} ParseCases(ses: Session, b: seq<Octet>, seen: set<Octet>)
    returns (before: seq<Tlv>, tail: seq<Octet>)
    ensures AllEncodable(before) && AllAccepted(ses, before) && b == Join(before) + tail
    ensures forall c | c in Codes(before) :: c !in seen
    ensures tail == [] || Halts(ses, before, tail)
            || (First(tail).Some? && First(tail).value.0.code in seen)
    decreases |b|
  {
    hide First;
    hide EncodeTlv;
    hide Accepted;
    before, tail := [], b;
    assert [] + b == b;
    if b != [] && First(b).Some? {
      var f := First(b).value;
      if f.0.code !in seen && Accepted(ses, f.0) {
        before, tail := ParseCases(ses, f.1, seen + {f.0.code});
        FirstJoins(b);
        Assoc(EncodeTlv(f.0), Join(before), tail);
        assert ([f.0] + before)[1..] == before;
        NoDupPrepend(Codes(before), f.0.code);
        before := [f.0] + before;
      }
    }
  }

  // ----- AS4_PATH and AS4_AGGREGATOR

  /** `o` is the attribute of this code that takes effect, if there is one. */
  ghost predicate Carries(ses: Session, ts: seq<Tlv>, code: Octet, o: Option<Tlv>) {
    match o
    case Some(t) => t in ts && t.code == code && Counts(ses, t)
    case None => code !in Effective(ses, ts)
  }

  /** An AGGREGATOR other than AS_TRANS beside an AS4_AGGREGATOR: both AS4 attributes are to be ignored. */
  predicate Overridden(ses: Session, agg: Option<Tlv>, agg4: Option<Tlv>) {
    ses.as4 || (agg.Some? && agg4.Some? && !(PutW(AS_TRANS) <= agg.value.value))
  }

  /** The path that the attributes stand for. */
  function Merged(ses: Session, path: Tlv, path4: Option<Tlv>, agg: Option<Tlv>, agg4: Option<Tlv>): Path
    requires AsPathWire.Parse(path.value, ses.as4).Some?
    requires path4.Some? ==> AsPathWire.Parse(path4.value.value, true).Some?
  {
    var own := AsPathWire.Parse(path.value, ses.as4).value;
    if Overridden(ses, agg, agg4) || path4.None? then own
    else Reconcile(own, AsPathWire.Parse(path4.value.value, true).value)
  }

  /** `agg` has this ASN and address, in the width of the session. */
  predicate Reads(ses: Session, agg: Tlv, asn: Asn, addr: Quad) {
    agg.value == (if ses.as4 || agg.code == AS4_AGGREGATOR then PutL(asn) else PutW(asn)) + PutL(addr)
  }

  /** The aggregator that the attributes stand for; one that only the AS4_AGGREGATOR tells comes without address. */
  predicate Aggregated(ses: Session, agg: Option<Tlv>, agg4: Option<Tlv>, a: Attr) {
    && (AGGREGATOR in a.flags <==> agg.Some? || (!ses.as4 && agg4.Some?))
    && if agg.Some? && (agg4.None? || Overridden(ses, agg, agg4)) then
         Reads(ses, agg.value, a.aggregator, a.aggregatorAddr)
       else if agg.Some? then Reads(ses, agg4.value, a.aggregator, a.aggregatorAddr)
       else if agg4.Some? && !ses.as4 then PutL(a.aggregator) <= agg4.value.value && a.aggregatorAddr == 0
       else a.aggregator == 0 && a.aggregatorAddr == 0
  }

  lemma CarriedStored(ses: Session, ts: seq<Tlv>, st: State, code: Octet, o: Option<Tlv>)
    requires st.attr.flags == Effective(ses, ts) && Carries(ses, ts, code, o)
    requires forall t | t in ts && Counts(ses, t) :: Stored(ses, t, st)
    ensures code in st.attr.flags <==> o.Some?
    ensures o.Some? ==> o.value.code == code && Stored(ses, o.value, st)
  {
    hide Counts;
    hide Stored;
  }

  /** What is known of the four attributes once they are read. */
  ghost predicate Gathered(ses: Session, st: State, path: Option<Tlv>, path4: Option<Tlv>,
                           agg: Option<Tlv>, agg4: Option<Tlv>)
  {
    && (AS_PATH in st.attr.flags <==> path.Some?) && (AS4_PATH in st.attr.flags <==> path4.Some?)
    && (AGGREGATOR in st.attr.flags <==> agg.Some?) && (AS4_AGGREGATOR in st.attr.flags <==> agg4.Some?)
    && (path.Some? ==> AsPathWire.Parse(path.value.value, ses.as4) == Some(st.attr.aspath))
    && (path4.Some? ==> AsPathWire.Parse(path4.value.value, true) == Some(st.as4Path))
    && (agg.Some? ==>
          && agg.value.code == AGGREGATOR && (ses.as4 || st.attr.aggregator <= AS_MAX)
          && Reads(ses, agg.value, st.attr.aggregator, st.attr.aggregatorAddr))
    && (agg.None? ==> st.attr.aggregator == 0 && st.attr.aggregatorAddr == 0)
    && (agg4.Some? ==>
          agg4.value.code == AS4_AGGREGATOR && Reads(ses, agg4.value, st.as4Aggregator, st.as4AggregatorAddr))
  }

  lemma LeadingWord(v: seq<Octet>, x: nat, w: seq<Octet>)
    requires x <= AS_MAX && v == PutW(x) + w
    ensures PutW(AS_TRANS) <= v <==> x == AS_TRANS
  {
    assert v[..2] == PutW(x);
    assert PutW(x) + [] == PutW(x) && PutW(AS_TRANS) + [] == PutW(AS_TRANS);
    GetPutW(x, []);
    GetPutW(AS_TRANS, []);
    if PutW(AS_TRANS) <= v {
      assert PutW(AS_TRANS) == v[..2];
    }
  }

  lemma MungeMerges(ses: Session, st: State, path: Option<Tlv>, path4: Option<Tlv>,
                    agg: Option<Tlv>, agg4: Option<Tlv>)
    requires Gathered(ses, st, path, path4, agg, agg4)
    ensures path.Some? ==> Munge(ses, st).aspath == Merged(ses, path.value, path4, agg, agg4)
    ensures Aggregated(ses, agg, agg4, Munge(ses, st))
    ensures Munge(ses, st).flags <= st.attr.flags + {AGGREGATOR}
  {
    hide AsPathWire.Parse;
    hide Reconcile;
    hide PutL;
    hide PutW;
    if !ses.as4 && agg.Some? {
      LeadingWord(agg.value.value, st.attr.aggregator, PutL(st.attr.aggregatorAddr));
    }
    if agg4.Some? {
      assert PutL(st.as4Aggregator) <= agg4.value.value;
    }
  }

  /** The checks on the path: confederation segments only from within, and the neighbour in front if enforced. */
  predicate PathPasses(ses: Session, p: Path) {
    match ses.sort
    case Confed => p != [] && p[0].kind.IsConfed()
    case Ebgp =>
      && NoConfed(p)
      && (ses.enforceFirstAs ==> p != [] && p[0].kind == AsSequence && p[0].asns != [] && p[0].asns[0] == ses.remoteAs)
    case _ => true
  }

  /** The attributes that an UPDATE cannot do without are there. */
  predicate Sufficient(ses: Session, flags: set<Octet>) {
    || flags == {MP_UNREACH}
    || (flags == {} && ses.restart)
    || (&& {ORIGIN, AS_PATH} <= flags && (NEXT_HOP in flags || MP_REACH in flags)
        && (ses.sort.Ibgp? ==> LOCAL_PREF in flags))
  }

  lemma FinishChecks(ses: Session, st: State)
    ensures Finish(ses, st).Proceed? || Finish(ses, st).Error?
    ensures Finish(ses, st).Proceed? <==>
            Sufficient(ses, st.attr.flags) && (AS_PATH in st.attr.flags ==> PathPasses(ses, Munge(ses, st).aspath))
    ensures Finish(ses, st).Proceed? && AS_PATH in st.attr.flags ==>
              var a, p := Finish(ses, st).st.attr, Munge(ses, st).aspath;
              a == Munge(ses, st).(aspath := if ses.localAs.Some? then AddSeq(p, ses.localAs.value) else p)
    ensures AS_PATH !in st.attr.flags && Finish(ses, st).Proceed? ==> Finish(ses, st).st == st
  {
    hide Munge;
    hide AddSeq;
    hide NoConfed;
  }

  lemma OneUnset(ses: Session, t: Tlv, st: State)
    requires t.Encodable() && One(ses, t, st).Proceed?
    ensures var a, a' := st.attr, One(ses, t, st).st.attr;
            AGGREGATOR !in a'.flags ==>
              AGGREGATOR !in a.flags && a'.aggregator == a.aggregator && a'.aggregatorAddr == a.aggregatorAddr
  {
    hide AsPathWire.Parse;
    hide Encap.ParseValue;
    hide EncodeTlv;
    hide GetL;
    hide GetW;
  }

  lemma {:induction false} LoopUnset(ses: Session, b: seq<Octet>, seen: set<Octet>, st: State)
    requires Loop(ses, b, seen, st).Proceed?
    ensures var a, a' := st.attr, Loop(ses, b, seen, st).st.attr;
            AGGREGATOR !in a'.flags ==>
              AGGREGATOR !in a.flags && a'.aggregator == a.aggregator && a'.aggregatorAddr == a.aggregatorAddr
    decreases |b|
  {
    hide One;
    hide First;
    if b != [] {
      var f := First(b).value;
      OneUnset(ses, f.0, st);
      LoopUnset(ses, f.1, seen + {f.0.code}, One(ses, f.0, st).st);
    }
  }

  lemma StoredRead(ses: Session, t: Tlv, st: State)
    requires Stored(ses, t, st)
    ensures t.code == AS_PATH ==> AsPathWire.Parse(t.value, ses.as4) == Some(st.attr.aspath)
    ensures t.code == AS4_PATH ==> AsPathWire.Parse(t.value, true) == Some(st.as4Path)
    ensures t.code == AGGREGATOR ==> (ses.as4 || st.attr.aggregator <= AS_MAX)
                                     && Reads(ses, t, st.attr.aggregator, st.attr.aggregatorAddr)
    ensures t.code == AS4_AGGREGATOR ==> Reads(ses, t, st.as4Aggregator, st.as4AggregatorAddr)
  {
    hide AsPathWire.Parse;
    hide PutL;
    hide PutW;
    hide ReachOf;
  }

  /** The four attributes of a block that is accepted. */
  ghost predicate Brings(ses: Session, b: seq<Octet>, path: Option<Tlv>, path4: Option<Tlv>,
                         agg: Option<Tlv>, agg4: Option<Tlv>)
  {
    && Split(b).Some?
    && var ts := Split(b).value;
       && AllAccepted(ses, ts)
       && Carries(ses, ts, AS_PATH, path) && Carries(ses, ts, AS4_PATH, path4)
       && Carries(ses, ts, AGGREGATOR, agg) && Carries(ses, ts, AS4_AGGREGATOR, agg4)
  }

  lemma BringsGathered(ses: Session, b: seq<Octet>, path: Option<Tlv>, path4: Option<Tlv>,
                       agg: Option<Tlv>, agg4: Option<Tlv>)
    requires Brings(ses, b, path, path4, agg, agg4)
    ensures Loop(ses, b, {}, START).Proceed?
    ensures Loop(ses, b, {}, START).st.attr.flags == Effective(ses, Split(b).value)
    ensures Gathered(ses, Loop(ses, b, {}, START).st, path, path4, agg, agg4)
  {
    hide Loop;
    hide Split;
    hide AllAccepted;
    hide Carries;
    hide Stored;
    hide Counts;
    hide Reads;
    hide AsPathWire.Parse;
    LoopEffect(ses, b);
    var ts, st := Split(b).value, Loop(ses, b, {}, START).st;
    CarriedStored(ses, ts, st, AS_PATH, path);
    CarriedStored(ses, ts, st, AS4_PATH, path4);
    CarriedStored(ses, ts, st, AGGREGATOR, agg);
    CarriedStored(ses, ts, st, AS4_AGGREGATOR, agg4);
    hide Effective;
    if path.Some? {
      StoredRead(ses, path.value, st);
    }
    if path4.Some? {
      StoredRead(ses, path4.value, st);
    }
    if agg.Some? {
      StoredRead(ses, agg.value, st);
    }
    if agg4.Some? {
      StoredRead(ses, agg4.value, st);
    }
    LoopUnset(ses, b, {}, START);
  }

  /**
   A block of accepted attributes proceeds exactly when the mandatory ones are there and the path they stand for
   passes the checks.  Then this path is filed, behind the local AS if one is to be put in front, and the aggregator
   is the one that the attributes stand for.
   */
  lemma ParseMerges(ses: Session, b: seq<Octet>, path: Option<Tlv>, path4: Option<Tlv>,
                    agg: Option<Tlv>, agg4: Option<Tlv>)
    requires Brings(ses, b, path, path4, agg, agg4)
    ensures path.Some? ==> AsPathWire.Parse(path.value.value, ses.as4).Some?
    ensures path4.Some? ==> AsPathWire.Parse(path4.value.value, true).Some?
    ensures Parse(ses, b).Proceed? || Parse(ses, b).Error?
    ensures Parse(ses, b).Proceed? <==>
            && Sufficient(ses, Effective(ses, Split(b).value))
            && (path.Some? ==> PathPasses(ses, Merged(ses, path.value, path4, agg, agg4)))
    ensures Parse(ses, b).Proceed? && path.Some? ==>
              var a, p := Parse(ses, b).st.attr, Merged(ses, path.value, path4, agg, agg4);
              && a.aspath == (if ses.localAs.Some? then AddSeq(p, ses.localAs.value) else p)
              && Aggregated(ses, agg, agg4, a)
    ensures Parse(ses, b).Proceed? && path.None? ==>
              Parse(ses, b).st.attr.flags == Effective(ses, Split(b).value)
  {
    hide Brings;
    hide Loop;
    hide Finish;
    hide Effective;
    hide Reads;
    hide Munge;
    hide Merged;
    hide PathPasses;
    hide AddSeq;
    hide AsPathWire.Parse;
    BringsGathered(ses, b, path, path4, agg, agg4);
    var st := Loop(ses, b, {}, START).st;
    MungeMerges(ses, st, path, path4, agg, agg4);
    FinishChecks(ses, st);
  }

  // ----- The nexthop

  /** NEXT_HOP counts if it is there, else a multiprotocol nexthop of four octets, else none is set. */
  ghost predicate HopRight(a: Attr) {
    if NEXT_HOP in a.flags then !Martian(a.nexthop)
    else if MP_REACH in a.flags && a.reach.Some? && |a.reach.value.nexthop| == 4
    then a.nexthop == GetL(a.reach.value.nexthop)
    else a.nexthop == 0
  }

  lemma OneHop(ses: Session, t: Tlv, st: State)
    requires t.Encodable() && One(ses, t, st).Proceed? && HopRight(st.attr) && t.code !in st.attr.flags
    ensures HopRight(One(ses, t, st).st.attr)
  {
    hide AsPathWire.Parse;
    hide Encap.ParseValue;
    hide ReachOf;
    hide EncodeTlv;
    hide GetL;
    hide GetW;
    OneIsValue(ses, t, st);
    hide One;
  }

  lemma OneFlags(ses: Session, t: Tlv, st: State)
    requires t.Encodable() && One(ses, t, st).Proceed?
    ensures One(ses, t, st).st.attr.flags <= st.attr.flags + {t.code}
  {
    OneIsValue(ses, t, st);
    hide One;
    if Value(ses, t, st).Took? {
      ValueStores(ses, t, st);
    }
    hide Value;
  }

  lemma {:induction false} LoopHop(ses: Session, b: seq<Octet>, seen: set<Octet>, st: State)
    requires Loop(ses, b, seen, st).Proceed? && HopRight(st.attr) && st.attr.flags <= seen
    ensures HopRight(Loop(ses, b, seen, st).st.attr)
    decreases |b|
  {
    hide One;
    hide First;
    hide HopRight;
    if b != [] {
      var f := First(b).value;
      OneHop(ses, f.0, st);
      OneFlags(ses, f.0, st);
      LoopHop(ses, f.1, seen + {f.0.code}, One(ses, f.0, st).st);
    }
  }

  /** The nexthop of a block that proceeds, whichever of the two attributes comes first. */
  lemma NexthopMerges(ses: Session, b: seq<Octet>)
    requires Parse(ses, b).Proceed?
    ensures HopRight(Parse(ses, b).st.attr)
  {
    ParseProceeds(ses, b);
    LoopHop(ses, b, {}, START);
    hide Loop;
    hide Finish;
    hide Split;
    hide Agrees;
    hide Mandatory;
  }

  /** A path that starts with an empty segment loses it when an ASN is put in front. */
  function Rest(p: Path): Path {
    if p != [] && p[0].asns == [] then p[1..] else p
  }

  lemma HeadMeaning(g: Segment, p: Path)
    ensures Meaning([g] + p) == Hops(g) + Meaning(p)
  {
    assert ([g] + p)[1..] == p;
  }

  lemma StepsInFront(a: Asn, s: seq<Asn>)
    ensures Steps([a] + s) == [Step(a)] + Steps(s)
  {
    assert ([a] + s)[1..] == s;
  }

  /** The ASN is put in front as one more hop... */
  lemma AddedInFront(p: Path, a: Asn)
    ensures Meaning(AddSeq(p, a)) == [Step(a)] + Meaning(Rest(p))
  {
    assert Steps([]) == [];
    hide Meaning;
    hide Steps;
    StepsInFront(a, []);
    assert [a] + [] == [a] && [Step(a)] + [] == [Step(a)];
    HeadMeaning(Segment(AsSequence, [a]), Rest(p));
    if p != [] && p[0].kind.AsSequence? {
      var s := p[0].asns;
      StepsInFront(a, s);
      HeadMeaning(Segment(AsSequence, [a] + s), p[1..]);
      HeadMeaning(p[0], p[1..]);
      assert p == [p[0]] + p[1..];
      Assoc([Step(a)], Steps(s), Meaning(p[1..]));
      assert [] + Meaning(p[1..]) == Meaning(p[1..]);
    }
  }

  /** ...or into the confederation segment that leads the path, or as a new one. */
  lemma AddedToConfed(p: Path, a: Asn)
    ensures Meaning(AddAsn(p, a, ConfedSequence)) ==
            if p != [] && p[0].kind.ConfedSequence? then [Hop.Confed([a] + p[0].asns)] + Meaning(p[1..])
            else [Hop.Confed([a])] + Meaning(Rest(p))
  {
    hide Meaning;
    HeadMeaning(Segment(ConfedSequence, [a]), Rest(p));
    if p != [] {
      HeadMeaning(Segment(ConfedSequence, [a] + p[0].asns), p[1..]);
    }
  }
}
