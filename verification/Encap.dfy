/**
 The tunnel encapsulation attribute: bgp_packet_mpattr_tea writes it,
 bgp_attr_encap reads it back (bgpd/bgp_attr.c).
 */
module Encap {
  import opened Lists
  import opened Octets
  import opened Options
  import opened Streams

  type Word = n: nat | n < 65536

  /** struct bgp_attr_encap_subtlv: both the type and the length are 16 bits wide in memory. */
  datatype SubTlv = SubTlv(kind: Word, value: seq<Octet>)

  const OPTIONAL := 128
  const TRANSITIVE := 64
  const EXTENDED := 16
  const ENCAP: Octet := 23

  // ----- Writing

  /** One sub-TLV: type and length go out as single octets, whatever they were. */
  function EncodeSub(t: SubTlv): seq<Octet> {
    [t.kind % 256, |t.value| % 256] + t.value
  }

  function EncodeSubs(ts: seq<SubTlv>): seq<Octet> {
    if ts == [] then [] else EncodeSub(ts[0]) + EncodeSubs(ts[1..])
  }

  function SubsLength(ts: seq<SubTlv>): nat {
    if ts == [] then 0 else 2 + |ts[0].value| + SubsLength(ts[1..])
  }

  function LengthField(ts: seq<SubTlv>): nat {
    4 + SubsLength(ts)
  }

  /** The value of the attribute: tunnel type, length of the sub-TLVs, sub-TLVs. */
  function EncodeValue(tunnel: Word, ts: seq<SubTlv>): seq<Octet> {
    PutW(tunnel) + PutW(LengthField(ts) - 4) + EncodeSubs(ts)
  }

  function Header(length: nat): seq<Octet> {
    if length > 255 then [OPTIONAL + TRANSITIVE + EXTENDED, ENCAP] + PutW(length)
    else [OPTIONAL + TRANSITIVE, ENCAP, length]
  }

  /** What bgp_packet_mpattr_tea adds to the stream: nothing for an empty or overlong chain. */
  function EncodeAttribute(tunnel: Word, ts: seq<SubTlv>): seq<Octet> {
    if ts == [] || LengthField(ts) > 65535 then []
    else Header(LengthField(ts)) + EncodeValue(tunnel, ts)
  }

  // ----- Reading

  /** The loop over the sub-TLVs; octets left over at the end are an error. */
  function ParseSubs(b: seq<Octet>): Option<seq<SubTlv>> {
    if |b| < 4 then if b == [] then Some([]) else None
    else
      var n: nat := b[1];
      if n > |b| - 2 then None
      else
        var rest := ParseSubs(b[2 + n..]);
        if rest.None? then None else Some([SubTlv(b[0], b[2..2 + n])] + rest.value)
  }

  /** The outer length is read, compared and, if it differs, only logged. */
  function ParseValue(b: seq<Octet>): Option<(Word, seq<SubTlv>)> {
    if |b| < 4 then None
    else
      var ts := ParseSubs(b[4..]);
      if ts.None? then None else Some((GetW(b), ts.value))
  }

  // ----- The round trip

  /** Types and lengths that fit the octets they are sent in. */
  predicate FitsOctets(ts: seq<SubTlv>) {
    ts == [] || (ts[0].kind < 256 && |ts[0].value| < 256 && FitsOctets(ts[1..]))
  }

  /** The reading loop gives up with fewer than four octets to go: the last sub-TLV needs two octets of value. */
  predicate LongEnd(ts: seq<SubTlv>) {
    ts == [] || |ts[|ts| - 1].value| >= 2
  }

  lemma {:induction false} EncodedLength(ts: seq<SubTlv>)
    ensures |EncodeSubs(ts)| == SubsLength(ts)
    ensures ts != [] ==> SubsLength(ts) >= 2
    ensures ts != [] && LongEnd(ts) ==> SubsLength(ts) >= 4
  {
    if ts != [] {
      EncodedLength(ts[1..]);
    }
  }

  lemma ParseFirst(t: SubTlv, rest: seq<Octet>)
    requires 2 + |t.value| + |rest| >= 4
    ensures |t.value| < 256 ==>
              ParseSubs(EncodeSub(t) + rest) == match ParseSubs(rest)
                                                case None => None
                                                case Some(ts) => Some([SubTlv(t.kind % 256, t.value)] + ts)
    ensures var p := ParseSubs(EncodeSub(t) + rest);
            p.Some? ==> p.value != [] && p.value[0].kind == t.kind % 256 && |p.value[0].value| == |t.value| % 256
  {
    var b := EncodeSub(t) + rest;
    if |t.value| < 256 {
      assert b[2..2 + |t.value|] == t.value && b[2 + |t.value|..] == rest;
    }
  }

  lemma SameHead(t: SubTlv, ts: seq<SubTlv>, u: SubTlv, us: seq<SubTlv>)
    ensures [t] + ts == [u] + us <==> t == u && ts == us
  {
    assert ([t] + ts)[1..] == ts && ([u] + us)[1..] == us;
  }

  lemma ShortEnd(t: SubTlv)
    requires |t.value| < 2
    ensures ParseSubs(EncodeSubs([t])).None?
  {
    assert EncodeSubs([t]) == EncodeSub(t);
  }

  lemma {:induction false} SubsRoundTrip(ts: seq<SubTlv>)
    ensures ParseSubs(EncodeSubs(ts)) == Some(ts) <==> FitsOctets(ts) && LongEnd(ts)
  {
    if ts != [] {
      hide ParseSubs;
      var t, rest := ts[0], ts[1..];
      assert ts == [t] + rest;
      EncodedLength(rest);
      if rest == [] && |t.value| < 2 {
        ShortEnd(t);
      } else {
        SubsRoundTrip(rest);
        ParseFirst(t, EncodeSubs(rest));
        var r := ParseSubs(EncodeSubs(rest));
        if r.Some? {
          SameHead(SubTlv(t.kind % 256, t.value), r.value, t, rest);
        }
        assert LongEnd(ts) <==> LongEnd(rest);
      }
    }
  }

  /** The attribute value comes back, tunnel type and sub-TLVs in order, exactly for these chains. */
  lemma ValueRoundTripIff(tunnel: Word, ts: seq<SubTlv>)
    ensures ParseValue(EncodeValue(tunnel, ts)) == Some((tunnel, ts)) <==> FitsOctets(ts) && LongEnd(ts)
  {
    hide EncodeSubs;
    hide ParseSubs;
    hide SubsLength;
    hide FitsOctets;
    var b := EncodeValue(tunnel, ts);
    var word := PutW(LengthField(ts) - 4);
    Assoc(PutW(tunnel), word, EncodeSubs(ts));
    assert b[4..] == EncodeSubs(ts);
    GetPutW(tunnel, word + EncodeSubs(ts));
    SubsRoundTrip(ts);
  }

  lemma ShortEndUnread()
    ensures var ts := [SubTlv(1, [])];
            && LengthField(ts) == 6 && ParseValue(EncodeValue(1, ts)).None?
            && EncodeAttribute(1, ts) == [192, 23, 6, 0, 1, 0, 2, 1, 0]
  {
    var ts := [SubTlv(1, [])];
    assert EncodeSubs(ts) == [1, 0];
    assert SubsLength(ts) == 2;
    assert EncodeValue(1, ts) == [0, 1, 0, 2, 1, 0];
    assert EncodeValue(1, ts)[4..] == [1, 0];
  }

  // ----- The loops

  lemma {:induction false} SubsLengthConcat(ts: seq<SubTlv>, us: seq<SubTlv>)
    ensures SubsLength(ts + us) == SubsLength(ts) + SubsLength(us)
    ensures EncodeSubs(ts + us) == EncodeSubs(ts) + EncodeSubs(us)
  {
    if ts == [] {
      assert ts + us == us;
    } else {
      assert (ts + us)[1..] == ts[1..] + us;
      SubsLengthConcat(ts[1..], us);
      Assoc(EncodeSub(ts[0]), EncodeSubs(ts[1..]), EncodeSubs(us));
    }
  }

  lemma NextSub(ts: seq<SubTlv>, i: nat)
    requires i < |ts|
    ensures SubsLength(ts[..i + 1]) == SubsLength(ts[..i]) + 2 + |ts[i].value|
    ensures EncodeSubs(ts[..i + 1]) == EncodeSubs(ts[..i]) + EncodeSub(ts[i])
    ensures |EncodeSubs(ts[..i + 1])| <= |EncodeSubs(ts)|
  {
    var one := [ts[i]];
    assert one[1..] == [] && one[0] == ts[i];
    assert SubsLength(one) == 2 + |ts[i].value|;
    assert EncodeSubs(one) == EncodeSub(ts[i]) + EncodeSubs([]);
    SubsLengthConcat(ts[..i], one);
    assert ts[..i] + one == ts[..i + 1];
    SubsLengthConcat(ts[..i + 1], ts[i + 1..]);
    assert ts[..i + 1] + ts[i + 1..] == ts;
  }

  /** The length computed before anything is written. */
  method AttributeLength(ts: seq<SubTlv>) returns (length: nat)
    ensures length == LengthField(ts)
  {
    length := 4;
    for i := 0 to |ts|
      invariant length == 4 + SubsLength(ts[..i])
    {
      NextSub(ts, i);
      length := length + 2 + |ts[i].value|;
    }
    assert ts[..|ts|] == ts;
  }

  lemma NoSubs()
    ensures EncodeSubs([]) == []
  {
  }

  method PutSubs(out: Stream, ts: seq<SubTlv>)
    requires |out.data| + |EncodeSubs(ts)| <= out.size
    modifies out
    ensures out.data == old(out.data) + EncodeSubs(ts)
  {
    hide EncodeSubs;
    ghost var start := out.data;
    NoSubs();
    assert ts[..0] == [];
    for i := 0 to |ts|
      invariant out.data == start + EncodeSubs(ts[..i])
    {
      NextSub(ts, i);
      Assoc(start, EncodeSubs(ts[..i]), EncodeSub(ts[i]));
      var t := ts[i];
      ghost var before := out.data;
      out.Putc(t.kind % 256);
      out.Putc(|t.value| % 256);
      out.Put(t.value);
      assert out.data == before + EncodeSub(t);
    }
    assert ts[..|ts|] == ts;
  }

  method PutHeader(out: Stream, length: nat)
    requires length <= 65535 && |out.data| + |Header(length)| <= out.size
    modifies out
    ensures out.data == old(out.data) + Header(length)
  {
    if length > 255 {
      out.Putc(OPTIONAL + TRANSITIVE + EXTENDED);
      out.Putc(ENCAP);
      out.Put(PutW(length));
    } else {
      out.Putc(OPTIONAL + TRANSITIVE);
      out.Putc(ENCAP);
      out.Putc(length);
    }
  }

  /** bgp_packet_mpattr_tea */
  method PutAttribute(out: Stream, tunnel: Word, ts: seq<SubTlv>)
    requires |out.data| + |EncodeAttribute(tunnel, ts)| <= out.size
    modifies out
    ensures out.data == old(out.data) + EncodeAttribute(tunnel, ts)
  {
    hide EncodeSubs;
    hide SubsLength;
    hide Header;
    if ts == [] {
      return;
    }
    var length := AttributeLength(ts);
    if length > 65535 {
      return;
    }
    EncodedLength(ts);
    ghost var start, word, subs := out.data, PutW(length - 4), EncodeSubs(ts);
    PutHeader(out, length);
    out.Put(PutW(tunnel));
    out.Put(PutW(length - 4));
    PutSubs(out, ts);
    Assoc(start, Header(length), PutW(tunnel));
    Assoc(start, Header(length) + PutW(tunnel), word);
    Assoc(start, Header(length) + PutW(tunnel) + word, subs);
    Assoc(Header(length), PutW(tunnel), word);
    Assoc(Header(length), PutW(tunnel) + word, subs);
  }

  function Ahead(ts: seq<SubTlv>, o: Option<seq<SubTlv>>): Option<seq<SubTlv>> {
    if o.None? then None else Some(ts + o.value)
  }

  lemma AheadNothing(o: Option<seq<SubTlv>>)
    ensures Ahead([], o) == o
  {
    if o.Some? {
      assert [] + o.value == o.value;
    }
  }

  lemma ReadTurn(b: seq<Octet>, pos: nat)
    requires pos + 4 <= |b| && b[pos + 1] <= |b| - pos - 2
    ensures var n: nat := b[pos + 1];
            ParseSubs(b[pos..]) == Ahead([SubTlv(b[pos], b[pos + 2..pos + 2 + n])], ParseSubs(b[pos + 2 + n..]))
  {
    var n: nat := b[pos + 1];
    assert b[pos..][2 + n..] == b[pos + 2 + n..];
    assert b[pos..][2..2 + n] == b[pos + 2..pos + 2 + n];
  }

  /** The loop of bgp_attr_encap. */
  method ReadSubs(b: seq<Octet>) returns (r: Option<seq<SubTlv>>)
    ensures r == ParseSubs(b)
  {
    var pos, ts: seq<SubTlv> := 0, [];
    assert b[0..] == b;
    AheadNothing(ParseSubs(b));
    while |b| - pos >= 4
      invariant 0 <= pos <= |b|
      invariant ParseSubs(b) == Ahead(ts, ParseSubs(b[pos..]))
    {
      var n: nat := b[pos + 1];
      if n > |b| - pos - 2 {
        return None;
      }
      var t := SubTlv(b[pos], b[pos + 2..pos + 2 + n]);
      ghost var rest := ParseSubs(b[pos + 2 + n..]);
      ReadTurn(b, pos);
      if rest.Some? {
        Assoc(ts, [t], rest.value);
      }
      ts := ts + [t];
      pos := pos + 2 + n;
    }
    if pos < |b| {
      return None;
    }
    assert ts + [] == ts;
    r := Some(ts);
  }
}
