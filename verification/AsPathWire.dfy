/**
 AS paths on the wire (aspath_put and assegments_parse in bgpd/bgp_aspath.c),
 with 4-octet ASNs, or with 2-octet ASNs where a large ASN becomes AS_TRANS.
 */
module AsPathWire {
  import opened Lists
  import opened Options
  import opened Octets
  import opened Streams
  import opened AsPath
  import opened AsPathAggregate

  function Size(n: nat, wide: bool): nat {
    if wide then 4 * n else 2 * n
  }

  /** assegment_data_put writes this ASN. */
  function Narrow(a: Asn, wide: bool): Asn {
    if wide || a <= AS_MAX then a else AS_TRANS
  }

  function NarrowAll(s: seq<Asn>, wide: bool): (r: seq<Asn>)
    ensures |r| == |s|
  {
    if s == [] then [] else [Narrow(s[0], wide)] + NarrowAll(s[1..], wide)
  }

  function NarrowPath(p: Path, wide: bool): (r: Path)
    ensures |r| == |p|
  {
    if p == [] then []
    else [Segment(p[0].kind, NarrowAll(p[0].asns, wide))] + NarrowPath(p[1..], wide)
  }

  function EncodeAsn(a: Asn, wide: bool): (b: seq<Octet>)
    ensures |b| == Size(1, wide)
  {
    if wide then PutL(a) else PutW(Narrow(a, wide))
  }

  function EncodeAsns(s: seq<Asn>, wide: bool): (b: seq<Octet>)
    ensures |b| == Size(|s|, wide)
  {
    if s == [] then [] else EncodeAsn(s[0], wide) + EncodeAsns(s[1..], wide)
  }

  function TypeCode(k: SegType): Octet {
    match k
    case AsSet => 1
    case AsSequence => 2
    case ConfedSequence => 3
    case ConfedSet => 4
  }

  /** assegment_header_put followed by assegment_data_put. */
  function Encode(g: Segment, wide: bool): (b: seq<Octet>) {
    [TypeCode(g.kind), |g.asns| % 256] + EncodeAsns(g.asns, wide)
  }

  function EncodeAll(p: Path, wide: bool): seq<Octet> {
    if p == [] then [] else Encode(p[0], wide) + EncodeAll(p[1..], wide)
  }

  // ----- aspath_put

  /** Full chunks written while more than 255 of the ASNs are left; each holds the first 255 ASNs. */
  function FullChunks(g: Segment, left: nat): (r: Path)
    requires left <= |g.asns|
    decreases left
  {
    if left > SEGMENT_MAX then [Segment(g.kind, g.asns[..SEGMENT_MAX])] + FullChunks(g, left - SEGMENT_MAX) else []
  }

  /** How many ASNs go into the last chunk. */
  function LastLength(n: nat): (r: nat)
    ensures r <= n && r <= SEGMENT_MAX && (n > 0 ==> r > 0)
  {
    if n > SEGMENT_MAX then LastLength(n - SEGMENT_MAX) else n
  }

  function LastChunk(g: Segment): Segment {
    Segment(g.kind, g.asns[|g.asns| - LastLength(|g.asns|)..])
  }

  /** The segments that aspath_put writes for one segment on its own. */
  function ChunksOf(g: Segment): Path {
    FullChunks(g, |g.asns|) + [LastChunk(g)]
  }

  function PathChunks(p: Path): Path {
    if p == [] then [] else ChunksOf(p[0]) + PathChunks(p[1..])
  }

  /** How many of the following segments are packed into the last chunk of `g`. */
  function PackCount(g: Segment, rest: Path): (k: nat)
    ensures k <= |rest|
  {
    if rest != [] && g.kind.AsSequence? && rest[0].kind.AsSequence? && |g.asns| + |rest[0].asns| <= SEGMENT_MAX
    then 1 + PackCount(g, rest[1..]) else 0
  }

  /** The length octet of the last chunk once the packing loop has run. */
  function PackedLength(g: Segment, rest: Path): nat {
    var k := PackCount(g, rest);
    LastLength(|g.asns|) + if k == 0 then 0 else |rest[k - 1].asns|
  }

  function WireLoop(p: Path, wide: bool): seq<Octet> {
    if p == [] then []
    else
      var k := PackCount(p[0], p[1..]);
      EncodeAll(FullChunks(p[0], |p[0].asns|), wide)
      + [TypeCode(p[0].kind), PackedLength(p[0], p[1..]) % 256]
      + EncodeAsns(LastChunk(p[0]).asns + Flat(p[1..][..k]), wide)
      + WireLoop(p[1 + k..], wide)
  }

  /** What aspath_put writes, given room. */
  function Wire(p: Path, wide: bool): seq<Octet> {
    if p == [] || p[0].asns == [] then [] else WireLoop(p, wide)
  }

  /** The octets aspath_put counts for the full chunks: it adds the cumulative size each time. */
  function FullCount(n: nat, written: nat, wide: bool): nat
    requires written <= n
    decreases n - written
  {
    if n - written > SEGMENT_MAX
    then 2 + Size(written + SEGMENT_MAX, wide) + FullCount(n, written + SEGMENT_MAX, wide)
    else 0
  }

  function CountLoop(p: Path, wide: bool): nat {
    if p == [] then 0
    else
      var k := PackCount(p[0], p[1..]);
      FullCount(|p[0].asns|, 0, wide)
      + 2 + Size(LastLength(|p[0].asns|) + |Flat(p[1..][..k])|, wide)
      + CountLoop(p[1 + k..], wide)
  }

  /** What aspath_put returns, given room. */
  function Count(p: Path, wide: bool): nat {
    if p == [] || p[0].asns == [] then 0 else CountLoop(p, wide)
  }

  // ----- assegments_parse

  function TypeOf(c: Octet): Option<SegType> {
    match c
    case 1 => Some(AsSet)
    case 2 => Some(AsSequence)
    case 3 => Some(ConfedSequence)
    case 4 => Some(ConfedSet)
    case _ => None
  }

  function DecodeAsns(b: seq<Octet>, n: nat, wide: bool): (s: seq<Asn>)
    requires |b| >= Size(n, wide)
    ensures |s| == n
    decreases n
  {
    if n == 0 then []
    else if wide then [GetL(b)] + DecodeAsns(b[4..], n - 1, wide)
    else [GetW(b)] + DecodeAsns(b[2..], n - 1, wide)
  }

  function ParseLoop(b: seq<Octet>, wide: bool): Option<Path> {
    if b == [] then Some([])
    else if |b| <= 2 then None
    else if 2 + Size(b[1], wide) > |b| || b[1] == 0 || TypeOf(b[0]).None? then None
    else
      match ParseLoop(b[2 + Size(b[1], wide)..], wide)
      case None => None
      case Some(rest) => Some([Segment(TypeOf(b[0]).value, DecodeAsns(b[2..], b[1], wide))] + rest)
  }

  /** assegments_parse on a block of octets. */
  function Parse(b: seq<Octet>, wide: bool): Option<Path> {
    if b == [] then Some([])
    else if |b| % 2 != 0 then None
    else match ParseLoop(b, wide)
         case None => None
         case Some(p) => Some(Normalise(p))
  }

  // ----- Chunks come back as they were written

  predicate ChunkSized(p: Path) {
    p == [] || (0 < |p[0].asns| <= SEGMENT_MAX && ChunkSized(p[1..]))
  }

  lemma {:induction false} DecodeEncode(s: seq<Asn>, rest: seq<Octet>, wide: bool)
    ensures DecodeAsns(EncodeAsns(s, wide) + rest, |s|, wide) == NarrowAll(s, wide)
  {
    if s != [] {
      DecodeEncode(s[1..], rest, wide);
      var one := EncodeAsn(s[0], wide);
      var tail := EncodeAsns(s[1..], wide) + rest;
      Assoc(one, EncodeAsns(s[1..], wide), rest);
      if wide {
        GetPutL(s[0], tail);
        assert (one + tail)[4..] == tail;
      } else {
        GetPutW(Narrow(s[0], wide), tail);
        assert (one + tail)[2..] == tail;
      }
    }
  }

  lemma ParseStep(k: SegType, n: Octet, data: seq<Octet>, rest: seq<Octet>, wide: bool)
    requires n > 0 && |data| == Size(n, wide)
    ensures ParseLoop([TypeCode(k), n] + (data + rest), wide) ==
            match ParseLoop(rest, wide)
            case None => None
            case Some(p) => Some([Segment(k, DecodeAsns(data + rest, n, wide))] + p)
  {
    hide DecodeAsns;
    var b := [TypeCode(k), n] + (data + rest);
    assert b[2..] == data + rest;
    assert b[2 + |data|..] == rest;
  }

  lemma ParseOne(g: Segment, rest: seq<Octet>, wide: bool)
    requires 0 < |g.asns| <= SEGMENT_MAX
    ensures ParseLoop(Encode(g, wide) + rest, wide) ==
            match ParseLoop(rest, wide)
            case None => None
            case Some(p) => Some([Segment(g.kind, NarrowAll(g.asns, wide))] + p)
  {
    hide ParseLoop;
    hide EncodeAsns;
    hide DecodeAsns;
    hide NarrowAll;
    var data := EncodeAsns(g.asns, wide);
    assert |g.asns| % 256 == |g.asns|;
    Assoc([TypeCode(g.kind), |g.asns|], data, rest);
    ParseStep(g.kind, |g.asns|, data, rest, wide);
    DecodeEncode(g.asns, rest, wide);
  }

  lemma {:induction false} ParseEncodeAll(p: Path, wide: bool)
    requires ChunkSized(p)
    ensures ParseLoop(EncodeAll(p, wide), wide) == Some(NarrowPath(p, wide))
  {
    if p != [] {
      ParseEncodeAll(p[1..], wide);
      ParseOne(p[0], EncodeAll(p[1..], wide), wide);
    }
  }

  // ----- What is written for a normal path

  lemma {:induction false} EncodeAllConcat(p: Path, q: Path, wide: bool)
    ensures EncodeAll(p + q, wide) == EncodeAll(p, wide) + EncodeAll(q, wide)
  {
    if p == [] {
      assert p + q == q;
    } else {
      EncodeAllConcat(p[1..], q, wide);
      assert (p + q)[1..] == p[1..] + q;
      Assoc(Encode(p[0], wide), EncodeAll(p[1..], wide), EncodeAll(q, wide));
    }
  }

  lemma EncodeChunks(g: Segment, wide: bool)
    ensures EncodeAll(ChunksOf(g), wide) ==
            EncodeAll(FullChunks(g, |g.asns|), wide) + [TypeCode(g.kind), LastLength(|g.asns|) % 256]
            + EncodeAsns(LastChunk(g).asns, wide)
  {
    EncodeAllConcat(FullChunks(g, |g.asns|), [LastChunk(g)], wide);
    assert EncodeAll([LastChunk(g)], wide) == Encode(LastChunk(g), wide) + [];
    assert |LastChunk(g).asns| == LastLength(|g.asns|);
  }

  /** Nothing is packed, because no two AS_SEQUENCEs are adjacent. */
  lemma {:induction false} WireIsChunks(p: Path, wide: bool)
    requires IsNormal(p)
    ensures WireLoop(p, wide) == EncodeAll(PathChunks(p), wide)
  {
    if p != [] {
      WireIsChunks(p[1..], wide);
      EncodeChunks(p[0], wide);
      EncodeAllConcat(ChunksOf(p[0]), PathChunks(p[1..]), wide);
      assert PackCount(p[0], p[1..]) == 0;
      assert p[1..][..0] == [] && LastChunk(p[0]).asns + [] == LastChunk(p[0]).asns;
    }
  }

  lemma {:induction false} ChunkSizedConcat(p: Path, q: Path)
    requires ChunkSized(p) && ChunkSized(q)
    ensures ChunkSized(p + q)
  {
    if p == [] {
      assert p + q == q;
    } else {
      ChunkSizedConcat(p[1..], q);
      assert (p + q)[1..] == p[1..] + q;
    }
  }

  lemma {:induction false} FullChunkSized(g: Segment, left: nat)
    requires left <= |g.asns|
    ensures ChunkSized(FullChunks(g, left))
    decreases left
  {
    if left > SEGMENT_MAX {
      FullChunkSized(g, left - SEGMENT_MAX);
      assert FullChunks(g, left)[1..] == FullChunks(g, left - SEGMENT_MAX);
    }
  }

  lemma {:induction false} PathChunkSized(p: Path)
    requires NoEmptySegment(p)
    ensures ChunkSized(PathChunks(p))
  {
    if p != [] {
      PathChunkSized(p[1..]);
      FullChunkSized(p[0], |p[0].asns|);
      ChunkSizedConcat(FullChunks(p[0], |p[0].asns|), [LastChunk(p[0])]);
      ChunkSizedConcat(ChunksOf(p[0]), PathChunks(p[1..]));
    }
  }

  lemma EvenSum(a: nat, b: nat)
    requires a % 2 == 0 && b % 2 == 0
    ensures (a + b) % 2 == 0
  {
  }

  lemma {:induction false} DoubleEven(n: nat)
    ensures (2 * n) % 2 == 0
  {
    if n > 0 {
      DoubleEven(n - 1);
      EvenSum(2 * (n - 1), 2);
    }
  }

  lemma SizeEven(n: nat, wide: bool)
    ensures (2 + Size(n, wide)) % 2 == 0
  {
    var half := if wide then 2 * n else n;
    assert Size(n, wide) == 2 * half;
    DoubleEven(half);
    EvenSum(2, Size(n, wide));
  }

  lemma EncodeLength(g: Segment, wide: bool)
    ensures |Encode(g, wide)| == 2 + Size(|g.asns|, wide)
    ensures |Encode(g, wide)| % 2 == 0
  {
    hide EncodeAsns;
    SizeEven(|g.asns|, wide);
    hide Size;
  }

  lemma {:induction false} EncodeAllEven(p: Path, wide: bool)
    ensures |EncodeAll(p, wide)| % 2 == 0
    ensures p != [] ==> EncodeAll(p, wide) != []
  {
    hide EncodeAsns;
    hide Encode;
    if p != [] {
      EncodeAllEven(p[1..], wide);
      EncodeLength(p[0], wide);
      EvenSum(|Encode(p[0], wide)|, |EncodeAll(p[1..], wide)|);
    }
  }

  lemma NormaliseNothing()
    ensures Normalise([]) == []
  {
  }

  /** Reading back what was written gives the normal form of the written chunks. */
  lemma ParseWire(p: Path, wide: bool)
    requires IsNormal(p) && NoEmptySegment(p)
    ensures Parse(Wire(p, wide), wide) == Some(Normalise(NarrowPath(PathChunks(p), wide)))
  {
    hide ParseLoop;
    hide Normalise;
    if p == [] {
      NormaliseNothing();
    } else {
      WireIsChunks(p, wide);
      PathChunkSized(p);
      ParseEncodeAll(PathChunks(p), wide);
      EncodeAllEven(PathChunks(p), wide);
      assert PathChunks(p) != [];
    }
  }

  // ----- Within range, nothing is lost

  /** AS_SEQUENCEs of at most 510 ASNs, other segments of at most 255. */
  predicate InRange(p: Path) {
    p == [] ||
    (|p[0].asns| <= (if p[0].kind.AsSequence? then 2 * SEGMENT_MAX else SEGMENT_MAX) && InRange(p[1..]))
  }

  lemma {:induction false} NarrowAllConcat(s: seq<Asn>, t: seq<Asn>, wide: bool)
    ensures NarrowAll(s + t, wide) == NarrowAll(s, wide) + NarrowAll(t, wide)
  {
    if s == [] {
      assert s + t == t;
    } else {
      NarrowAllConcat(s[1..], t, wide);
      assert (s + t)[1..] == s[1..] + t;
      Assoc([Narrow(s[0], wide)], NarrowAll(s[1..], wide), NarrowAll(t, wide));
    }
  }

  lemma {:induction false} NarrowPathConcat(p: Path, q: Path, wide: bool)
    ensures NarrowPath(p + q, wide) == NarrowPath(p, wide) + NarrowPath(q, wide)
  {
    if p == [] {
      assert p + q == q;
    } else {
      NarrowPathConcat(p[1..], q, wide);
      assert (p + q)[1..] == p[1..] + q;
      Assoc([Segment(p[0].kind, NarrowAll(p[0].asns, wide))], NarrowPath(p[1..], wide), NarrowPath(q, wide));
    }
  }

  lemma LinkTwice(s: seq<Asn>, t: seq<Asn>, p: Path)
    ensures Link(Segment(AsSequence, s), Link(Segment(AsSequence, t), p)) == Link(Segment(AsSequence, s + t), p)
  {
    if p != [] && p[0].kind.AsSequence? {
      Assoc(s, t, p[0].asns);
    }
  }

  lemma NormaliseFirst(g: Segment, p: Path)
    ensures Normalise([g] + p) == Link(NormalSegment(g), Normalise(p))
  {
    assert ([g] + p)[1..] == p;
  }

  lemma ChunksInRange(g: Segment)
    requires InRange([g])
    ensures |g.asns| <= SEGMENT_MAX ==> ChunksOf(g) == [g]
    ensures |g.asns| > SEGMENT_MAX ==>
              ChunksOf(g) == [Segment(g.kind, g.asns[..SEGMENT_MAX]), Segment(g.kind, g.asns[SEGMENT_MAX..])]
  {
    if |g.asns| <= SEGMENT_MAX {
      assert g.asns[0..] == g.asns;
    } else {
      assert FullChunks(g, |g.asns| - SEGMENT_MAX) == [];
      assert LastLength(|g.asns| - SEGMENT_MAX) == |g.asns| - SEGMENT_MAX;
    }
  }

  lemma NarrowTwo(a: Segment, b: Segment, wide: bool)
    ensures NarrowPath([a, b], wide) ==
            [Segment(a.kind, NarrowAll(a.asns, wide)), Segment(b.kind, NarrowAll(b.asns, wide))]
  {
    assert [a, b][1..] == [b];
  }

  lemma {:induction false} NormaliseChunks(p: Path, wide: bool)
    requires InRange(p)
    ensures Normalise(NarrowPath(PathChunks(p), wide)) == Normalise(NarrowPath(p, wide))
  {
    if p != [] {
      NormaliseChunks(p[1..], wide);
      var g, rest := p[0], NarrowPath(PathChunks(p[1..]), wide);
      ChunksInRange(g);
      NarrowPathConcat(ChunksOf(g), PathChunks(p[1..]), wide);
      hide Normalise;
      hide Link;
      var n := Segment(g.kind, NarrowAll(g.asns, wide));
      NormaliseFirst(n, NarrowPath(p[1..], wide));
      NormaliseFirst(n, rest);
      if |g.asns| <= SEGMENT_MAX {
        assert NarrowPath([g], wide) == [n];
      } else {
        var a, b := g.asns[..SEGMENT_MAX], g.asns[SEGMENT_MAX..];
        assert g.asns == a + b;
        NarrowAllConcat(a, b, wide);
        var na, nb := Segment(AsSequence, NarrowAll(a, wide)), Segment(AsSequence, NarrowAll(b, wide));
        NarrowTwo(Segment(g.kind, a), Segment(g.kind, b), wide);
        assert [na, nb] + rest == [na] + ([nb] + rest);
        NormaliseFirst(na, [nb] + rest);
        NormaliseFirst(nb, rest);
        LinkTwice(NarrowAll(a, wide), NarrowAll(b, wide), Normalise(rest));
      }
    }
  }

  lemma {:induction false} NarrowAllWide(s: seq<Asn>)
    ensures NarrowAll(s, true) == s
  {
    if s != [] {
      NarrowAllWide(s[1..]);
    }
  }

  lemma {:induction false} NarrowWide(p: Path)
    ensures NarrowPath(p, true) == p
  {
    if p != [] {
      NarrowWide(p[1..]);
      NarrowAllWide(p[0].asns);
    }
  }

  /** With 4-octet ASNs the path comes back; with 2-octet ASNs, the normal form of its AS_TRANS image. */
  lemma WireRoundTrip(p: Path, wide: bool)
    requires IsNormal(p) && NoEmptySegment(p) && InRange(p)
    ensures Parse(Wire(p, wide), wide) == Some(Normalise(NarrowPath(p, wide)))
    ensures wide ==> Parse(Wire(p, wide), wide) == Some(p)
  {
    ParseWire(p, wide);
    NormaliseChunks(p, wide);
    if wide {
      NarrowWide(p);
      NormalFixed(p);
    }
  }

  // ----- Out of range: exactly which paths survive

  /** Every full chunk repeats the first 255 ASNs, as aspath_put writes it. */
  predicate ChunksRepeat(s: seq<Asn>) {
    forall i | 0 <= i < |s| - LastLength(|s|) :: s[i] == s[i % SEGMENT_MAX]
  }

  predicate SegmentSurvives(g: Segment) {
    if g.kind.AsSequence? then ChunksRepeat(g.asns) else |g.asns| <= SEGMENT_MAX
  }

  predicate Survives(p: Path) {
    p == [] || (SegmentSurvives(p[0]) && Survives(p[1..]))
  }

  lemma {:induction false} FlatFull(g: Segment, left: nat, i: nat)
    requires left <= |g.asns|
    ensures var f := Flat(FullChunks(g, left));
            |f| == left - LastLength(left) && (i < |f| ==> f[i] == g.asns[i % SEGMENT_MAX])
    decreases left
  {
    if left > SEGMENT_MAX {
      var head, f := g.asns[..SEGMENT_MAX], Flat(FullChunks(g, left - SEGMENT_MAX));
      assert FullChunks(g, left)[1..] == FullChunks(g, left - SEGMENT_MAX);
      FlatFull(g, left - SEGMENT_MAX, if i >= SEGMENT_MAX then i - SEGMENT_MAX else 0);
      assert Flat(FullChunks(g, left)) == head + f;
      if i < SEGMENT_MAX {
        assert i % SEGMENT_MAX == i;
      } else {
        assert (i - SEGMENT_MAX) % SEGMENT_MAX == i % SEGMENT_MAX;
      }
    }
  }

  /** The ASNs sent for a segment are the segment's own exactly when its full chunks repeat. */
  lemma FlatChunks(g: Segment)
    ensures |Flat(ChunksOf(g))| == |g.asns|
    ensures Flat(ChunksOf(g)) == g.asns <==> ChunksRepeat(g.asns)
  {
    var n := |g.asns| - LastLength(|g.asns|);
    var f, last := Flat(FullChunks(g, |g.asns|)), g.asns[n..];
    FlatConcat(FullChunks(g, |g.asns|), [LastChunk(g)]);
    assert Flat([LastChunk(g)]) == last;
    FlatFull(g, |g.asns|, 0);
    forall i | 0 <= i < n ensures f[i] == g.asns[i % SEGMENT_MAX] {
      FlatFull(g, |g.asns|, i);
    }
    assert g.asns == g.asns[..n] + last;
    if f + last == g.asns {
      assert forall i | 0 <= i < n :: (f + last)[i] == f[i] == g.asns[i];
    }
    if ChunksRepeat(g.asns) {
      assert f == g.asns[..n];
    }
  }

  lemma {:induction false} StepsInjective(s: seq<Asn>, t: seq<Asn>)
    ensures |Steps(s)| == |s|
    ensures Steps(s) == Steps(t) <==> s == t
  {
    if s != [] && t != [] {
      StepsInjective(s[1..], t[1..]);
      assert s == [s[0]] + s[1..] && t == [t[0]] + t[1..];
      assert Steps(s)[1..] == Steps(s[1..]) && Steps(t)[1..] == Steps(t[1..]);
      assert Steps(s)[0] == Step(s[0]) && Steps(t)[0] == Step(t[0]);
    } else if s != [] {
      StepsInjective(s[1..], []);
    }
  }

  predicate AllSequences(p: Path) {
    p == [] || (p[0].kind.AsSequence? && AllSequences(p[1..]))
  }

  lemma {:induction false} MeaningSequences(p: Path)
    requires AllSequences(p)
    ensures Meaning(p) == Steps(Flat(p))
  {
    if p != [] {
      MeaningSequences(p[1..]);
      StepsConcat(p[0].asns, Flat(p[1..]));
    }
  }

  lemma {:induction false} FullKind(g: Segment, left: nat)
    requires left <= |g.asns|
    ensures g.kind.AsSequence? ==> AllSequences(FullChunks(g, left) + [LastChunk(g)])
    ensures !g.kind.AsSequence? ==> |Meaning(FullChunks(g, left))| == |FullChunks(g, left)|
    decreases left
  {
    if left > SEGMENT_MAX {
      FullKind(g, left - SEGMENT_MAX);
      assert FullChunks(g, left)[1..] == FullChunks(g, left - SEGMENT_MAX);
      assert (FullChunks(g, left) + [LastChunk(g)])[1..] == FullChunks(g, left - SEGMENT_MAX) + [LastChunk(g)];
    } else {
      assert FullChunks(g, left) + [LastChunk(g)] == [LastChunk(g)];
    }
  }

  /** The chunks of a segment mean at least as many hops, and the same exactly when it survives. */
  lemma SegmentMeaning(g: Segment)
    ensures |Meaning(ChunksOf(g))| >= |Hops(g)|
    ensures Meaning(ChunksOf(g)) == Hops(g) <==> SegmentSurvives(g)
  {
    FullKind(g, |g.asns|);
    if g.kind.AsSequence? {
      MeaningSequences(ChunksOf(g));
      FlatChunks(g);
      StepsInjective(Flat(ChunksOf(g)), g.asns);
      StepsInjective(g.asns, g.asns);
    } else {
      MeaningConcat(FullChunks(g, |g.asns|), [LastChunk(g)]);
      assert Meaning([LastChunk(g)]) == Hops(LastChunk(g)) + [];
      if |g.asns| <= SEGMENT_MAX {
        assert g.asns[0..] == g.asns;
        assert ChunksOf(g) == [g];
      }
    }
  }

  lemma {:induction false} PathMeaning(p: Path)
    ensures |Meaning(PathChunks(p))| >= |Meaning(p)|
    ensures Meaning(PathChunks(p)) == Meaning(p) <==> Survives(p)
  {
    if p != [] {
      PathMeaning(p[1..]);
      SegmentMeaning(p[0]);
      MeaningConcat(ChunksOf(p[0]), PathChunks(p[1..]));
      var h, h', r, r' := Hops(p[0]), Meaning(ChunksOf(p[0])), Meaning(p[1..]), Meaning(PathChunks(p[1..]));
      hide ChunksOf;
      hide Hops;
      hide SegmentSurvives;
      if h' + r' == h + r {
        assert |h'| == |h|;
        assert h' == (h' + r')[..|h|] && h == (h + r)[..|h|];
        assert r' == (h' + r')[|h|..] && r == (h + r)[|h|..];
      }
    }
  }

  lemma {:induction false} SizedNoEmptySequence(p: Path)
    requires ChunkSized(p) || NoEmptySegment(p)
    ensures NoEmptySequence(p)
  {
    if p != [] {
      SizedNoEmptySequence(p[1..]);
    }
  }

  // Narrowing the ASNs commutes with cutting into chunks.

  function NarrowSegment(g: Segment, wide: bool): Segment {
    Segment(g.kind, NarrowAll(g.asns, wide))
  }

  lemma {:induction false} NarrowAllAt(s: seq<Asn>, wide: bool, k: nat)
    requires k < |s|
    ensures NarrowAll(s, wide)[k] == Narrow(s[k], wide)
  {
    if k > 0 {
      NarrowAllAt(s[1..], wide, k - 1);
    }
  }

  lemma NarrowSlice(s: seq<Asn>, wide: bool, from: nat, to: nat)
    requires from <= to <= |s|
    ensures NarrowAll(s[from..to], wide) == NarrowAll(s, wide)[from..to]
  {
    var a, b := NarrowAll(s[from..to], wide), NarrowAll(s, wide)[from..to];
    forall k | 0 <= k < to - from ensures a[k] == b[k] {
      NarrowAllAt(s[from..to], wide, k);
      NarrowAllAt(s, wide, from + k);
    }
  }

  lemma {:induction false} NarrowFull(g: Segment, left: nat, wide: bool)
    requires left <= |g.asns|
    ensures NarrowPath(FullChunks(g, left), wide) == FullChunks(NarrowSegment(g, wide), left)
    decreases left
  {
    if left > SEGMENT_MAX {
      NarrowFull(g, left - SEGMENT_MAX, wide);
      NarrowSlice(g.asns, wide, 0, SEGMENT_MAX);
      assert FullChunks(g, left)[1..] == FullChunks(g, left - SEGMENT_MAX);
    }
  }

  lemma NarrowChunks(g: Segment, wide: bool)
    ensures NarrowPath(ChunksOf(g), wide) == ChunksOf(NarrowSegment(g, wide))
  {
    hide FullChunks;
    hide LastLength;
    NarrowFull(g, |g.asns|, wide);
    NarrowPathConcat(FullChunks(g, |g.asns|), [LastChunk(g)], wide);
    var s, from := g.asns, |g.asns| - LastLength(|g.asns|);
    NarrowSlice(s, wide, from, |s|);
    assert s[from..] == s[from..|s|] && NarrowAll(s, wide)[from..] == NarrowAll(s, wide)[from..|s|];
    assert NarrowPath([LastChunk(g)], wide) == [LastChunk(NarrowSegment(g, wide))];
  }

  lemma {:induction false} NarrowPathChunks(p: Path, wide: bool)
    ensures NarrowPath(PathChunks(p), wide) == PathChunks(NarrowPath(p, wide))
    ensures NoEmptySegment(p) ==> NoEmptySegment(NarrowPath(p, wide))
  {
    if p != [] {
      NarrowPathChunks(p[1..], wide);
      NarrowChunks(p[0], wide);
      NarrowPathConcat(ChunksOf(p[0]), PathChunks(p[1..]), wide);
      hide ChunksOf;
      assert NarrowPath(p, wide)[1..] == NarrowPath(p[1..], wide);
    }
  }

  /** A normal path, or its AS_TRANS image, comes back from the wire exactly when its segments survive the chunking. */
  lemma WireRoundTripIff(p: Path, wide: bool)
    requires IsNormal(p) && NoEmptySegment(p)
    ensures Parse(Wire(p, wide), wide) == Some(Normalise(NarrowPath(p, wide))) <==> Survives(NarrowPath(p, wide))
    ensures wide ==> NarrowPath(p, wide) == p && Normalise(NarrowPath(p, wide)) == p
  {
    hide Parse;
    hide Wire;
    hide Normalise;
    hide PathChunks;
    var n := NarrowPath(p, wide);
    ParseWire(p, wide);
    NarrowPathChunks(p, wide);
    PathMeaning(n);
    PathChunkSized(n);
    SizedNoEmptySequence(PathChunks(n));
    SizedNoEmptySequence(n);
    NormaliseCanonical(PathChunks(n), n);
    NarrowWide(p);
    NormalFixed(p);
  }

  // ----- The octet count

  predicate AtMost510(p: Path) {
    p == [] || (|p[0].asns| <= 2 * SEGMENT_MAX && AtMost510(p[1..]))
  }

  lemma {:induction false} FullCountBound(g: Segment, written: nat, wide: bool)
    requires written <= |g.asns|
    ensures var c, e := FullCount(|g.asns|, written, wide), |EncodeAll(FullChunks(g, |g.asns| - written), wide)|;
            && c >= e
            && (|g.asns| - written > SEGMENT_MAX && written > 0 ==> c > e)
            && (|g.asns| - written <= SEGMENT_MAX ==> c == e)
    decreases |g.asns| - written
  {
    var left := |g.asns| - written;
    if left > SEGMENT_MAX {
      FullCountBound(g, written + SEGMENT_MAX, wide);
      assert FullChunks(g, left)[1..] == FullChunks(g, left - SEGMENT_MAX);
      assert |Encode(FullChunks(g, left)[0], wide)| == 2 + Size(SEGMENT_MAX, wide);
    }
  }

  lemma LoopTurn(p: Path, wide: bool)
    requires IsNormal(p) && p != []
    ensures CountLoop(p, wide) ==
            FullCount(|p[0].asns|, 0, wide) + 2 + Size(LastLength(|p[0].asns|), wide) + CountLoop(p[1..], wide)
    ensures |WireLoop(p, wide)| ==
            |EncodeAll(FullChunks(p[0], |p[0].asns|), wide)| + 2 + Size(LastLength(|p[0].asns|), wide)
            + |WireLoop(p[1..], wide)|
  {
    hide FullCount;
    hide EncodeAll;
    hide EncodeAsns;
    hide LastLength;
    assert PackCount(p[0], p[1..]) == 0 && p[1..][..0] == [] && LastChunk(p[0]).asns + [] == LastChunk(p[0]).asns;
  }

  lemma SegmentCountIff(g: Segment, wide: bool)
    ensures var c, e := FullCount(|g.asns|, 0, wide), |EncodeAll(FullChunks(g, |g.asns|), wide)|;
            c >= e && (c == e <==> |g.asns| <= 2 * SEGMENT_MAX)
  {
    FullCountBound(g, 0, wide);
    if |g.asns| > SEGMENT_MAX {
      FullCountBound(g, SEGMENT_MAX, wide);
      assert FullChunks(g, |g.asns|)[1..] == FullChunks(g, |g.asns| - SEGMENT_MAX);
      assert |Encode(FullChunks(g, |g.asns|)[0], wide)| == 2 + Size(SEGMENT_MAX, wide);
    }
  }

  /** The count returned is the number of octets written exactly when no segment exceeds 510 ASNs. */
  lemma {:induction false} CountLoopIff(p: Path, wide: bool)
    requires IsNormal(p)
    ensures CountLoop(p, wide) >= |WireLoop(p, wide)|
    ensures CountLoop(p, wide) == |WireLoop(p, wide)| <==> AtMost510(p)
  {
    if p != [] {
      CountLoopIff(p[1..], wide);
      LoopTurn(p, wide);
      SegmentCountIff(p[0], wide);
      hide CountLoop;
      hide WireLoop;
      hide FullCount;
      hide EncodeAll;
    }
  }

  lemma CountIff(p: Path, wide: bool)
    requires IsNormal(p) && NoEmptySegment(p)
    ensures Count(p, wide) == |Wire(p, wide)| <==> AtMost510(p)
  {
    CountLoopIff(p, wide);
  }

  /** A sequence of 511 different ASNs: the second chunk repeats the first, and the count is wrong too. */
  lemma LongSequenceIsLost()
    ensures var p := [Segment(AsSequence, seq(511, i => i))];
            Parse(Wire(p, true), true) != Some(p) && Count(p, true) != |Wire(p, true)|
  {
    var s: seq<Asn> := seq(511, i => i);
    var p := [Segment(AsSequence, s)];
    assert LastLength(256) == 1;
    assert s[255] != s[255 % SEGMENT_MAX];
    assert !ChunksRepeat(s);
    WireRoundTripIff(p, true);
    CountIff(p, true);
  }

  // ----- The loops of aspath_put

  lemma {:induction false} EncodeAsnsConcat(s: seq<Asn>, t: seq<Asn>, wide: bool)
    ensures EncodeAsns(s + t, wide) == EncodeAsns(s, wide) + EncodeAsns(t, wide)
  {
    hide EncodeAsn;
    if s == [] {
      assert s + t == t;
    } else {
      EncodeAsnsConcat(s[1..], t, wide);
      assert (s + t)[1..] == s[1..] + t;
      Assoc(EncodeAsn(s[0], wide), EncodeAsns(s[1..], wide), EncodeAsns(t, wide));
    }
  }

  /** assegment_data_put */
  method PutData(out: Stream, s: seq<Asn>, wide: bool)
    modifies out
    ensures |old(out.data)| + Size(|s|, wide) <= out.size ==> out.data == old(out.data) + EncodeAsns(s, wide)
    ensures old(out.data) <= out.data && (|old(out.data)| <= out.size ==> |out.data| <= out.size)
  {
    var i := 0;
    ghost var fits := |out.data| + Size(|s|, wide) <= out.size;
    while i < |s|
      invariant 0 <= i <= |s|
      invariant fits ==> out.data == old(out.data) + EncodeAsns(s[..i], wide)
      invariant old(out.data) <= out.data && (|old(out.data)| <= out.size ==> |out.data| <= out.size)
    {
      assert s[..i + 1] == s[..i] + [s[i]];
      EncodeAsnsConcat(s[..i], [s[i]], wide);
      if wide {
        assert EncodeAsns([s[i]], wide) == PutL(s[i]) + [];
        out.Put(PutL(s[i]));
      } else {
        assert EncodeAsns([s[i]], wide) == PutW(Narrow(s[i], wide)) + [];
        out.Put(PutW(if s[i] <= AS_MAX then s[i] else AS_TRANS));
      }
      i := i + 1;
    }
    assert s[..i] == s;
  }

  /** assegment_header_put followed by assegment_data_put. */
  method PutChunk(out: Stream, kind: SegType, s: seq<Asn>, wide: bool)
    requires |s| <= SEGMENT_MAX
    modifies out
    ensures |old(out.data)| + 2 + Size(|s|, wide) <= out.size ==>
              out.data == old(out.data) + Encode(Segment(kind, s), wide)
    ensures old(out.data) <= out.data && (|old(out.data)| <= out.size ==> |out.data| <= out.size)
  {
    hide EncodeAsns;
    ghost var start := out.data;
    out.Putc(TypeCode(kind));
    out.Putc(|s|);
    ghost var mid := out.data;
    PutData(out, s, wide);
    if |start| + 2 + Size(|s|, wide) <= out.size {
      assert mid == start + [TypeCode(kind), |s|];
      Assoc(start, [TypeCode(kind), |s|], EncodeAsns(s, wide));
    }
  }

  lemma FullTurn(g: Segment, written: nat, wide: bool)
    requires written <= |g.asns| && |g.asns| - written > SEGMENT_MAX
    ensures var left := |g.asns| - written;
            && LastLength(left) == LastLength(left - SEGMENT_MAX)
            && EncodeAll(FullChunks(g, left), wide) ==
               Encode(Segment(g.kind, g.asns[..SEGMENT_MAX]), wide) + EncodeAll(FullChunks(g, left - SEGMENT_MAX), wide)
            && FullCount(|g.asns|, written, wide) ==
               2 + Size(written + SEGMENT_MAX, wide) + FullCount(|g.asns|, written + SEGMENT_MAX, wide)
  {
    hide Encode;
    var left := |g.asns| - written;
    assert FullChunks(g, left)[1..] == FullChunks(g, left - SEGMENT_MAX);
  }

  lemma FullEnd(g: Segment, written: nat, wide: bool)
    requires written <= |g.asns| && |g.asns| - written <= SEGMENT_MAX
    ensures LastLength(|g.asns| - written) == |g.asns| - written
    ensures EncodeAll(FullChunks(g, |g.asns| - written), wide) == [] && FullCount(|g.asns|, written, wide) == 0
  {
  }

  /** The loop that splits up an overlength segment. */
  method PutFull(out: Stream, g: Segment, wide: bool) returns (written: nat, bytes: nat)
    modifies out
    ensures written == |g.asns| - LastLength(|g.asns|) && bytes == FullCount(|g.asns|, 0, wide)
    ensures |old(out.data)| + |EncodeAll(FullChunks(g, |g.asns|), wide)| <= out.size ==>
              out.data == old(out.data) + EncodeAll(FullChunks(g, |g.asns|), wide)
    ensures old(out.data) <= out.data && (|old(out.data)| <= out.size ==> |out.data| <= out.size)
  {
    hide EncodeAll;
    hide FullChunks;
    hide FullCount;
    hide LastLength;
    hide Encode;
    written, bytes := 0, 0;
    ghost var all := EncodeAll(FullChunks(g, |g.asns|), wide);
    ghost var fits := |out.data| + |all| <= out.size;
    while |g.asns| - written > SEGMENT_MAX
      invariant written <= |g.asns|
      invariant LastLength(|g.asns|) == LastLength(|g.asns| - written)
      invariant bytes + FullCount(|g.asns|, written, wide) == FullCount(|g.asns|, 0, wide)
      invariant fits ==> out.data + EncodeAll(FullChunks(g, |g.asns| - written), wide) == old(out.data) + all
      invariant old(out.data) <= out.data && (|old(out.data)| <= out.size ==> |out.data| <= out.size)
    {
      ghost var left := |g.asns| - written;
      ghost var rest := EncodeAll(FullChunks(g, left - SEGMENT_MAX), wide);
      ghost var one := Encode(Segment(g.kind, g.asns[..SEGMENT_MAX]), wide);
      FullTurn(g, written, wide);
      EncodeLength(Segment(g.kind, g.asns[..SEGMENT_MAX]), wide);
      Assoc(out.data, one, rest);
      PutChunk(out, g.kind, g.asns[..SEGMENT_MAX], wide);
      written := written + SEGMENT_MAX;
      bytes := bytes + 2 + Size(written, wide);
    }
    FullEnd(g, written, wide);
    assert out.data + [] == out.data;
  }

  /** The last chunk of a segment with `more` packed into it, and `len` in its length octet. */
  function Packed(g: Segment, len: nat, more: Path, wide: bool): (b: seq<Octet>) {
    [TypeCode(g.kind), len % 256] + EncodeAsns(LastChunk(g).asns + Flat(more), wide)
  }

  lemma Relabel(start: seq<Octet>, c: Octet, l: Octet, e: seq<Octet>, n: seq<Octet>, l': Octet)
    ensures var d := start + ([c, l] + e) + n;
            |start| + 1 < |d| && d[|start| + 1 := l'] == start + ([c, l'] + (e + n))
  {
  }

  lemma PackOne(start: seq<Octet>, g: Segment, len: nat, more: Path, next: Segment, len': nat, wide: bool)
    ensures var d := start + Packed(g, len, more, wide) + EncodeAsns(next.asns, wide);
            |start| + 1 < |d| && d[|start| + 1 := len' % 256] == start + Packed(g, len', more + [next], wide)
  {
    hide EncodeAsns;
    var last := LastChunk(g).asns;
    FlatConcat(more, [next]);
    assert Flat([next]) == next.asns;
    Assoc(last, Flat(more), next.asns);
    EncodeAsnsConcat(last + Flat(more), next.asns, wide);
    hide Flat;
    hide LastChunk;
    Relabel(start, TypeCode(g.kind), len % 256,
            EncodeAsns(last + Flat(more), wide), EncodeAsns(next.asns, wide), len' % 256);
  }

  lemma PackedSize(g: Segment, len: nat, more: Path, wide: bool)
    ensures |Packed(g, len, more, wide)| == 2 + Size(LastLength(|g.asns|) + |Flat(more)|, wide)
  {
    hide EncodeAsns;
  }

  /** What the stream holds while segments are packed: the chunk behind `start`, if there is room for it. */
  ghost predicate Holds(data: seq<Octet>, size: nat, start: seq<Octet>, g: Segment, len: nat, more: Path, wide: bool) {
    && start <= data
    && (|start| + 2 + Size(LastLength(|g.asns|) + |Flat(more)|, wide) <= size ==>
          data == start + Packed(g, len, more, wide))
    && (|start| <= size ==> |data| <= size)
  }

  /** One turn of the packing loop. */
  method PackNext(out: Stream, lenp: nat, next: Segment, len': nat, wide: bool,
                  ghost start: seq<Octet>, ghost g: Segment, ghost len: nat, ghost more: Path)
    requires lenp == |start| + 1 && Holds(out.data, out.size, start, g, len, more, wide)
    modifies out
    ensures Holds(out.data, out.size, start, g, len', more + [next], wide)
    ensures |Flat(more + [next])| == |Flat(more)| + |next.asns|
  {
    hide EncodeAsns;
    hide Packed;
    FlatConcat(more, [next]);
    assert Flat([next]) == next.asns;
    hide Flat;
    PackedSize(g, len, more, wide);
    PackOne(start, g, len, more, next, len', wide);
    PutData(out, next.asns, wide);
    out.PutcAt(lenp, len' % 256);
  }

  method PutLastChunk(out: Stream, g: Segment, written: nat, wide: bool)
    requires written == |g.asns| - LastLength(|g.asns|)
    modifies out
    ensures Holds(out.data, out.size, old(out.data), g, LastLength(|g.asns|), [], wide)
  {
    hide EncodeAsns;
    assert LastChunk(g).asns + Flat([]) == LastChunk(g).asns;
    PutChunk(out, g.kind, g.asns[written..], wide);
  }

  lemma PackMore(g: Segment, rest: Path, k: nat)
    requires k <= |rest|
    ensures PackCount(g, rest[k..]) ==
            if k < |rest| && g.kind.AsSequence? && rest[k].kind.AsSequence? && |g.asns| + |rest[k].asns| <= SEGMENT_MAX
            then 1 + PackCount(g, rest[k + 1..]) else 0
  {
    if k < |rest| {
      assert rest[k..][1..] == rest[k + 1..];
    }
  }

  lemma FlatNothing()
    ensures Flat([]) == []
  {
  }

  /** The last chunk of segment `i`, and the packing loop behind it. */
  method PutLast(out: Stream, p: Path, i: nat, written: nat, wide: bool) returns (j: nat, packed: nat)
    requires i < |p| && written == |p[i].asns| - LastLength(|p[i].asns|)
    modifies out
    ensures var k := PackCount(p[i], p[i + 1..]);
            && j == i + 1 + k && packed == |Flat(p[i + 1..][..k])|
            && Holds(out.data, out.size, old(out.data), p[i], PackedLength(p[i], p[i + 1..]), p[i + 1..][..k], wide)
  {
    hide Holds;
    hide LastLength;
    hide PackCount;
    hide Flat;
    var g := p[i];
    ghost var rest, start := p[i + 1..], out.data;
    var lenp := |out.data| + 1;
    PutLastChunk(out, g, written, wide);
    ghost var k, len := 0, LastLength(|g.asns|);
    assert rest[..0] == [] && rest[0..] == rest;
    FlatNothing();
    packed, j := 0, i + 1;
    while j < |p| && g.kind.AsSequence? && p[j].kind.AsSequence? && |g.asns| + |p[j].asns| <= SEGMENT_MAX
      invariant j == i + 1 + k && k <= |rest|
      invariant PackCount(g, rest) == k + PackCount(g, rest[k..])
      invariant packed == |Flat(rest[..k])|
      invariant len == LastLength(|g.asns|) + if k == 0 then 0 else |rest[k - 1].asns|
      invariant Holds(out.data, out.size, start, g, len, rest[..k], wide)
    {
      assert rest[..k + 1] == rest[..k] + [rest[k]];
      PackMore(g, rest, k);
      PackNext(out, lenp, p[j], |g.asns| - written + |p[j].asns|, wide, start, g, len, rest[..k]);
      len := |g.asns| - written + |p[j].asns|;
      packed := packed + |p[j].asns|;
      k := k + 1;
      j := j + 1;
    }
    PackMore(g, rest, k);
  }

  /** One turn of the outer loop, on values. */
  lemma WireTurn(p: Path, i: nat, wide: bool)
    requires i < |p|
    ensures var g, rest := p[i], p[i + 1..];
            var k := PackCount(g, rest);
            WireLoop(p[i..], wide) ==
            EncodeAll(FullChunks(g, |g.asns|), wide) + Packed(g, PackedLength(g, rest), rest[..k], wide)
            + WireLoop(p[i + 1 + k..], wide)
  {
    hide EncodeAsns;
    hide EncodeAll;
    hide FullChunks;
    hide LastChunk;
    hide PackedLength;
    hide Flat;
    var g, rest := p[i], p[i + 1..];
    var k := PackCount(g, rest);
    hide PackCount;
    assert p[i..][1..] == rest && p[i..][1 + k..] == p[i + 1 + k..];
    Assoc(EncodeAll(FullChunks(g, |g.asns|), wide), [TypeCode(g.kind), PackedLength(g, rest) % 256],
          EncodeAsns(LastChunk(g).asns + Flat(rest[..k]), wide));
  }

  lemma CountTurn(p: Path, i: nat, wide: bool)
    requires i < |p|
    ensures var g, rest := p[i], p[i + 1..];
            var k := PackCount(g, rest);
            CountLoop(p[i..], wide) ==
            FullCount(|g.asns|, 0, wide) + 2 + Size(LastLength(|g.asns|) + |Flat(rest[..k])|, wide)
            + CountLoop(p[i + 1 + k..], wide)
  {
    hide LastLength;
    hide FullCount;
    hide Flat;
    var k := PackCount(p[i], p[i + 1..]);
    hide PackCount;
    assert p[i..][1..] == p[i + 1..] && p[i..][1 + k..] == p[i + 1 + k..];
  }

  /** The guard of the outer loop passes when there is room for the segment. */
  lemma {:induction false} ChunksAreBig(g: Segment, left: nat, wide: bool)
    requires left <= |g.asns|
    ensures |EncodeAll(FullChunks(g, left), wide)| >= Size(left - LastLength(left), wide)
    decreases left
  {
    if left > SEGMENT_MAX {
      ChunksAreBig(g, left - SEGMENT_MAX, wide);
      assert FullChunks(g, left)[1..] == FullChunks(g, left - SEGMENT_MAX);
    }
  }

  /** One turn of the outer loop of aspath_put. */
  method PutSegment(out: Stream, p: Path, i: nat, wide: bool) returns (j: nat, bytes: nat)
    requires i < |p|
    modifies out
    ensures i < j <= |p| && bytes + CountLoop(p[j..], wide) == CountLoop(p[i..], wide)
    ensures |old(out.data)| + |WireLoop(p[i..], wide)| <= out.size ==>
              out.data + WireLoop(p[j..], wide) == old(out.data) + WireLoop(p[i..], wide)
    ensures old(out.data) <= out.data && (|old(out.data)| <= out.size ==> |out.data| <= out.size)
  {
    hide WireLoop;
    hide CountLoop;
    hide EncodeAll;
    hide Packed;
    hide LastLength;
    hide FullCount;
    hide FullChunks;
    hide PackedLength;
    ghost var g, rest, start := p[i], p[i + 1..], out.data;
    ghost var full := EncodeAll(FullChunks(g, |g.asns|), wide);
    ghost var k := PackCount(g, rest);
    ghost var last := Packed(g, PackedLength(g, rest), rest[..k], wide);
    WireTurn(p, i, wide);
    CountTurn(p, i, wide);
    PackedSize(g, PackedLength(g, rest), rest[..k], wide);
    var written: nat, packed: nat;
    written, bytes := PutFull(out, p[i], wide);
    ghost var mid := out.data;
    j, packed := PutLast(out, p, i, written, wide);
    bytes := bytes + 2 + Size(|p[i].asns| - written + packed, wide);
    hide PackCount;
    ghost var tail := WireLoop(p[j..], wide);
    assert WireLoop(p[i..], wide) == full + last + tail;
    if |start| + |WireLoop(p[i..], wide)| <= out.size {
      assert mid == start + full && out.data == mid + last;
      assert (start + full + last) + tail == start + (full + last + tail);
    }
  }

  lemma SegmentNeedsRoom(p: Path, i: nat, wide: bool)
    requires i < |p|
    ensures |WireLoop(p[i..], wide)| >= 2 + Size(|p[i].asns|, wide)
  {
    hide WireLoop;
    hide EncodeAll;
    hide LastLength;
    hide Packed;
    WireTurn(p, i, wide);
    ChunksAreBig(p[i], |p[i].asns|, wide);
    var rest := p[i + 1..];
    PackedSize(p[i], PackedLength(p[i], rest), rest[..PackCount(p[i], rest)], wide);
  }

  lemma WireEnd(p: Path, wide: bool)
    ensures WireLoop(p[|p|..], wide) == [] && CountLoop(p[|p|..], wide) == 0
  {
  }

  /** aspath_put: with room for the whole path, it writes the path and returns the count. */
  method Put(out: Stream, p: Path, wide: bool) returns (bytes: nat)
    modifies out
    ensures |old(out.data)| + |Wire(p, wide)| <= out.size ==>
              out.data == old(out.data) + Wire(p, wide) && bytes == Count(p, wide)
    ensures old(out.data) <= out.data && (|old(out.data)| <= out.size ==> |out.data| <= out.size)
  {
    hide WireLoop;
    hide CountLoop;
    bytes := 0;
    if p == [] || p[0].asns == [] {
      assert out.data + [] == out.data;
      return;
    }
    var i := 0;
    ghost var start := out.data;
    ghost var fits := |start| + |WireLoop(p, wide)| <= out.size;
    assert p[0..] == p;
    while i < |p| && 2 + Size(|p[i].asns|, wide) <= out.size - |out.data|
      invariant 0 <= i <= |p|
      invariant fits ==> out.data + WireLoop(p[i..], wide) == start + WireLoop(p, wide)
      invariant fits ==> bytes + CountLoop(p[i..], wide) == CountLoop(p, wide)
      invariant start <= out.data && (|start| <= out.size ==> |out.data| <= out.size)
      decreases |p| - i
    {
      var n;
      i, n := PutSegment(out, p, i, wide);
      bytes := bytes + n;
    }
    if fits && i < |p| {
      SegmentNeedsRoom(p, i, wide);
      assert false;
    }
    WireEnd(p, wide);
    assert out.data + [] == out.data;
  }

  function Ahead(segs: Path, o: Option<Path>): Option<Path> {
    match o
    case None => None
    case Some(p) => Some(segs + p)
  }

  /** One turn of the parse loop, on values. */
  lemma ParseTurn(b: seq<Octet>, pos: nat, wide: bool)
    requires pos + 2 < |b|
    ensures var n: nat := b[pos + 1];
            ParseLoop(b[pos..], wide) ==
            if pos + 2 + Size(n, wide) > |b| || n == 0 || TypeOf(b[pos]).None? then None
            else Ahead([Segment(TypeOf(b[pos]).value, DecodeAsns(b[pos + 2..], n, wide))],
                       ParseLoop(b[pos + 2 + Size(n, wide)..], wide))
  {
    hide DecodeAsns;
    var n: nat := b[pos + 1];
    assert b[pos..][2..] == b[pos + 2..];
    if pos + 2 + Size(n, wide) <= |b| {
      assert b[pos..][2 + Size(n, wide)..] == b[pos + 2 + Size(n, wide)..];
    }
  }

  lemma ParseEnds(b: seq<Octet>, pos: nat, wide: bool)
    requires pos <= |b| <= pos + 2
    ensures ParseLoop(b[pos..], wide) == if pos == |b| then Some([]) else None
  {
  }

  lemma AheadTwice(segs: Path, g: Segment, o: Option<Path>)
    ensures Ahead(segs, Ahead([g], o)) == Ahead(segs + [g], o)
  {
    if o.Some? {
      Assoc(segs, [g], o.value);
    }
  }

  /** The loop of assegments_parse over a block of octets, followed by normalisation. */
  method ParseBlock(b: seq<Octet>, wide: bool) returns (r: Option<Path>)
    ensures r == Parse(b, wide)
  {
    hide DecodeAsns;
    hide ParseLoop;
    hide Normalise;
    if b == [] {
      return Some([]);
    }
    if |b| % 2 != 0 {
      return None;
    }
    var pos: nat, segs: Path := 0, [];
    ghost var whole := ParseLoop(b, wide);
    assert b[0..] == b && (whole.Some? ==> [] + whole.value == whole.value);
    while pos < |b|
      invariant 0 <= pos <= |b|
      invariant whole == Ahead(segs, ParseLoop(b[pos..], wide))
    {
      if |b| - pos <= 2 {
        ParseEnds(b, pos, wide);
        return None;
      }
      ParseTurn(b, pos, wide);
      var kind, n: nat := TypeOf(b[pos]), b[pos + 1];
      if pos + 2 + Size(n, wide) > |b| || n == 0 || kind.None? {
        return None;
      }
      var g := Segment(kind.value, DecodeAsns(b[pos + 2..], n, wide));
      AheadTwice(segs, g, ParseLoop(b[pos + 2 + Size(n, wide)..], wide));
      segs := segs + [g];
      pos := pos + 2 + Size(n, wide);
    }
    ParseEnds(b, pos, wide);
    assert segs + [] == segs;
    segs := NormaliseChain(segs);
    return Some(segs);
  }
}
