/**
 Known octets and texts of AS paths and communities: the path is one of those in tests/aspath_test.c, and the
 communities are the well-known ones of RFC 1997.
 */
module Vectors {
  import opened Octets
  import opened Options
  import opened Sorting
  import opened Decimal
  import opened AsPath
  import opened AsPathAggregate
  import opened AsPathReconcile
  import W = AsPathWire
  import T = AsPathText
  import C = Community

  const MEMBERS := Segment(ConfedSequence, [123, 456, 789])
  const MEMBER_SET := Segment(ConfedSet, [111, 222])
  const HOPS := Segment(AsSequence, [8722])
  const HOP_SET := Segment(AsSet, [4196, 48658])
  const PATH: Path := [MEMBERS, MEMBER_SET, HOPS, HOP_SET]

  const OCTETS: seq<Octet> := [3, 3, 0x00, 0x7b, 0x01, 0xc8, 0x03, 0x15,
                               4, 2, 0x00, 0x6f, 0x00, 0xde,
                               2, 1, 0x22, 0x12,
                               1, 2, 0x10, 0x64, 0xbe, 0x12]

  const TEXT := "(123 456 789) [111,222] 8722 {4196,48658}"

  lemma Asns(s: seq<Asn>, more: seq<Asn>, x: Asn)
    requires s == [x] + more
    ensures W.EncodeAsns(s, false) == W.EncodeAsn(x, false) + W.EncodeAsns(more, false)
  {
    assert s[1..] == more;
  }

  lemma Segments()
    ensures W.Encode(MEMBERS, false) == [3, 3, 0x00, 0x7b, 0x01, 0xc8, 0x03, 0x15]
    ensures W.Encode(MEMBER_SET, false) == [4, 2, 0x00, 0x6f, 0x00, 0xde]
    ensures W.Encode(HOPS, false) == [2, 1, 0x22, 0x12]
    ensures W.Encode(HOP_SET, false) == [1, 2, 0x10, 0x64, 0xbe, 0x12]
  {
    var none: seq<Asn> := [];
    assert W.EncodeAsns(none, false) == [];
    Asns([789], none, 789);
    Asns([456, 789], [789], 456);
    Asns([123, 456, 789], [456, 789], 123);
    Asns([222], none, 222);
    Asns([111, 222], [222], 111);
    Asns([8722], none, 8722);
    Asns([48658], none, 48658);
    Asns([4196, 48658], [48658], 4196);
  }

  lemma Numeral(n: nat, d: nat)
    requires d < 10
    ensures n > 0 ==> Digits(10 * n + d) == Digits(n) + [DigitChar(d)]
    ensures Digits(d) == [DigitChar(d)]
  {
    assert (10 * n + d) / 10 == n && (10 * n + d) % 10 == d;
  }

  lemma Numerals()
    ensures Digits(0) == "0" && Digits(123) == "123" && Digits(456) == "456" && Digits(789) == "789"
    ensures Digits(111) == "111" && Digits(222) == "222"
    ensures Digits(8722) == "8722" && Digits(4196) == "4196" && Digits(48658) == "48658"
  {
    hide Digits;
    Numeral(0, 0);
    Numeral(0, 1); Numeral(1, 2); Numeral(12, 3);
    Numeral(0, 4); Numeral(4, 5); Numeral(45, 6);
    Numeral(0, 7); Numeral(7, 8); Numeral(78, 9);
    Numeral(1, 1); Numeral(11, 1);
    Numeral(0, 2); Numeral(2, 2); Numeral(22, 2);
    Numeral(0, 8); Numeral(8, 7); Numeral(87, 2); Numeral(872, 2);
    Numeral(4, 1); Numeral(41, 9); Numeral(419, 6);
    Numeral(4, 8); Numeral(48, 6); Numeral(486, 5); Numeral(4865, 8);
  }

  lemma Chunked(g: Segment, p: Path)
    requires |g.asns| <= SEGMENT_MAX && W.PathChunks(p) == p
    ensures W.PathChunks([g] + p) == [g] + p
    ensures W.EncodeAll([g] + p, false) == W.Encode(g, false) + W.EncodeAll(p, false)
  {
    assert ([g] + p)[1..] == p;
    assert g.asns[0..] == g.asns;
    assert W.ChunksOf(g) == [g];
  }

  lemma Normal(g: Segment, p: Path)
    requires IsNormal(p) && (g.kind.IsSet() ==> Strict(g.asns))
    requires g.kind.AsSequence? && p != [] ==> !p[0].kind.AsSequence?
    requires g.asns != [] && NoEmptySegment(p)
    ensures IsNormal([g] + p) && NoEmptySegment([g] + p)
  {
    assert ([g] + p)[1..] == p;
  }

  const ONE: Path := [HOP_SET]
  const TWO: Path := [HOPS] + ONE
  const THREE: Path := [MEMBER_SET] + TWO

  lemma PathNormal()
    ensures PATH == [MEMBERS] + THREE
    ensures IsNormal(PATH) && NoEmptySegment(PATH)
  {
    assert [HOP_SET] + [] == ONE;
    Normal(HOP_SET, []);
    Normal(HOPS, ONE);
    Normal(MEMBER_SET, TWO);
    Normal(MEMBERS, THREE);
  }

  lemma Nothing()
    ensures W.PathChunks([]) == [] && W.EncodeAll([], false) == []
  {
  }

  lemma PathEncoded()
    ensures W.PathChunks(PATH) == PATH && W.EncodeAll(PATH, false) == OCTETS
  {
    hide W.PathChunks;
    hide W.EncodeAll;
    hide W.Encode;
    Segments();
    Nothing();
    assert [HOP_SET] + [] == ONE && PATH == [MEMBERS] + THREE;
    Chunked(HOP_SET, []);
    Chunked(HOPS, ONE);
    Chunked(MEMBER_SET, TWO);
    Chunked(MEMBERS, THREE);
  }

  lemma PathOctets()
    ensures W.Wire(PATH, false) == OCTETS
  {
    PathNormal();
    PathEncoded();
    hide IsNormal;
    hide W.EncodeAll;
    hide W.PathChunks;
    W.WireIsChunks(PATH, false);
    hide W.WireLoop;
  }

  lemma Small(g: Segment, p: Path)
    requires !HasAs4(p) && forall x | x in g.asns :: x <= AS_MAX
    ensures !HasAs4([g] + p)
  {
    assert ([g] + p)[1..] == p;
    assert Flat([g] + p) == g.asns + Flat(p);
  }

  lemma Surviving(g: Segment, p: Path)
    requires |g.asns| <= SEGMENT_MAX && W.Survives(p)
    ensures W.Survives([g] + p)
  {
    assert ([g] + p)[1..] == p;
  }

  lemma PathArrives()
    ensures W.Parse(OCTETS, false) == Some(PATH)
  {
    hide W.Parse;
    hide W.Wire;
    PathOctets();
    PathNormal();
    assert [HOP_SET] + [] == ONE;
    Small(HOP_SET, []);
    Small(HOPS, ONE);
    Small(MEMBER_SET, TWO);
    Small(MEMBERS, THREE);
    hide HasAs4;
    NarrowSmall(PATH);
    Surviving(HOP_SET, []);
    Surviving(HOPS, ONE);
    Surviving(MEMBER_SET, TWO);
    Surviving(MEMBERS, THREE);
    hide W.Survives;
    W.WireRoundTripIff(PATH, false);
    NormalFixed(PATH);
  }

  lemma Spelt(g: Segment, p: Path)
    ensures T.SpelledAll([g] + p) == [T.Spelled(g)] + T.SpelledAll(p)
    ensures T.SpelledAll([]) == []
  {
    assert ([g] + p)[1..] == p;
  }

  lemma Together(a: string, parts: seq<string>, sep: string)
    ensures T.Joined([a], sep) == a
    ensures parts != [] ==> T.Joined([a] + parts, sep) == a + sep + T.Joined(parts, sep)
  {
    assert ([a] + parts)[1..] == parts;
  }

  lemma Listed(x: Asn, y: Asn, z: Asn, sep: string)
    ensures T.Joined(T.Numerals([x]), sep) == Digits(x)
    ensures T.Joined(T.Numerals([x, y]), sep) == Digits(x) + sep + Digits(y)
    ensures T.Joined(T.Numerals([x, y, z]), sep) == Digits(x) + sep + (Digits(y) + sep + Digits(z))
  {
    hide Digits;
    hide T.Joined;
    assert [x][1..] == [] && [x, y][1..] == [y] && [x, y, z][1..] == [y, z] && [y][1..] == [] && [y, z][1..] == [z];
    assert [z][1..] == [];
    assert T.Numerals([x]) == [Digits(x)];
    assert T.Numerals([]) == [] && T.Numerals([z]) == [Digits(z)] && T.Numerals([y]) == [Digits(y)];
    assert T.Numerals([y, z]) == [Digits(y)] + [Digits(z)];
    assert T.Numerals([x, y, z]) == [Digits(x)] + ([Digits(y)] + [Digits(z)]);
    Together(Digits(x), [Digits(y)], sep);
    Together(Digits(y), [Digits(z)], sep);
    Together(Digits(z), [], sep);
    Together(Digits(x), [Digits(y)] + [Digits(z)], sep);
  }

  lemma Words()
    ensures T.Spelled(MEMBERS) == "(123 456 789)" && T.Spelled(MEMBER_SET) == "[111,222]"
    ensures T.Spelled(HOPS) == "8722" && T.Spelled(HOP_SET) == "{4196,48658}"
  {
    hide Digits;
    hide T.Numerals;
    hide T.Joined;
    Numerals();
    Listed(123, 456, 789, " ");
    Listed(111, 222, 0, ",");
    Listed(8722, 0, 0, " ");
    Listed(4196, 48658, 0, ",");
  }

  lemma PathSpelt()
    ensures T.SpelledAll(PATH) == ["(123 456 789)", "[111,222]", "8722", "{4196,48658}"]
  {
    hide T.SpelledAll;
    hide T.Spelled;
    Words();
    assert [HOP_SET] + [] == ONE && PATH == [MEMBERS] + THREE;
    Spelt(HOP_SET, []);
    Spelt(HOPS, ONE);
    Spelt(MEMBER_SET, TWO);
    Spelt(MEMBERS, THREE);
  }

  lemma Sentence(a: string, b: string, c: string, d: string)
    ensures T.Joined([a, b, c, d], " ") == a + " " + (b + " " + (c + " " + d))
  {
    hide T.Joined;
    assert [a, b, c, d] == [a] + [b, c, d] && [b, c, d] == [b] + [c, d] && [c, d] == [c] + [d];
    Together(d, [], " ");
    Together(c, [d], " ");
    Together(b, [c, d], " ");
    Together(a, [b, c, d], " ");
  }

  lemma PathText()
    ensures T.Print(PATH) == TEXT
  {
    hide T.Print;
    hide T.SpelledAll;
    hide T.Joined;
    T.PrintSpells(PATH);
    PathSpelt();
    Sentence("(123 456 789)", "[111,222]", "8722", "{4196,48658}");
  }

  lemma {:induction false} NoneEmpty(p: Path)
    requires NoEmptySegment(p)
    ensures NoEmptySequence(p)
  {
    if p != [] {
      NoneEmpty(p[1..]);
    }
  }

  lemma TextRead()
    ensures T.FromText(TEXT) == Some(PATH)
  {
    hide T.Print;
    hide T.FromText;
    hide IsNormal;
    hide NoEmptySegment;
    PathNormal();
    NoneEmpty(PATH);
    PathText();
    T.NormalIsTextual(PATH);
    T.TextRoundTrip(PATH);
  }

  lemma PathCounts()
    ensures CountHops(PATH) == 2 && CountConfeds(PATH) == 4 && DeleteConfedSeq(PATH) == [HOPS, HOP_SET]
  {
    assert PATH[1..] == THREE && THREE[1..] == TWO && TWO[1..] == ONE && ONE[1..] == [];
    assert CountHops(ONE) == 1 && CountConfeds(ONE) == 0;
    assert CountHops(TWO) == 2 && CountConfeds(TWO) == 0;
    assert CountHops(THREE) == 2 && CountConfeds(THREE) == 1;
    assert DropConfed(TWO) == TWO && TWO == [HOPS, HOP_SET];
    assert DropConfed(THREE) == TWO;
  }

  /** One path with all four sorts of segments: its octets, its text, its hop counts, and what confederations leave. */
  lemma PathVector()
    ensures W.Wire(PATH, false) == OCTETS && W.Parse(OCTETS, false) == Some(PATH)
    ensures T.Print(PATH) == TEXT && T.FromText(TEXT) == Some(PATH)
    ensures CountHops(PATH) == 2 && CountConfeds(PATH) == 4 && DeleteConfedSeq(PATH) == [HOPS, HOP_SET]
  {
    hide W.Wire;
    hide W.Parse;
    hide T.Print;
    hide T.FromText;
    hide CountHops;
    hide CountConfeds;
    hide DeleteConfedSeq;
    PathOctets();
    PathArrives();
    PathText();
    TextRead();
    PathCounts();
  }

  // ----- Communities

  lemma Named(c: Word, name: string)
    requires c == 0 ==> name == "internet"
    requires c == 0xFFFF_FF01 ==> name == "no-export"
    requires c == 0xFFFF_FF02 ==> name == "no-advertise"
    requires c == 0xFFFF_FF03 ==> name == "local-AS"
    requires c in {0, 0xFFFF_FF01, 0xFFFF_FF02, 0xFFFF_FF03}
    ensures C.PrintOne(c) == name && C.GetToken(name) == C.Token(c, "")
  {
    C.WordBack(c, "");
    assert name + "" == name;
  }

  lemma Halves()
    ensures C.PrintOne(456 * 65536 + 123) == "456:123"
    ensures C.GetToken("456:123") == C.Token(456 * 65536 + 123, "")
  {
    hide Digits;
    hide C.GetToken;
    Numerals();
    C.PairBack(456 * 65536 + 123, "");
    assert "456" + ":" + "123" == "456:123" && "456:123" + "" == "456:123";
  }

  lemma OneOrTwo(c: Word, d: Word)
    ensures C.Print([c]) == C.PrintOne(c) && C.Print([c, d]) == C.PrintOne(c) + " " + C.PrintOne(d)
  {
    hide C.PrintOne;
    assert [c][1..] == [] && [c, d][1..] == [d] && [d][1..] == [];
    assert C.Print([]) == "";
    assert C.Print([d]) == C.PrintOne(d) + "" + "";
    assert C.Print([c]) == C.PrintOne(c) + "" + "";
  }

  /** The well-known communities by name, and any other one as its two halves. */
  lemma CommunityVectors()
    ensures C.Print([0xFFFF_FF01]) == "no-export" && C.GetToken("no-export") == C.Token(0xFFFF_FF01, "")
    ensures C.Print([0xFFFF_FF02]) == "no-advertise" && C.GetToken("no-advertise") == C.Token(0xFFFF_FF02, "")
    ensures C.Print([0xFFFF_FF03]) == "local-AS" && C.GetToken("local-AS") == C.Token(0xFFFF_FF03, "")
    ensures C.Print([0]) == "internet" && C.GetToken("internet") == C.Token(0, "")
    ensures C.Print([456 * 65536 + 123, 0xFFFF_FF01]) == "456:123 no-export"
    ensures C.GetToken("456:123") == C.Token(456 * 65536 + 123, "")
  {
    hide C.GetToken;
    hide C.PrintOne;
    Named(0xFFFF_FF01, "no-export");
    Named(0xFFFF_FF02, "no-advertise");
    Named(0xFFFF_FF03, "local-AS");
    Named(0, "internet");
    Halves();
    OneOrTwo(0xFFFF_FF01, 0);
    OneOrTwo(0xFFFF_FF02, 0);
    OneOrTwo(0xFFFF_FF03, 0);
    OneOrTwo(0, 0);
    OneOrTwo(456 * 65536 + 123, 0xFFFF_FF01);
    hide C.Print;
  }
}
