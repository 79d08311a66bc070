/**
 AS paths as text (aspath_make_str_count, aspath_gettoken and aspath_str2aspath
 in bgpd/bgp_aspath.c).
 */
module AsPathText {
  import opened Lists
  import opened Options
  import opened Decimal
  import opened AsPath
  import opened AsPathAggregate

  // ----- Printing

  function Separator(k: SegType): char {
    if k.IsSet() then ',' else ' '
  }

  function PrintAsns(s: seq<Asn>, sep: char): string {
    if s == [] then []
    else if |s| == 1 then Digits(s[0])
    else Digits(s[0]) + [sep] + PrintAsns(s[1..], sep)
  }

  /** aspath_delimiter_char */
  function Open(k: SegType): string {
    match k
    case AsSet => "{"
    case ConfedSet => "["
    case ConfedSequence => "("
    case AsSequence => ""
  }

  function Close(k: SegType): string {
    match k
    case AsSet => "}"
    case ConfedSet => "]"
    case ConfedSequence => ")"
    case AsSequence => ""
  }

  function PrintSegment(g: Segment): string {
    Open(g.kind) + PrintAsns(g.asns, Separator(g.kind)) + Close(g.kind)
  }

  function Gap(p: Path): string {
    if p == [] then "" else " "
  }

  /** aspath_make_str_count */
  function Print(p: Path): string {
    if p == [] then "" else PrintSegment(p[0]) + Gap(p[1..]) + Print(p[1..])
  }

  // ----- What the text looks like

  /** The parts with `sep` between them. */
  function Joined(parts: seq<string>, sep: string): string {
    if parts == [] then "" else if |parts| == 1 then parts[0] else parts[0] + sep + Joined(parts[1..], sep)
  }

  function Numerals(s: seq<Asn>): seq<string> {
    if s == [] then [] else [Digits(s[0])] + Numerals(s[1..])
  }

  function Spelled(g: Segment): string {
    match g.kind
    case AsSequence => Joined(Numerals(g.asns), " ")
    case AsSet => "{" + Joined(Numerals(g.asns), ",") + "}"
    case ConfedSequence => "(" + Joined(Numerals(g.asns), " ") + ")"
    case ConfedSet => "[" + Joined(Numerals(g.asns), ",") + "]"
  }

  function SpelledAll(p: Path): seq<string> {
    if p == [] then [] else [Spelled(p[0])] + SpelledAll(p[1..])
  }

  lemma {:induction false} AsnsJoined(s: seq<Asn>, sep: char)
    ensures PrintAsns(s, sep) == Joined(Numerals(s), [sep]) && |Numerals(s)| == |s|
  {
    if s != [] {
      AsnsJoined(s[1..], sep);
      assert Numerals(s)[1..] == Numerals(s[1..]);
    }
  }

  /** Segments are told apart by their brackets, sets have commas, and blanks separate the rest. */
  lemma {:induction false} PrintSpells(p: Path)
    ensures Print(p) == Joined(SpelledAll(p), " ") && |SpelledAll(p)| == |p|
  {
    if p != [] {
      PrintSpells(p[1..]);
      AsnsJoined(p[0].asns, ',');
      AsnsJoined(p[0].asns, ' ');
      assert SpelledAll(p)[1..] == SpelledAll(p[1..]);
      var t := PrintAsns(p[0].asns, ' ');
      assert "" + t + "" == t && PrintSegment(p[0]) + "" + "" == PrintSegment(p[0]);
      assert PrintSegment(p[0]) == Spelled(p[0]);
    }
  }

  // ----- Tokens

  datatype Token = Val(asn: Asn) | Opening(kind: SegType) | Closing | Unknown

  /** aspath_gettoken, called until the end of the string or an unknown token. */
  function Lex(s: string): seq<Token>
    decreases |s|
  {
    if s == [] then []
    else if IsSpace(s[0]) || s[0] == ',' then Lex(s[1..])
    else
      match s[0]
      case '\0' => []
      case '{' => [Opening(AsSet)] + Lex(s[1..])
      case '}' => [Closing] + Lex(s[1..])
      case '(' => [Opening(ConfedSequence)] + Lex(s[1..])
      case ')' => [Closing] + Lex(s[1..])
      case '[' => [Opening(ConfedSet)] + Lex(s[1..])
      case ']' => [Closing] + Lex(s[1..])
      case _ =>
        if IsDigit(s[0]) then
          var r := Number(s[1..], DigitValue(s[0]));
          [Val(r.0)] + Lex(r.1)
        else [Unknown]
  }

  // ----- Parsing

  /** aspath_as_add: append an ASN to the last segment. */
  function AddAsn(p: Path, a: Asn): Path {
    if p == [] then p
    else p[..|p| - 1] + [Segment(p[|p| - 1].kind, p[|p| - 1].asns + [a])]
  }

  /** The loop of aspath_str2aspath. */
  function ParseTokens(t: seq<Token>, p: Path, kind: SegType, need: bool): Option<Path>
    decreases t
  {
    if t == [] then Some(p)
    else
      match t[0]
      case Val(a) => ParseTokens(t[1..], AddAsn(if need then p + [Segment(kind, [])] else p, a), kind, false)
      case Opening(k) => ParseTokens(t[1..], p + [Segment(k, [])], k, false)
      case Closing => ParseTokens(t[1..], p, AsSequence, true)
      case Unknown => None
  }

  /** aspath_str2aspath */
  function FromText(s: string): Option<Path> {
    ParseTokens(Lex(s), [], AsSequence, true)
  }

  // ----- Numbers come back

  lemma LexDigit(s: string)
    requires s != [] && IsDigit(s[0])
    ensures Lex(s) == [Val(Number(s, 0).0)] + Lex(Number(s, 0).1)
  {
  }

  lemma LexNumber(n: Asn, rest: string)
    requires rest == [] || !IsDigit(rest[0])
    ensures Lex(Digits(n) + rest) == [Val(n)] + Lex(rest)
  {
    hide Digits;
    hide Value;
    hide Lex;
    hide Number;
    DigitsValue(n);
    NumberValue(Digits(n), 0, rest);
    LexDigit(Digits(n) + rest);
  }

  function Vals(s: seq<Asn>): seq<Token> {
    if s == [] then [] else [Val(s[0])] + Vals(s[1..])
  }

  lemma LexSkip(c: char, s: string)
    requires c == ',' || c == ' '
    ensures Lex([c] + s) == Lex(s)
  {
    assert ([c] + s)[1..] == s;
  }

  lemma {:induction false} LexAsns(s: seq<Asn>, sep: char, rest: string)
    requires (sep == ',' || sep == ' ') && (rest == [] || !IsDigit(rest[0]))
    ensures Lex(PrintAsns(s, sep) + rest) == Vals(s) + Lex(rest)
  {
    hide Digits;
    hide Lex;
    if s == [] {
      assert PrintAsns(s, sep) + rest == rest;
      assert [] + Lex(rest) == Lex(rest);
    } else if |s| == 1 {
      LexNumber(s[0], rest);
      assert Vals(s[1..]) == [];
    } else {
      var tail := PrintAsns(s[1..], sep) + rest;
      assert PrintAsns(s, sep) + rest == Digits(s[0]) + ([sep] + tail);
      LexNumber(s[0], [sep] + tail);
      LexSkip(sep, tail);
      LexAsns(s[1..], sep, rest);
      Assoc([Val(s[0])], Vals(s[1..]), Lex(rest));
    }
  }

  /** The tokens a segment prints as. */
  function SegmentTokens(g: Segment): seq<Token> {
    if g.kind.AsSequence? then Vals(g.asns) else [Opening(g.kind)] + Vals(g.asns) + [Closing]
  }

  function PathTokens(p: Path): seq<Token> {
    if p == [] then [] else SegmentTokens(p[0]) + PathTokens(p[1..])
  }

  lemma LexOpen(k: SegType, s: string)
    requires !k.AsSequence?
    ensures Lex(Open(k) + s) == [Opening(k)] + Lex(s)
    ensures Lex(Close(k) + s) == [Closing] + Lex(s)
    ensures !IsDigit((Close(k) + s)[0])
  {
    assert (Open(k) + s)[1..] == s && (Close(k) + s)[1..] == s;
  }

  lemma LexSegment(g: Segment, rest: string)
    requires rest == [] || !IsDigit(rest[0])
    ensures Lex(PrintSegment(g) + rest) == SegmentTokens(g) + Lex(rest)
  {
    hide Lex;
    hide PrintAsns;
    hide Vals;
    var body := PrintAsns(g.asns, Separator(g.kind));
    if g.kind.AsSequence? {
      LexAsns(g.asns, Separator(g.kind), rest);
      assert PrintSegment(g) == body;
    } else {
      var tail := Close(g.kind) + rest;
      assert PrintSegment(g) + rest == Open(g.kind) + (body + tail);
      LexOpen(g.kind, body + tail);
      LexOpen(g.kind, rest);
      LexAsns(g.asns, Separator(g.kind), tail);
      assert [Opening(g.kind)] + (Vals(g.asns) + ([Closing] + Lex(rest))) == SegmentTokens(g) + Lex(rest);
    }
  }

  lemma LexNothing()
    ensures Lex([]) == []
  {
  }

  /** The printed path lexes to the tokens of its segments. */
  lemma {:induction false} LexPrint(p: Path)
    ensures Lex(Print(p)) == PathTokens(p)
  {
    hide Lex;
    hide PrintSegment;
    hide SegmentTokens;
    if p == [] {
      LexNothing();
    } else {
      var tail := Gap(p[1..]) + Print(p[1..]);
      Assoc(PrintSegment(p[0]), Gap(p[1..]), Print(p[1..]));
      LexSegment(p[0], tail);
      LexPrint(p[1..]);
      if p[1..] != [] {
        LexSkip(' ', Print(p[1..]));
      } else {
        assert tail == [];
        LexNothing();
      }
    }
  }

  // ----- What the parser makes of the tokens of a path

  function AddAsns(p: Path, s: seq<Asn>): Path {
    if p == [] then p
    else p[..|p| - 1] + [Segment(p[|p| - 1].kind, p[|p| - 1].asns + s)]
  }

  lemma ParseVal(a: Asn, t: seq<Token>, p: Path, kind: SegType, need: bool)
    ensures ParseTokens([Val(a)] + t, p, kind, need) ==
            ParseTokens(t, AddAsn(if need then p + [Segment(kind, [])] else p, a), kind, false)
  {
    assert ([Val(a)] + t)[1..] == t;
  }

  lemma AddAsnThen(p: Path, a: Asn, s: seq<Asn>)
    requires p != []
    ensures AddAsns(AddAsn(p, a), s) == AddAsns(p, [a] + s)
    ensures AddAsns(p, []) == p
  {
    var l := p[|p| - 1];
    Assoc(l.asns, [a], s);
    assert l.asns + [] == l.asns;
    assert p[..|p| - 1] + [l] == p;
  }

  lemma {:induction false} ParseVals(s: seq<Asn>, t: seq<Token>, p: Path, kind: SegType)
    requires p != []
    ensures ParseTokens(Vals(s) + t, p, kind, false) == ParseTokens(t, AddAsns(p, s), kind, false)
    decreases s
  {
    hide ParseTokens;
    if s == [] {
      assert Vals(s) + t == t;
      AddAsnThen(p, 0, []);
    } else {
      Assoc([Val(s[0])], Vals(s[1..]), t);
      ParseVal(s[0], Vals(s[1..]) + t, p, kind, false);
      ParseVals(s[1..], t, AddAsn(p, s[0]), kind);
      AddAsnThen(p, s[0], s[1..]);
      assert [s[0]] + s[1..] == s;
    }
  }

  /** Segments as the parser builds them: values outside brackets extend a current AS_SEQUENCE. */
  function Extend(q: Path, need: bool, p: Path): Path
    decreases p
  {
    if p == [] then q
    else if !p[0].kind.AsSequence? then Extend(q + [p[0]], true, p[1..])
    else if p[0].asns == [] then Extend(q, need, p[1..])
    else if need then Extend(q + [p[0]], false, p[1..])
    else Extend(AddAsns(q, p[0].asns), false, p[1..])
  }

  lemma AddToNew(q: Path, k: SegType, s: seq<Asn>)
    ensures AddAsns(q + [Segment(k, [])], s) == q + [Segment(k, s)]
  {
    var r := q + [Segment(k, [])];
    assert r[..|r| - 1] == q && [] + s == s;
  }

  lemma ParseBracket(g: Segment, t: seq<Token>, q: Path, kind: SegType, need: bool)
    requires !g.kind.AsSequence?
    ensures ParseTokens(SegmentTokens(g) + t, q, kind, need) == ParseTokens(t, q + [g], AsSequence, true)
  {
    var u := Vals(g.asns) + ([Closing] + t);
    assert SegmentTokens(g) + t == [Opening(g.kind)] + u;
    assert ([Opening(g.kind)] + u)[1..] == u && ([Closing] + t)[1..] == t;
    var r := q + [Segment(g.kind, [])];
    ParseVals(g.asns, [Closing] + t, r, g.kind);
    AddToNew(q, g.kind, g.asns);
  }

  lemma ParseFirstVal(s: seq<Asn>, t: seq<Token>, q: Path)
    requires s != []
    ensures ParseTokens(Vals(s) + t, q, AsSequence, true) ==
            ParseTokens(t, q + [Segment(AsSequence, s)], AsSequence, false)
  {
    hide ParseTokens;
    var r := q + [Segment(AsSequence, [])];
    Assoc([Val(s[0])], Vals(s[1..]), t);
    ParseVal(s[0], Vals(s[1..]) + t, q, AsSequence, true);
    ParseVals(s[1..], t, AddAsn(r, s[0]), AsSequence);
    AddAsnThen(r, s[0], s[1..]);
    assert [s[0]] + s[1..] == s;
    AddToNew(q, AsSequence, s);
  }

  lemma ParseNothing(q: Path, need: bool)
    ensures ParseTokens([], q, AsSequence, need) == Some(q)
  {
  }

  lemma {:induction false} ParsePath(p: Path, q: Path, need: bool)
    requires need || q != []
    ensures ParseTokens(PathTokens(p), q, AsSequence, need) == Some(Extend(q, need, p))
    decreases p
  {
    hide ParseTokens;
    if p == [] {
      ParseNothing(q, need);
    } else {
      var g, t := p[0], PathTokens(p[1..]);
      if !g.kind.AsSequence? {
        ParseBracket(g, t, q, AsSequence, need);
        ParsePath(p[1..], q + [g], true);
      } else if g.asns == [] {
        assert Vals([]) + t == t;
        ParsePath(p[1..], q, need);
      } else if need {
        ParseFirstVal(g.asns, t, q);
        ParsePath(p[1..], q + [g], false);
      } else {
        ParseVals(g.asns, t, q, AsSequence);
        ParsePath(p[1..], AddAsns(q, g.asns), false);
      }
    }
  }

  // ----- Which paths come back

  /** No AS_SEQUENCE is empty and no two are adjacent. */
  predicate Textual(p: Path) {
    p == [] ||
    (&& (p[0].kind.AsSequence? ==> p[0].asns != [])
     && (p[0].kind.AsSequence? && |p| > 1 ==> !p[1].kind.AsSequence?)
     && Textual(p[1..]))
  }

  lemma {:induction false} ExtendTextual(q: Path, need: bool, p: Path)
    requires Textual(p) && (need || p == [] || !p[0].kind.AsSequence?)
    ensures Extend(q, need, p) == q + p
    decreases p
  {
    if p == [] {
      assert q + p == q;
    } else {
      ExtendTextual(q + [p[0]], !p[0].kind.AsSequence?, p[1..]);
      assert (q + [p[0]]) + p[1..] == q + p;
    }
  }

  predicate EndsInSequence(q: Path) {
    q != [] && q[|q| - 1].kind.AsSequence?
  }

  lemma {:induction false} TextualAppend(q: Path, g: Segment)
    requires Textual(q) && (g.kind.AsSequence? ==> g.asns != [] && !EndsInSequence(q))
    ensures Textual(q + [g])
  {
    if q != [] {
      TextualAppend(q[1..], g);
      assert (q + [g])[1..] == q[1..] + [g];
    }
  }

  lemma {:induction false} TextualAddAsns(q: Path, s: seq<Asn>)
    requires Textual(q)
    ensures Textual(AddAsns(q, s))
  {
    if |q| > 1 {
      TextualAddAsns(q[1..], s);
      assert AddAsns(q, s)[1..] == AddAsns(q[1..], s);
    }
  }

  lemma {:induction false} ExtendIsTextual(q: Path, need: bool, p: Path)
    requires Textual(q) && (need ==> !EndsInSequence(q)) && (!need ==> q != [])
    ensures Textual(Extend(q, need, p))
    decreases p
  {
    if p != [] {
      var g := p[0];
      if !g.kind.AsSequence? {
        TextualAppend(q, g);
        ExtendIsTextual(q + [g], true, p[1..]);
      } else if g.asns == [] {
        ExtendIsTextual(q, need, p[1..]);
      } else if need {
        TextualAppend(q, g);
        ExtendIsTextual(q + [g], false, p[1..]);
      } else {
        TextualAddAsns(q, g.asns);
        ExtendIsTextual(AddAsns(q, g.asns), false, p[1..]);
      }
    }
  }

  /** Printing and parsing gives the path back exactly when no AS_SEQUENCE is empty or next to another. */
  lemma TextRoundTrip(p: Path)
    ensures FromText(Print(p)) == Some(p) <==> Textual(p)
  {
    LexPrint(p);
    ParsePath(p, [], true);
    ExtendIsTextual([], true, p);
    if Textual(p) {
      ExtendTextual([], true, p);
      assert [] + p == p;
    }
  }

  /** Every normal path without empty AS_SEQUENCEs survives the round trip. */
  lemma {:induction false} NormalIsTextual(p: Path)
    requires IsNormal(p) && NoEmptySequence(p)
    ensures Textual(p)
  {
    if p != [] {
      NormalIsTextual(p[1..]);
    }
  }

  // ----- The loops: the printer and its buffer

  lemma AsnLength(n: Asn)
    ensures |Digits(n)| <= 10
  {
    assert Power10(5) == 100000;
    assert Power10(10) == 100000 * Power10(5);
    DigitsLength(n, 10);
  }

  lemma PrintTurn(s: seq<Asn>, j: nat, sep: char)
    requires j < |s|
    ensures PrintAsns(s[j..], sep) ==
            Digits(s[j]) + (if j < |s| - 1 then [sep] else []) + PrintAsns(s[j + 1..], sep)
  {
    hide Digits;
    assert s[j..][1..] == s[j + 1..];
  }

  lemma PrintNothing(sep: char)
    ensures PrintAsns([], sep) == []
  {
  }

  /** The ASNs of a segment, each followed by the separator except the last. */
  method PutAsns(buf: string, size: nat, s: seq<Asn>, sep: char) returns (r: string)
    requires |buf| + 11 * |s| < size
    ensures r == buf + PrintAsns(s, sep) && |r| <= |buf| + 11 * |s|
  {
    hide Digits;
    hide PrintAsns;
    r := buf;
    var j := 0;
    assert s[0..] == s;
    while j < |s|
      invariant 0 <= j <= |s| && |r| <= |buf| + 11 * j
      invariant r + PrintAsns(s[j..], sep) == buf + PrintAsns(s, sep)
    {
      AsnLength(s[j]);
      PrintTurn(s, j, sep);
      ghost var tail := PrintAsns(s[j + 1..], sep);
      ghost var mid := if j < |s| - 1 then [sep] else [];
      assert r + (Digits(s[j]) + mid + tail) == (r + Digits(s[j]) + mid) + tail;
      r := Snprintf(r, size, Digits(s[j]));
      if j < |s| - 1 {
        r := Snprintf(r, size, [sep]);
      }
      j := j + 1;
    }
    PrintNothing(sep);
    assert s[j..] == [] && r + [] == r;
  }

  /** One segment, with its delimiters and the space behind it. */
  method PutSegment(buf: string, size: nat, g: Segment, last: bool) returns (r: string)
    requires |buf| + |g.asns| * 11 + 2 + 1 + 1 <= size
    ensures r == buf + (PrintSegment(g) + if last then "" else " ") && |r| < size
  {
    hide PrintAsns;
    r := buf;
    if !g.kind.AsSequence? {
      r := Snprintf(r, size, Open(g.kind));
    }
    r := PutAsns(r, size, g.asns, Separator(g.kind));
    if !g.kind.AsSequence? {
      r := Snprintf(r, size, Close(g.kind));
    }
    if !last {
      r := Snprintf(r, size, " ");
    }
  }

  /**
   aspath_make_str_count: whatever the mix of segments, the buffer is large
   enough for every write, so nothing is truncated.
   */
  method MakeString(p: Path) returns (str: string, size: nat)
    ensures str == Print(p) && |str| < size
  {
    hide PrintSegment;
    if p == [] {
      return [], 1;
    }
    size := |Flat(p)| * 11 + 2 + 1;
    if size < 32 {
      size := 32;
    }
    str := [];
    var i := 0;
    assert p[0..] == p && [] + Print(p) == Print(p);
    while i < |p|
      invariant 0 <= i <= |p| && |str| < size
      invariant str + Print(p[i..]) == Print(p)
    {
      var g := p[i];
      assert p[i..][1..] == p[i + 1..];
      if |str| + |g.asns| * 11 + 2 + 1 + 1 > size {
        size := |str| + |g.asns| * 11 + 2 + 1 + 1;
      }
      Assoc(str, PrintSegment(g) + Gap(p[i + 1..]), Print(p[i + 1..]));
      str := PutSegment(str, size, g, i + 1 == |p|);
      i := i + 1;
    }
    assert str + [] == str;
  }

  // ----- The loops: the parser

  /** aspath_gettoken: the next token and what follows it, or nothing at the end of the string. */
  method GetToken(s: string) returns (token: Token, rest: Option<string>)
    ensures rest.Some? ==> |rest.value| <= |s|
    ensures rest.Some? && token != Unknown ==> |rest.value| < |s|
    ensures rest.None? ==> Lex(s) == []
    ensures rest.Some? ==> Lex(s) == if token == Unknown then [Unknown] else [token] + Lex(rest.value)
  {
    var p := 0;
    assert s[0..] == s;
    token, rest := Unknown, None;
    while p < |s| && (IsSpace(s[p]) || s[p] == ',')
      invariant 0 <= p <= |s|
      invariant Lex(s) == Lex(s[p..])
    {
      assert s[p..][1..] == s[p + 1..];
      p := p + 1;
    }
    if p == |s| || s[p] == '\0' {
      return;
    }
    assert s[p..][1..] == s[p + 1..] && s[p..][0] == s[p];
    match s[p] {
      case '{' => return Opening(AsSet), Some(s[p + 1..]);
      case '}' => return Closing, Some(s[p + 1..]);
      case '(' => return Opening(ConfedSequence), Some(s[p + 1..]);
      case ')' => return Closing, Some(s[p + 1..]);
      case '[' => return Opening(ConfedSet), Some(s[p + 1..]);
      case ']' => return Closing, Some(s[p + 1..]);
      case _ =>
    }
    if !IsDigit(s[p]) {
      return Unknown, Some(s[p..]);
    }
    var asval: Asn := DigitValue(s[p]);
    ghost var number := Number(s[p + 1..], asval);
    ghost var first := p;
    p := p + 1;
    while p < |s| && IsDigit(s[p])
      invariant first < p <= |s|
      invariant number == Number(s[p..], asval)
    {
      assert s[p..][1..] == s[p + 1..];
      asval := (asval * 10 + DigitValue(s[p])) % 0x1_0000_0000;
      p := p + 1;
    }
    return Val(asval), Some(s[p..]);
  }

  /** aspath_str2aspath */
  method Str2Path(str: string) returns (r: Option<Path>)
    ensures r == FromText(str)
  {
    hide Lex;
    var s, p, kind, need := str, [], AsSequence, true;
    while true
      invariant ParseTokens(Lex(s), p, kind, need) == FromText(str)
      decreases |s|
    {
      var token, rest := GetToken(s);
      if rest.None? {
        return Some(p);
      }
      ghost var t := Lex(rest.value);
      assert ([token] + t)[1..] == t;
      match token {
        case Val(a) =>
          if need {
            p := p + [Segment(kind, [])];
            need := false;
          }
          p := AddAsn(p, a);
        case Opening(k) =>
          kind := k;
          p := p + [Segment(k, [])];
          need := false;
        case Closing =>
          kind := AsSequence;
          need := true;
        case Unknown =>
          return None;
      }
      s := rest.value;
    }
  }
}
