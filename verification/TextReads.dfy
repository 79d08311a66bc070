/**
 What the readers of communities and AS paths make of any text, token by token (community_gettoken in
 bgpd/bgp_community.c, aspath_gettoken in bgpd/bgp_aspath.c).
 */
module TextReads {
  import opened Decimal
  import opened AsPath
  import C = Community
  import T = AsPathText

  /** The characters that isspace knows. */
  predicate Blank(c: char) {
    c in {' ', '\t', '\n', '\r', 11 as char, 12 as char}
  }

  predicate Numeric(s: string) {
    forall c | c in s :: '0' <= c <= '9'
  }

  /** The number ends here. */
  predicate Stops(rest: string) {
    rest == [] || !('0' <= rest[0] <= '9' || rest[0] == ':')
  }

  // ----- Communities

  lemma ReadStops(rest: string, colon: bool, digit: bool, high: Word, low: Word)
    requires Stops(rest)
    ensures C.ReadValue(rest, colon, digit, high, low) ==
            if digit then C.Token((high + low) % 0x1_0000_0000, rest) else C.Unknown
  {
  }

  lemma ReadColon(rest: string, colon: bool, digit: bool, high: Word, low: Word)
    ensures C.ReadValue(":" + rest, colon, digit, high, low) ==
            if colon then C.Unknown else C.ReadValue(rest, true, false, low * 65536 % 0x1_0000_0000, 0)
  {
    assert (":" + rest)[1..] == rest;
  }

  /** A plain number. */
  lemma NumberRead(a: string, rest: string)
    requires a != [] && Numeric(a) && Stops(rest)
    ensures C.GetToken(a + rest) == C.Token(Value(a, 0), rest)
  {
    hide C.ReadValue;
    assert a[0] in a && (a + rest)[0] == a[0];
    C.DigitFirst(a + rest);
    C.ReadDigits(a, rest, false, false, 0, 0);
    ReadStops(rest, false, true, 0, Value(a, 0));
    hide Value;
  }

  /** Two numbers with a colon between them: the halves of a community, both needed. */
  lemma HalvesRead(a: string, b: string, rest: string)
    requires a != [] && Numeric(a) && Numeric(b) && Stops(rest)
    ensures C.GetToken(a + ":" + b + rest) ==
            if b == [] then C.Unknown
            else C.Token((Value(a, 0) * 65536 % 0x1_0000_0000 + Value(b, 0)) % 0x1_0000_0000, rest)
  {
    hide C.ReadValue;
    var tail := ":" + (b + rest);
    assert a + ":" + b + rest == a + tail;
    assert a[0] in a && (a + tail)[0] == a[0];
    C.DigitFirst(a + tail);
    C.ReadDigits(a, tail, false, false, 0, 0);
    var high := Value(a, 0) * 65536 % 0x1_0000_0000;
    ReadColon(b + rest, false, true, 0, Value(a, 0));
    if b == [] {
      assert b + rest == rest;
      ReadStops(rest, true, false, high, 0);
    } else {
      C.ReadDigits(b, rest, true, false, high, 0);
      ReadStops(rest, true, true, high, Value(b, 0));
    }
    hide Value;
  }

  /** A second colon makes it unknown. */
  lemma ColonsRead(a: string, b: string, rest: string)
    requires a != [] && Numeric(a) && Numeric(b)
    ensures C.GetToken(a + ":" + b + ":" + rest) == C.Unknown
  {
    hide C.ReadValue;
    var last := ":" + rest;
    var tail := ":" + (b + last);
    assert a + ":" + b + ":" + rest == a + tail;
    assert a[0] in a && (a + tail)[0] == a[0];
    C.DigitFirst(a + tail);
    C.ReadDigits(a, tail, false, false, 0, 0);
    var high := Value(a, 0) * 65536 % 0x1_0000_0000;
    ReadColon(b + last, false, true, 0, Value(a, 0));
    if b == [] {
      assert b + last == last;
      ReadColon(rest, true, false, high, 0);
    } else {
      C.ReadDigits(b, last, true, false, high, 0);
      ReadColon(rest, true, true, high, Value(b, 0));
    }
    hide Value;
  }

  lemma Letters(s: string)
    requires s != []
    ensures "internet" <= s ==> C.IsAlpha(s[0])
    ensures "no-export" <= s || "no-advertise" <= s ==> C.IsAlpha(s[0])
    ensures "local-AS" <= s ==> C.IsAlpha(s[0])
  {
    assert "internet" <= s ==> s[0] == 'i';
    assert "no-export" <= s ==> s[0] == 'n';
    assert "no-advertise" <= s ==> s[0] == 'n';
    assert "local-AS" <= s ==> s[0] == 'l';
  }

  /** Anything else: blanks are passed over, the names of well-known communities read, and the rest is unknown. */
  lemma OthersRead(s: string)
    requires s != [] && !('0' <= s[0] <= '9')
    ensures var t := C.GetToken(s);
            if Blank(s[0]) then t == C.GetToken(s[1..])
            else if s[0] == '\0' then t == C.End
            else if "internet" <= s then t == C.Token(0, s[8..])
            else if "no-export" <= s then t == C.Token(0xFFFF_FF01, s[9..])
            else if "no-advertise" <= s then t == C.Token(0xFFFF_FF02, s[12..])
            else if "local-AS" <= s then t == C.Token(0xFFFF_FF03, s[8..])
            else t == C.Unknown
  {
    Letters(s);
    if !C.IsAlpha(s[0]) {
      hide C.ReadWord;
    } else {
      hide C.ReadValue;
    }
  }

  // ----- AS paths

  /** What the first character of a text stands for. */
  lemma CharacterRead(s: string)
    requires s != [] && !('0' <= s[0] <= '9')
    ensures var c, t := s[0], T.Lex(s);
            if Blank(c) || c == ',' then t == T.Lex(s[1..])
            else if c == '\0' then t == []
            else if c == '{' then t == [T.Opening(AsSet)] + T.Lex(s[1..])
            else if c == '(' then t == [T.Opening(ConfedSequence)] + T.Lex(s[1..])
            else if c == '[' then t == [T.Opening(ConfedSet)] + T.Lex(s[1..])
            else if c in {'}', ')', ']'} then t == [T.Closing] + T.Lex(s[1..])
            else t == [T.Unknown]
  {
  }

  /** A number is read in 32-bit arithmetic, up to the first character that is no digit. */
  lemma AsnRead(a: string, rest: string)
    requires a != [] && Numeric(a) && (rest == [] || !('0' <= rest[0] <= '9'))
    ensures T.Lex(a + rest) == [T.Val(Value(a, 0))] + T.Lex(rest)
  {
    hide T.Lex;
    hide Number;
    assert a[0] in a && (a + rest)[0] == a[0];
    NumberValue(a, 0, rest);
    T.LexDigit(a + rest);
    hide Value;
  }

  /** Reading decimal digits one by one, modulo 2 to the 32. */
  lemma ValueIs(s: string, c: char)
    requires Numeric(s) && '0' <= c <= '9'
    ensures Numeric(s + [c]) && Value("", 0) == 0
    ensures Value(s + [c], 0) == (Value(s, 0) * 10 + (c as int - '0' as int)) % 0x1_0000_0000
  {
    ValueAppend(s, c, 0);
  }
}
