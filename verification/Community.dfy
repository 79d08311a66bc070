/**
 Community lists (bgpd/bgp_community.c and bgpd/bgp_ecommunity.c): their canonical form,
 inclusion, and their text.
 */
module Community {
  import opened Lists
  import opened Options
  import opened Sorting
  import opened Decimal

  // ----- The canonical form

  lemma {:induction false} AscendingStrict(s: seq<nat>)
    requires Ascending(s) && NoDup(s)
    ensures Strict(s)
  {
    if |s| > 1 {
      assert s[1] in s[1..];
      AscendingStrict(s[1..]);
    }
  }

  lemma {:induction false} NoDupCounts(s: seq<nat>)
    ensures NoDup(s) <==> forall x :: multiset(s)[x] <= 1
  {
    if s != [] {
      assert s == [s[0]] + s[1..];
      NoDupCounts(s[1..]);
      assert s[0] in s[1..] <==> multiset(s[1..])[s[0]] >= 1;
      if forall x :: multiset(s)[x] <= 1 {
        assert forall x :: multiset(s[1..])[x] <= multiset(s)[x];
        assert multiset(s)[s[0]] == 1 + multiset(s[1..])[s[0]];
      }
    }
  }

  /** Sorting a list without repetitions gives the canonical list of its elements. */
  lemma SortedCanonical(s: seq<nat>, all: seq<nat>)
    requires NoDup(s) && Elems(s) == Elems(all)
    ensures Sort(s) == SortUniq(all)
  {
    SortAscending(s);
    NoDupCounts(s);
    NoDupCounts(Sort(s));
    AscendingStrict(Sort(s));
    SortElems(s);
    SortUniqStrict(all);
    StrictUnique(Sort(s), SortUniq(all));
  }

  lemma ElemsAppend(s: seq<nat>, x: nat)
    ensures Elems(s + [x]) == Elems(s) + {x}
  {
  }

  /** community_uniq_sort: keep what is not there yet, then sort. */
  method UniqSort(com: seq<nat>) returns (r: seq<nat>)
    ensures r == SortUniq(com)
    ensures Strict(r) && Elems(r) == Elems(com)
  {
    var uniq: seq<nat> := [];
    for i := 0 to |com|
      invariant NoDup(uniq) && Elems(uniq) == Elems(com[..i])
    {
      var included := false;
      for k := 0 to |uniq|
        invariant included <==> com[i] in uniq[..k]
      {
        assert uniq[..k + 1] == uniq[..k] + [uniq[k]];
        if uniq[k] == com[i] {
          included := true;
        }
      }
      assert uniq[..|uniq|] == uniq;
      ElemsAppend(com[..i], com[i]);
      assert com[..i + 1] == com[..i] + [com[i]];
      if included {
        assert com[i] in Elems(uniq);
      } else {
        NoDupAppend(uniq, com[i]);
        ElemsAppend(uniq, com[i]);
        uniq := uniq + [com[i]];
      }
    }
    assert com[..|com|] == com;
    SortedCanonical(uniq, com);
    SortUniqStrict(com);
    r := Sort(uniq);
  }

  lemma ElemsPrepend(x: nat, s: seq<nat>)
    ensures Elems([x] + s) == {x} + Elems(s)
  {
  }

  /** Insertion into a canonical list. */
  function InsertUniq(x: nat, s: seq<nat>): seq<nat> {
    if s == [] || x < s[0] then [x] + s
    else if s[0] == x then s
    else [s[0]] + InsertUniq(x, s[1..])
  }

  lemma {:induction false} InsertUniqStrict(x: nat, s: seq<nat>)
    requires Strict(s)
    ensures Strict(InsertUniq(x, s)) && Elems(InsertUniq(x, s)) == Elems(s) + {x}
    ensures s != [] ==> InsertUniq(x, s)[0] == if x < s[0] then x else s[0]
  {
    hide Elems;
    if s == [] || x < s[0] {
      assert ([x] + s)[1..] == s;
      ElemsPrepend(x, s);
    } else {
      assert s == [s[0]] + s[1..];
      ElemsPrepend(s[0], s[1..]);
      if s[0] != x {
        InsertUniqStrict(x, s[1..]);
        var r := InsertUniq(x, s[1..]);
        assert ([s[0]] + r)[1..] == r;
        ElemsPrepend(s[0], r);
      }
    }
  }

  lemma {:induction false} InsertUniqAt(x: nat, s: seq<nat>, c: nat)
    requires c <= |s| && (forall i | 0 <= i < c :: s[i] < x)
    ensures c < |s| && s[c] == x ==> InsertUniq(x, s) == s
    ensures c == |s| || s[c] > x ==> InsertUniq(x, s) == s[..c] + [x] + s[c..]
  {
    if c == 0 {
      assert s[..0] + [x] + s[0..] == [x] + s;
    } else {
      InsertUniqAt(x, s[1..], c - 1);
      assert s == [s[0]] + s[1..];
      assert s[1..][..c - 1] == s[1..c] && s[1..][c - 1..] == s[c..];
      assert s[..c] + [x] + s[c..] == [s[0]] + (s[1..c] + [x] + s[c..]);
    }
  }

  /** ecommunity_add_val: find the place, shift what is behind it, and write; the buffer has room for one more. */
  method AddVal(val: array<nat>, size: nat, x: nat) returns (size': nat)
    requires size < val.Length && Strict(val[..size])
    modifies val
    ensures size <= size' <= size + 1 && val[..size'] == InsertUniq(x, old(val[..size]))
  {
    hide InsertUniq;
    hide Strict;
    ghost var s := val[..size];
    var c := 0;
    while c < size && val[c] < x
      invariant 0 <= c <= size && forall i | 0 <= i < c :: val[i] < x
    {
      c := c + 1;
    }
    InsertUniqAt(x, s, c);
    if c < size && val[c] == x {
      return size;
    }
    forall i | c <= i < size {
      val[i + 1] := val[i];
    }
    val[c] := x;
    size' := size + 1;
    assert val[..size'] == s[..c] + [x] + s[c..];
  }

  /** ecommunity_uniq_sort */
  method ExtUniqSort(ecom: seq<nat>) returns (r: seq<nat>)
    ensures r == SortUniq(ecom)
    ensures Strict(r) && Elems(r) == Elems(ecom)
  {
    var val, size := new nat[|ecom| + 1], 0;
    assert val[..0] == [];
    for i := 0 to |ecom|
      invariant size <= i && Strict(val[..size]) && Elems(val[..size]) == Elems(ecom[..i])
    {
      InsertUniqStrict(ecom[i], val[..size]);
      ElemsAppend(ecom[..i], ecom[i]);
      assert ecom[..i + 1] == ecom[..i] + [ecom[i]];
      size := AddVal(val, size, ecom[i]);
    }
    assert ecom[..|ecom|] == ecom;
    r := val[..size];
    SortUniqStrict(ecom);
    StrictUnique(r, SortUniq(ecom));
  }

  // ----- Inclusion

  /** `b` is what is left of `a` after striking out some of it. */
  predicate Subsequence(b: seq<nat>, a: seq<nat>) {
    b == [] || (a != [] && ((a[0] == b[0] && Subsequence(b[1..], a[1..])) || Subsequence(b, a[1..])))
  }

  lemma {:induction false} SubsequenceRest(b: seq<nat>, a: seq<nat>)
    requires b != [] && Subsequence(b, a)
    ensures Subsequence(b[1..], a) && Subsequence(b[1..], a[1..])
    decreases a
  {
    if !(a[0] == b[0] && Subsequence(b[1..], a[1..])) {
      SubsequenceRest(b, a[1..]);
    }
  }

  /** It does no harm to take the first chance. */
  lemma SubsequenceGreedy(b: seq<nat>, a: seq<nat>)
    requires b != [] && a != []
    ensures Subsequence(b, a) <==> Subsequence(if a[0] == b[0] then b[1..] else b, a[1..])
  {
    if Subsequence(b, a[1..]) {
      SubsequenceRest(b, a[1..]);
    }
  }

  lemma {:induction false} SubsequenceShorter(b: seq<nat>, a: seq<nat>)
    requires Subsequence(b, a)
    ensures |b| <= |a| && forall x | x in b :: x in a
    decreases a
  {
    if b != [] {
      if a[0] == b[0] && Subsequence(b[1..], a[1..]) {
        SubsequenceShorter(b[1..], a[1..]);
        assert b == [b[0]] + b[1..];
      } else {
        SubsequenceShorter(b, a[1..]);
      }
    }
  }

  /** Of canonical lists, the subsequences are the sublists. */
  lemma {:induction false} StrictSubsequence(b: seq<nat>, a: seq<nat>)
    requires Strict(a) && Strict(b)
    ensures Subsequence(b, a) <==> forall x | x in b :: x in a
    decreases a
  {
    if Subsequence(b, a) {
      SubsequenceShorter(b, a);
    } else if forall x | x in b :: x in a {
      assert b[0] in b && b[0] in a;
      StrictHead(a);
      StrictHead(b);
      SubsequenceGreedy(b, a);
      var left := if a[0] == b[0] then b[1..] else b;
      StrictSubsequence(left, a[1..]);
      assert a == [a[0]] + a[1..] && b == [b[0]] + b[1..];
      forall x | x in left
        ensures x in a[1..]
      {
        assert x in b && x in a;
        assert x != a[0];
      }
    }
  }

  /** On other lists inclusion is not enough. */
  lemma OrderMatters()
    ensures !Subsequence([2, 1], [1, 2]) && forall x | x in [2, 1] :: x in [1, 2]
  {
    assert [1, 2][1..] == [2] && [2, 1][1..] == [1] && [2][1..] == [];
  }

  /** community_match: one pass over both decides whether the second is left of the first after striking out. */
  method Match(com1: Option<seq<nat>>, com2: Option<seq<nat>>) returns (all: bool)
    ensures all <==> (com1.None? && com2.None?) || (com1.Some? && com2.Some? && Subsequence(com2.value, com1.value))
  {
    if com1.None? && com2.None? {
      return true;
    }
    if com1.None? || com2.None? {
      return false;
    }
    var a, b := com1.value, com2.value;
    if |a| < |b| {
      if Subsequence(b, a) {
        SubsequenceShorter(b, a);
      }
      return false;
    }
    var i, j := 0, 0;
    assert a[0..] == a && b[0..] == b;
    while i < |a| && j < |b|
      invariant 0 <= i <= |a| && 0 <= j <= |b|
      invariant Subsequence(b, a) <==> Subsequence(b[j..], a[i..])
    {
      SubsequenceGreedy(b[j..], a[i..]);
      assert a[i..][1..] == a[i + 1..] && b[j..][1..] == b[j + 1..];
      if a[i] == b[j] {
        j := j + 1;
      }
      i := i + 1;
    }
    all := j == |b|;
  }

  // ----- Text

  const INTERNET: Word := 0
  const NO_EXPORT: Word := 0xFFFF_FF01
  const NO_ADVERTISE: Word := 0xFFFF_FF02
  const LOCAL_AS: Word := 0xFFFF_FF03

  function PrintOne(c: Word): string {
    if c == INTERNET then "internet"
    else if c == NO_EXPORT then "no-export"
    else if c == NO_ADVERTISE then "no-advertise"
    else if c == LOCAL_AS then "local-AS"
    else Digits(c / 65536) + ":" + Digits(c % 65536)
  }

  /** community_com2str */
  function Print(com: seq<Word>): string {
    if com == [] then "" else PrintOne(com[0]) + (if |com| > 1 then " " else "") + Print(com[1..])
  }

  /** What community_gettoken finds: a value and the rest of the text, the end, or something it does not know. */
  datatype Found = Token(val: Word, rest: string) | End | Unknown

  predicate IsAlpha(c: char) {
    'a' <= c <= 'z' || 'A' <= c <= 'Z'
  }

  /** A number with at most one colon in it, in 32-bit arithmetic. */
  function ReadValue(s: string, colon: bool, digit: bool, high: Word, low: Word): Found
    decreases |s|
  {
    if s != [] && s[0] == ':' then
      if colon then Unknown else ReadValue(s[1..], true, false, low * 65536 % 0x1_0000_0000, 0)
    else if s != [] && IsDigit(s[0]) then
      ReadValue(s[1..], colon, true, high, (low * 10 + DigitValue(s[0])) % 0x1_0000_0000)
    else if !digit then Unknown
    else Token((high + low) % 0x1_0000_0000, s)
  }

  function ReadWord(s: string): Found {
    if "internet" <= s then Token(INTERNET, s[|"internet"|..])
    else if "no-export" <= s then Token(NO_EXPORT, s[|"no-export"|..])
    else if "no-advertise" <= s then Token(NO_ADVERTISE, s[|"no-advertise"|..])
    else if "local-AS" <= s then Token(LOCAL_AS, s[|"local-AS"|..])
    else Unknown
  }

  /** community_gettoken */
  function GetToken(s: string): Found {
    if s == [] || s[0] == '\0' then End
    else if IsSpace(s[0]) then GetToken(s[1..])
    else if IsAlpha(s[0]) then ReadWord(s)
    else if IsDigit(s[0]) then ReadValue(s, false, false, 0, 0)
    else Unknown
  }

  lemma ReadValueShrinks(s: string, colon: bool, digit: bool, high: Word, low: Word)
    ensures var r := ReadValue(s, colon, digit, high, low);
            r.Token? ==> |r.rest| <= |s| && (!digit ==> |r.rest| < |s|)
    decreases |s|
  {
    if s != [] && s[0] == ':' {
      if !colon {
        ReadValueShrinks(s[1..], true, false, low * 65536 % 0x1_0000_0000, 0);
      }
    } else if s != [] && IsDigit(s[0]) {
      ReadValueShrinks(s[1..], colon, true, high, (low * 10 + DigitValue(s[0])) % 0x1_0000_0000);
    }
  }

  lemma {:induction false} TokenShrinks(s: string)
    ensures GetToken(s).Token? ==> |GetToken(s).rest| < |s|
  {
    if s != [] {
      if IsSpace(s[0]) {
        TokenShrinks(s[1..]);
      }
      ReadValueShrinks(s, false, false, 0, 0);
    }
  }

  /** The loop of community_str2com: the end of the text leaves the last value in place, which is added again. */
  function ParseLoop(s: string, com: seq<Word>): Option<seq<nat>>
    decreases |s|
  {
    TokenShrinks(s);
    match GetToken(s)
    case Token(val, rest) => ParseLoop(rest, com + [val])
    case End => if com == [] then None else Some(SortUniq(com + [com[|com| - 1]]))
    case Unknown => None
  }

  /** community_str2com */
  function Parse(s: string): Option<seq<nat>> {
    ParseLoop(s, [])
  }

  // ----- The text is read back

  lemma {:induction false} ReadDigits(s: string, rest: string, colon: bool, digit: bool, high: Word, low: Word)
    requires s != [] && forall c | c in s :: IsDigit(c)
    ensures ReadValue(s + rest, colon, digit, high, low) == ReadValue(rest, colon, true, high, Value(s, low))
    decreases s
  {
    assert (s + rest)[1..] == s[1..] + rest;
    var low' := (low * 10 + DigitValue(s[0])) % 0x1_0000_0000;
    if |s| == 1 {
      assert s[1..] + rest == rest;
      assert Value(s, low) == Value(s[1..], low') == low';
    } else {
      ReadDigits(s[1..], rest, colon, true, high, low');
    }
  }

  predicate Delimited(rest: string) {
    rest == [] || rest[0] == ' '
  }

  lemma ReadColon(rest: string, low: Word)
    ensures ReadValue(":" + rest, false, true, 0, low) == ReadValue(rest, true, false, low * 65536 % 0x1_0000_0000, 0)
  {
    assert (":" + rest)[1..] == rest;
  }

  lemma ReadEnd(rest: string, high: Word, low: Word)
    requires Delimited(rest)
    ensures ReadValue(rest, true, true, high, low) == Token((high + low) % 0x1_0000_0000, rest)
  {
  }

  lemma DigitFirst(s: string)
    requires s != [] && IsDigit(s[0])
    ensures GetToken(s) == ReadValue(s, false, false, 0, 0)
  {
  }

  lemma PairBack(c: Word, rest: string)
    requires Delimited(rest)
    ensures GetToken(Digits(c / 65536) + ":" + Digits(c % 65536) + rest) == Token(c, rest)
  {
    hide Digits;
    hide Value;
    hide ReadValue;
    var as', val := c / 65536, c % 65536;
    var tail := ":" + (Digits(val) + rest);
    DigitsValue(as');
    DigitsValue(val);
    assert Digits(as') + ":" + Digits(val) + rest == Digits(as') + tail;
    ReadDigits(Digits(as'), tail, false, false, 0, 0);
    ReadColon(Digits(val) + rest, as');
    ReadDigits(Digits(val), rest, true, false, as' * 65536 % 0x1_0000_0000, 0);
    ReadEnd(rest, as' * 65536 % 0x1_0000_0000, val);
    DigitFirst(Digits(as') + tail);
  }

  lemma WordBack(c: Word, rest: string)
    requires c in {INTERNET, NO_EXPORT, NO_ADVERTISE, LOCAL_AS}
    ensures GetToken(PrintOne(c) + rest) == Token(c, rest)
  {
    var w := PrintOne(c);
    var s := w + rest;
    assert w <= s && s[|w|..] == rest;
    assert s[0] == w[0] && s[3] == w[3];
  }

  lemma OneBack(c: Word, rest: string)
    requires Delimited(rest)
    ensures GetToken(PrintOne(c) + rest) == Token(c, rest)
  {
    if c in {INTERNET, NO_EXPORT, NO_ADVERTISE, LOCAL_AS} {
      var s := PrintOne(c) + rest;
      assert PrintOne(c) <= s && s[|PrintOne(c)|..] == rest;
      WordBack(c, rest);
    } else {
      PairBack(c, rest);
    }
  }

  lemma SpaceSkipped(s: string)
    ensures GetToken(" " + s) == GetToken(s)
  {
    assert (" " + s)[1..] == s;
  }

  lemma {:induction false} PrintBack(com: seq<Word>, before: seq<Word>, lead: string)
    requires before + com != [] && (lead == "" || lead == " ")
    ensures ParseLoop(lead + Print(com), before) ==
            var all := before + com;
            Some(SortUniq(all + [all[|all| - 1]]))
    decreases com
  {
    hide SortUniq;
    hide PrintOne;
    if lead == " " {
      SpaceSkipped(Print(com));
    } else {
      assert lead + Print(com) == Print(com);
    }
    if com == [] {
      assert before + com == before;
    } else {
      var gap := if |com| > 1 then " " else "";
      var rest := gap + Print(com[1..]);
      Assoc(PrintOne(com[0]), gap, Print(com[1..]));
      OneBack(com[0], rest);
      PrintBack(com[1..], before + [com[0]], gap);
      Assoc(before, [com[0]], com[1..]);
      assert [com[0]] + com[1..] == com;
    }
  }

  /** The text of a non-empty list is read as the canonical list of the same values... */
  lemma TextCanonical(com: seq<Word>)
    requires com != []
    ensures Parse(Print(com)) == Some(SortUniq(com))
  {
    assert [] + com == com && "" + Print(com) == Print(com);
    PrintBack(com, [], "");
    var again := com + [com[|com| - 1]];
    ElemsAppend(com, com[|com| - 1]);
    assert com[|com| - 1] in Elems(com);
    SortUniqDecides(again, com);
  }

  /** ...so that it comes back exactly if it was canonical and not empty. */
  lemma TextRoundTrip(com: seq<Word>)
    ensures Parse(Print(com)) == Some(com) <==> com != [] && Strict(com)
  {
    if com == [] {
      assert GetToken("") == End;
    } else {
      TextCanonical(com);
      SortUniqStrict(com);
      if Strict(com) {
        SortUniqFixed(com);
      }
    }
  }

  // ----- The loops

  /** What community_com2str sets aside for a value: a space and the longest text there is. */
  function Room(c: Word): nat {
    if c == INTERNET then |" internet"|
    else if c == NO_EXPORT then |" no-export"|
    else if c == NO_ADVERTISE then |" no-advertise"|
    else if c == LOCAL_AS then |" local-AS"|
    else |" 65536:65535"|
  }

  function Buffer(com: seq<Word>): nat {
    if com == [] then 0 else Room(com[0]) + Buffer(com[1..])
  }

  lemma Fits(c: Word)
    ensures |PrintOne(c)| + 1 <= Room(c)
  {
    hide Digits;
    assert Power10(5) == 100000;
    DigitsLength(c / 65536, 5);
    DigitsLength(c % 65536, 5);
  }

  function Lead(com: seq<Word>, i: nat): string {
    if 0 < i < |com| then " " else ""
  }

  lemma PrintTurn(com: seq<Word>, i: nat)
    requires i < |com|
    ensures Print(com[i..]) == PrintOne(com[i]) + Lead(com, i + 1) + Print(com[i + 1..])
    ensures Buffer(com[i..]) == Room(com[i]) + Buffer(com[i + 1..])
  {
    hide PrintOne;
    hide Room;
    assert com[i..][1..] == com[i + 1..];
  }

  /** community_com2str: the buffer is measured first, and always suffices. */
  method ToText(com: seq<Word>) returns (str: string)
    ensures str == Print(com)
  {
    hide PrintOne;
    hide Room;
    if com == [] {
      return "";
    }
    var len := 0;
    assert com[0..] == com;
    for i := 0 to |com|
      invariant len + Buffer(com[i..]) == Buffer(com)
    {
      PrintTurn(com, i);
      len := len + Room(com[i]);
    }
    str := "";
    ghost var used := 0;
    for i := 0 to |com|
      invariant str + Lead(com, i) + Print(com[i..]) == Print(com)
      invariant used + Buffer(com[i..]) == len
      invariant if i == 0 then str == "" else |str| + 1 <= used
    {
      Fits(com[i]);
      PrintTurn(com, i);
      ghost var before, rest := str + Lead(com, i), Print(com[i + 1..]);
      Assoc(before, PrintOne(com[i]) + Lead(com, i + 1), rest);
      Assoc(before, PrintOne(com[i]), Lead(com, i + 1));
      if i > 0 {
        str := Snprintf(str, len, " ");
      }
      str := Snprintf(str, len, PrintOne(com[i]));
      used := used + Room(com[i]);
    }
    assert str + Lead(com, |com|) + Print(com[|com|..]) == str;
  }

  /** The loop of community_gettoken over digits and a colon. */
  method ReadNumber(s: string) returns (r: Found)
    ensures r == ReadValue(s, false, false, 0, 0)
  {
    var p, colon, digit, high: Word, low: Word := 0, false, false, 0, 0;
    assert s[0..] == s;
    while p < |s| && (IsDigit(s[p]) || s[p] == ':')
      invariant 0 <= p <= |s|
      invariant ReadValue(s, false, false, 0, 0) == ReadValue(s[p..], colon, digit, high, low)
    {
      assert s[p..][1..] == s[p + 1..];
      if s[p] == ':' {
        if colon {
          return Unknown;
        }
        colon, digit, high, low := true, false, low * 65536 % 0x1_0000_0000, 0;
      } else {
        digit, low := true, (low * 10 + DigitValue(s[p])) % 0x1_0000_0000;
      }
      p := p + 1;
    }
    if !digit {
      return Unknown;
    }
    r := Token((high + low) % 0x1_0000_0000, s[p..]);
  }

  /** community_gettoken */
  method NextToken(s: string) returns (r: Found)
    ensures r == GetToken(s)
  {
    var p := 0;
    assert s[0..] == s;
    while p < |s| && IsSpace(s[p])
      invariant 0 <= p <= |s| && GetToken(s[p..]) == GetToken(s)
    {
      assert s[p..][1..] == s[p + 1..];
      p := p + 1;
    }
    if p == |s| || s[p] == '\0' {
      return End;
    }
    if IsAlpha(s[p]) {
      return ReadWord(s[p..]);
    }
    if IsDigit(s[p]) {
      r := ReadNumber(s[p..]);
      return;
    }
    r := Unknown;
  }

  /** community_str2com */
  method FromText(s: string) returns (r: Option<seq<nat>>)
    ensures r == Parse(s)
  {
    hide GetToken;
    hide SortUniq;
    var str, com: seq<Word> := s, [];
    var found := NextToken(str);
    while found.Token?
      invariant found == GetToken(str)
      invariant ParseLoop(str, com) == Parse(s)
      decreases |str|
    {
      TokenShrinks(str);
      com := com + [found.val];
      str := found.rest;
      found := NextToken(str);
    }
    if found.Unknown? || com == [] {
      return None;
    }
    var sorted := UniqSort(com + [com[|com| - 1]]);
    r := Some(sorted);
  }
}
