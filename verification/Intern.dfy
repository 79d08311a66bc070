/**
 Interning of attributes and their parts (bgp_attr_intern, bgp_attr_unintern, attrhash_cmp and
 attrhash_key_make in bgpd/bgp_attr.c; aspath_intern and aspath_unintern in bgpd/bgp_aspath.c;
 the same functions for communities, cluster lists and transit attributes).

 Equal attributes share one object, which is referenced by count; an attribute holds references
 to its AS path, communities and so on, which are shared and counted in the same way.
 */
module Intern {
  import opened Lists
  import opened Options
  import AsPath
  import opened Encap

  type Id = nat   // the address of an object

  /** What a part holds; parts of different kinds live in different hash tables. */
  datatype Value =
    | PathValue(path: AsPath.Path)
    | CommunityValue(communities: seq<nat>)
    | EcommunityValue(ecommunities: seq<nat>)
    | ClusterValue(clusters: seq<nat>)
    | TransitValue(octets: seq<nat>)

  datatype Part = Part(value: Value, refcnt: nat)

  /** struct attr_extra */
  datatype Extra = Extra(
    aggregator: nat, aggregatorAddr: nat, weight: nat, originator: nat,
    nexthopLength: nat, global: nat, local: nat, globalIn: nat,
    ecommunity: Option<Id>, cluster: Option<Id>, transit: Option<Id>, tunnel: nat, subs: seq<SubTlv>)

  /** struct attr */
  datatype Attr = Attr(
    flag: nat, origin: nat, nexthop: nat, med: nat, localPref: nat,
    aspath: Option<Id>, community: Option<Id>, extra: Option<Extra>)

  datatype Entry = Entry(attr: Attr, refcnt: nat)

  // ----- Comparing attributes

  /** encap_same: every sub-TLV of each chain is somewhere in the other. */
  predicate EncapSame(a: seq<SubTlv>, b: seq<SubTlv>) {
    if a == [] || b == [] then a == b
    else (forall t | t in a :: t in b) && (forall t | t in b :: t in a)
  }

  /** attrhash_cmp; parts are compared by address. */
  predicate Same(a: Attr, b: Attr) {
    && a.flag == b.flag && a.origin == b.origin && a.nexthop == b.nexthop
    && a.aspath == b.aspath && a.community == b.community && a.med == b.med && a.localPref == b.localPref
    && if a.extra.Some? && b.extra.Some? then
         var x, y := a.extra.value, b.extra.value;
         x == y.(subs := x.subs) && EncapSame(x.subs, y.subs)
       else a.extra.None? && b.extra.None?
  }

  /** encap_same compares chains as sets; attrhash_cmp is an equivalence. */
  lemma SameEquivalence(a: Attr, b: Attr, c: Attr)
    ensures Same(a, a)
    ensures Same(a, b) ==> Same(b, a)
    ensures Same(a, b) && Same(b, c) ==> Same(a, c)
  {
  }

  function Word(o: Option<Id>, parts: map<Id, Part>): seq<Value> {
    if o.Some? && o.value in parts then [parts[o.value].value] else []
  }

  /** What is mixed into a hash key, in order: numbers, and the contents of parts. */
  datatype Key = Key(numbers: seq<nat>, values: seq<Value>)

  /** attrhash_key_make: neither the flags nor the encapsulation go in. */
  function KeyOf(a: Attr, parts: map<Id, Part>): Key {
    var values := Word(a.aspath, parts) + Word(a.community, parts);
    if a.extra.None? then Key([a.origin, a.nexthop, a.med, a.localPref], values)
    else
      var x := a.extra.value;
      Key([a.origin, a.nexthop, a.med, a.localPref, x.aggregator, x.aggregatorAddr, x.weight, x.globalIn,
           x.originator, x.nexthopLength, x.global, x.local],
          values + Word(x.ecommunity, parts) + Word(x.cluster, parts) + Word(x.transit, parts))
  }

  /** Attributes that compare equal are looked up under the same key. */
  lemma SameKey(a: Attr, b: Attr, parts: map<Id, Part>)
    requires Same(a, b)
    ensures KeyOf(a, parts) == KeyOf(b, parts)
  {
  }

  predicate BothOrNone(o: Option<Id>, u: Option<Id>, parts: map<Id, Part>) {
    (o.None? && u.None?) || (o.Some? && u.Some? && o.value in parts && u.value in parts)
  }

  predicate SameValue(o: Option<Id>, u: Option<Id>, parts: map<Id, Part>)
    requires BothOrNone(o, u, parts)
  {
    o.Some? ==> parts[o.value].value == parts[u.value].value
  }

  lemma SameWord(o: Option<Id>, u: Option<Id>, parts: map<Id, Part>, v: seq<Value>, w: seq<Value>)
    requires BothOrNone(o, u, parts) && |v| == |w|
    ensures |v + Word(o, parts)| == |w + Word(u, parts)|
    ensures v + Word(o, parts) == w + Word(u, parts) <==> v == w && SameValue(o, u, parts)
  {
    var l, r := v + Word(o, parts), w + Word(u, parts);
    assert l[..|v|] == v && r[..|w|] == w;
    assert l[|v|..] == Word(o, parts) && r[|w|..] == Word(u, parts);
  }

  /**
   The key of attributes with the same sorts of parts tells exactly their numbers and the contents of their parts;
   it takes no notice of flags and encapsulation.
   */
  lemma KeyTells(a: Attr, b: Attr, parts: map<Id, Part>)
    requires BothOrNone(a.aspath, b.aspath, parts) && BothOrNone(a.community, b.community, parts)
    requires a.extra.Some? && b.extra.Some?
    requires var x, y := a.extra.value, b.extra.value;
             BothOrNone(x.ecommunity, y.ecommunity, parts) && BothOrNone(x.cluster, y.cluster, parts)
             && BothOrNone(x.transit, y.transit, parts)
    ensures var x, y := a.extra.value, b.extra.value;
            KeyOf(a, parts) == KeyOf(b, parts) <==>
            && a.origin == b.origin && a.nexthop == b.nexthop && a.med == b.med && a.localPref == b.localPref
            && x.aggregator == y.aggregator && x.aggregatorAddr == y.aggregatorAddr && x.weight == y.weight
            && x.originator == y.originator && x.nexthopLength == y.nexthopLength && x.global == y.global
            && x.local == y.local && x.globalIn == y.globalIn
            && SameValue(a.aspath, b.aspath, parts) && SameValue(a.community, b.community, parts)
            && SameValue(x.ecommunity, y.ecommunity, parts) && SameValue(x.cluster, y.cluster, parts)
            && SameValue(x.transit, y.transit, parts)
  {
    var x, y := a.extra.value, b.extra.value;
    var v1, w1 := Word(a.aspath, parts), Word(b.aspath, parts);
    assert [] + v1 == v1 && [] + w1 == w1;
    SameWord(a.aspath, b.aspath, parts, [], []);
    SameWord(a.community, b.community, parts, v1, w1);
    var v2, w2 := v1 + Word(a.community, parts), w1 + Word(b.community, parts);
    SameWord(x.ecommunity, y.ecommunity, parts, v2, w2);
    var v3, w3 := v2 + Word(x.ecommunity, parts), w2 + Word(y.ecommunity, parts);
    SameWord(x.cluster, y.cluster, parts, v3, w3);
    SameWord(x.transit, y.transit, parts, v3 + Word(x.cluster, parts), w3 + Word(y.cluster, parts));
    hide Word;
    hide SameValue;
    var k, l := KeyOf(a, parts), KeyOf(b, parts);
    if k == l {
      assert k.numbers[0] == l.numbers[0] && k.numbers[1] == l.numbers[1] && k.numbers[2] == l.numbers[2];
      assert k.numbers[3] == l.numbers[3] && k.numbers[4] == l.numbers[4] && k.numbers[5] == l.numbers[5];
      assert k.numbers[6] == l.numbers[6] && k.numbers[7] == l.numbers[7] && k.numbers[8] == l.numbers[8];
      assert k.numbers[9] == l.numbers[9] && k.numbers[10] == l.numbers[10] && k.numbers[11] == l.numbers[11];
    }
  }

  lemma PlainKeyTells(a: Attr, b: Attr, parts: map<Id, Part>)
    requires BothOrNone(a.aspath, b.aspath, parts) && BothOrNone(a.community, b.community, parts)
    requires a.extra.None? && b.extra.None?
    ensures KeyOf(a, parts) == KeyOf(b, parts) <==>
            && a.origin == b.origin && a.nexthop == b.nexthop && a.med == b.med && a.localPref == b.localPref
            && SameValue(a.aspath, b.aspath, parts) && SameValue(a.community, b.community, parts)
  {
    var v, w := Word(a.aspath, parts), Word(b.aspath, parts);
    assert [] + v == v && [] + w == w;
    SameWord(a.aspath, b.aspath, parts, [], []);
    SameWord(a.community, b.community, parts, v, w);
    hide Word;
    hide SameValue;
    var k, l := KeyOf(a, parts), KeyOf(b, parts);
    if k == l {
      assert k.numbers[0] == l.numbers[0] && k.numbers[1] == l.numbers[1];
      assert k.numbers[2] == l.numbers[2] && k.numbers[3] == l.numbers[3];
    }
  }

  // ----- The tables

  /** `table`: the interned parts by value; `hash`: the interned attributes; `outside`: references held elsewhere. */
  datatype Store = Store(
    parts: map<Id, Part>, table: map<Value, Id>, entries: map<Id, Entry>, hash: seq<Id>, outside: multiset<Id>)

  function Opt(o: Option<Id>): multiset<Id> {
    if o.Some? then multiset{o.value} else multiset{}
  }

  function ExtraParts(x: Extra): multiset<Id> {
    Opt(x.ecommunity) + Opt(x.cluster) + Opt(x.transit)
  }

  /** The parts that an attribute refers to. */
  function PartsOf(a: Attr): multiset<Id> {
    var own := Opt(a.aspath) + Opt(a.community);
    if a.extra.None? then own else own + ExtraParts(a.extra.value)
  }

  function Times(n: nat, k: nat): nat {
    n * k
  }

  ghost function EntryUses(entries: map<Id, Entry>, i: Id, id: Id): nat {
    if i in entries then Times(entries[i].refcnt, PartsOf(entries[i].attr)[id]) else 0
  }

  /** References to part `id` from the attributes in `hash`: each counts as often as it is itself referenced. */
  ghost function Uses(entries: map<Id, Entry>, hash: seq<Id>, id: Id): nat {
    if hash == [] then 0 else EntryUses(entries, hash[0], id) + Uses(entries, hash[1..], id)
  }

  /** The interned parts are those with a positive count, each value once. */
  ghost predicate TableRight(parts: map<Id, Part>, table: map<Value, Id>) {
    && (forall v | v in table :: table[v] in parts && parts[table[v]].value == v && parts[table[v]].refcnt > 0)
    && (forall id | id in parts && parts[id].refcnt > 0 :: parts[id].value in table && table[parts[id].value] == id)
  }

  /** The interned attributes are referenced, pairwise different, and refer to interned parts. */
  ghost predicate HashRight(s: Store) {
    && NoDup(s.hash)
    && (forall i :: i in s.hash <==> i in s.entries)
    && (forall i | i in s.entries ::
          s.entries[i].refcnt > 0 && forall id | id in PartsOf(s.entries[i].attr) :: id in s.parts)
    && (forall i, j | i in s.entries && j in s.entries && i != j :: !Same(s.entries[i].attr, s.entries[j].attr))
  }

  /** Every part is counted for the attributes that use it and for the references `held` otherwise. */
  ghost predicate Counted(s: Store, held: multiset<Id>) {
    && (forall id | id in s.parts :: s.parts[id].refcnt == Uses(s.entries, s.hash, id) + held[id])
    && (forall id | id in held :: id in s.parts)
  }

  ghost predicate Balanced(s: Store, held: multiset<Id>) {
    TableRight(s.parts, s.table) && HashRight(s) && Counted(s, held)
  }

  ghost predicate Inv(s: Store) {
    Balanced(s, s.outside)
  }

  // ----- The operations

  /** A new part that is not interned. */
  function Alloc(s: Store, id: Id, v: Value): Store
    requires id !in s.parts
  {
    s.(parts := s.parts[id := Part(v, 0)])
  }

  /** The object that a part is interned as: the one in the table, if there is one. */
  function Interned(s: Store, id: Id): Id
    requires id in s.parts
  {
    if s.parts[id].refcnt > 0 || s.parts[id].value !in s.table then id else s.table[s.parts[id].value]
  }

  /** A reference to a part: aspath_intern for one that is not interned yet, otherwise just one more. */
  function AddRef(s: Store, id: Id): Store
    requires id in s.parts && Interned(s, id) in s.parts
  {
    var find := Interned(s, id);
    var parts := s.parts[find := s.parts[find].(refcnt := s.parts[find].refcnt + 1)];
    s.(parts := if find == id then parts else parts - {id}, table := s.table[s.parts[id].value := find])
  }

  /** aspath_unintern: an object whose count drops to zero leaves the table and is freed. */
  function DropRef(s: Store, id: Id): Store
    requires id in s.parts && s.parts[id].refcnt > 0
  {
    var p := s.parts[id];
    if p.refcnt == 1 then s.(parts := s.parts - {id}, table := s.table - {p.value})
    else s.(parts := s.parts[id := p.(refcnt := p.refcnt - 1)])
  }

  // ----- What the operations on parts keep

  lemma TableUpdate(parts: map<Id, Part>, table: map<Value, Id>, id: Id, n: nat)
    requires TableRight(parts, table) && id in parts && n > 0
    requires parts[id].refcnt > 0 || parts[id].value !in table
    ensures TableRight(parts[id := parts[id].(refcnt := n)], table[parts[id].value := id])
  {
  }

  lemma TableDrop(parts: map<Id, Part>, table: map<Value, Id>, id: Id)
    requires TableRight(parts, table) && id in parts
    ensures parts[id].refcnt == 0 ==> TableRight(parts - {id}, table)
    ensures parts[id].refcnt > 0 ==> TableRight(parts - {id}, table - {parts[id].value})
  {
  }

  lemma NoProduct(n: nat, k: nat)
    requires n > 0 && Times(n, k) == 0
    ensures k == 0
  {
  }

  /** A part without references is not used. */
  lemma {:induction false} NotUsed(s: Store, hash: seq<Id>, id: Id, i: Id)
    requires (forall j | j in hash :: j in s.entries && s.entries[j].refcnt > 0)
    requires Uses(s.entries, hash, id) == 0 && i in hash
    ensures id !in PartsOf(s.entries[i].attr)
  {
    hide PartsOf;
    var first := hash[0];
    assert first in hash;
    if i == first {
      NoProduct(s.entries[i].refcnt, PartsOf(s.entries[i].attr)[id]);
    } else {
      NotUsed(s, hash[1..], id, i);
    }
  }

  lemma NothingTimes(n: nat)
    ensures Times(n, 0) == 0
  {
  }

  lemma {:induction false} Unheld(s: Store, hash: seq<Id>, id: Id)
    requires forall j | j in hash :: j in s.entries && id !in PartsOf(s.entries[j].attr)
    ensures Uses(s.entries, hash, id) == 0
  {
    hide PartsOf;
    if hash != [] {
      assert hash[0] in hash;
      assert PartsOf(s.entries[hash[0]].attr)[id] == 0;
      NothingTimes(s.entries[hash[0]].refcnt);
      Unheld(s, hash[1..], id);
    }
  }

  lemma HashParts(s: Store, t: Store)
    requires HashRight(s) && t == s.(parts := t.parts, table := t.table)
    requires forall id | id in s.parts && id !in t.parts :: Uses(s.entries, s.hash, id) == 0
    ensures HashRight(t)
  {
    hide PartsOf;
    forall i, id | i in t.entries && id in PartsOf(t.entries[i].attr)
      ensures id in t.parts
    {
      if id !in t.parts {
        NotUsed(s, s.hash, id, i);
      }
    }
  }

  lemma TableAlloc(parts: map<Id, Part>, table: map<Value, Id>, id: Id, v: Value)
    requires TableRight(parts, table) && id !in parts
    ensures TableRight(parts[id := Part(v, 0)], table)
  {
  }

  lemma UnusedPart(s: Store, id: Id)
    requires HashRight(s) && id !in s.parts
    ensures Uses(s.entries, s.hash, id) == 0
  {
    hide PartsOf;
    Unheld(s, s.hash, id);
  }

  lemma AllocKeeps(s: Store, held: multiset<Id>, id: Id, v: Value)
    requires Balanced(s, held) && id !in s.parts
    ensures Balanced(Alloc(s, id, v), held)
    ensures var t := Alloc(s, id, v);
            && t == s.(parts := t.parts) && t.parts.Keys == s.parts.Keys + {id} && t.parts[id] == Part(v, 0)
            && forall j | j in s.parts :: t.parts[j] == s.parts[j]
  {
    hide HashRight;
    hide Uses;
    TableAlloc(s.parts, s.table, id, v);
    UnusedPart(s, id);
    HashParts(s, Alloc(s, id, v));
  }

  lemma CountUp(s: Store, t: Store, held: multiset<Id>, find: Id)
    requires Counted(s, held) && t == s.(parts := t.parts, table := t.table)
    requires find in s.parts && find in t.parts && t.parts[find].refcnt == s.parts[find].refcnt + 1
    requires forall id | id in t.parts && id != find :: id in s.parts && t.parts[id] == s.parts[id]
    requires forall id | id in held :: id in t.parts
    ensures Counted(t, held + multiset{find})
  {
    hide Uses;
  }

  lemma AddRefTable(s: Store, id: Id)
    requires TableRight(s.parts, s.table) && id in s.parts
    ensures Interned(s, id) in s.parts && s.parts[Interned(s, id)].value == s.parts[id].value
    ensures TableRight(AddRef(s, id).parts, AddRef(s, id).table)
  {
    var find := Interned(s, id);
    var n := s.parts[find].refcnt + 1;
    TableUpdate(s.parts, s.table, find, n);
    if find != id {
      var parts := s.parts[find := s.parts[find].(refcnt := n)];
      TableDrop(parts, s.table[s.parts[find].value := find], id);
    }
    hide TableRight;
  }

  lemma AddRefCounts(s: Store, held: multiset<Id>, id: Id)
    requires Counted(s, held) && id in s.parts && Interned(s, id) in s.parts
    ensures Interned(s, id) != id ==> Uses(s.entries, s.hash, id) == 0
    ensures Counted(AddRef(s, id), held + multiset{Interned(s, id)})
  {
    hide Uses;
    CountUp(s, AddRef(s, id), held, Interned(s, id));
  }

  /** Taking a reference keeps the balance, with the reference now held. */
  lemma AddRefKeeps(s: Store, held: multiset<Id>, id: Id)
    requires Balanced(s, held) && id in s.parts
    ensures Interned(s, id) in s.parts
    ensures var t := AddRef(s, id);
            && Balanced(t, held + multiset{Interned(s, id)})
            && Interned(s, id) in t.parts && t.parts[Interned(s, id)].value == s.parts[id].value
            && (forall j | j in s.parts && j != id :: j in t.parts && t.parts[j].value == s.parts[j].value)
  {
    hide HashRight;
    hide TableRight;
    hide Counted;
    AddRefTable(s, id);
    AddRefCounts(s, held, id);
    HashParts(s, AddRef(s, id));
  }

  lemma CountDown(s: Store, t: Store, held: multiset<Id>, id: Id)
    requires Counted(s, held) && id in held && t == s.(parts := t.parts, table := t.table)
    requires forall j | j in t.parts && j != id :: j in s.parts && t.parts[j] == s.parts[j]
    requires forall j | j in s.parts && j != id :: j in t.parts
    requires id in t.parts ==> t.parts[id].refcnt == s.parts[id].refcnt - 1
    requires id !in t.parts ==> s.parts[id].refcnt == 1
    ensures Counted(t, held - multiset{id})
  {
    hide Uses;
  }

  /** Giving one up keeps it, too. */
  lemma DropRefKeeps(s: Store, held: multiset<Id>, id: Id)
    requires Balanced(s, held) && id in held
    ensures id in s.parts && s.parts[id].refcnt > 0 && Balanced(DropRef(s, id), held - multiset{id})
  {
    hide HashRight;
    hide Uses;
    var t := DropRef(s, id);
    var p := s.parts[id];
    assert held[id] > 0;
    if p.refcnt == 1 {
      TableDrop(s.parts, s.table, id);
    } else {
      TableUpdate(s.parts, s.table, id, p.refcnt - 1);
      assert s.table[p.value := id] == s.table;
    }
    HashParts(s, t);
    CountDown(s, t, held, id);
  }

  // ----- Interning an attribute

  function Adopt(s: Store, o: Option<Id>): (Store, Option<Id>) {
    if o.None? || o.value !in s.parts || Interned(s, o.value) !in s.parts then (s, o)
    else (AddRef(s, o.value), Some(Interned(s, o.value)))
  }

  function AdoptedExtra(s: Store, x: Extra): (Store, Extra) {
    var (s1, ecommunity) := Adopt(s, x.ecommunity);
    var (s2, cluster) := Adopt(s1, x.cluster);
    var (s3, transit) := Adopt(s2, x.transit);
    (s3, x.(ecommunity := ecommunity, cluster := cluster, transit := transit))
  }

  /** The first half of bgp_attr_intern: a reference to every part. */
  function Adopted(s: Store, a: Attr): (Store, Attr) {
    var (s1, aspath) := Adopt(s, a.aspath);
    var (s2, community) := Adopt(s1, a.community);
    var b := a.(aspath := aspath, community := community);
    if a.extra.None? then (s2, b)
    else
      var (s3, x) := AdoptedExtra(s2, a.extra.value);
      (s3, b.(extra := Some(x)))
  }

  /** hash_get: the first entry under the same key that compares equal. */
  function Lookup(s: Store, hash: seq<Id>, a: Attr): Option<Id> {
    if hash == [] then None
    else if hash[0] in s.entries && KeyOf(s.entries[hash[0]].attr, s.parts) == KeyOf(a, s.parts)
            && Same(s.entries[hash[0]].attr, a) then Some(hash[0])
    else Lookup(s, hash[1..], a)
  }

  /** The second half: the entry that is there, or a new one at address `at`. */
  function Attached(s: Store, a: Attr, at: Id): (Store, Id) {
    match Lookup(s, s.hash, a)
    case Some(i) =>
      if i in s.entries then
        (s.(entries := s.entries[i := s.entries[i].(refcnt := s.entries[i].refcnt + 1)]), i)
      else (s, i)
    case None => (s.(entries := s.entries[at := Entry(a, 1)], hash := [at] + s.hash), at)
  }

  /** bgp_attr_intern */
  function InternAttr(s: Store, a: Attr, at: Id): (Store, Id) {
    var (t, b) := Adopted(s, a);
    Attached(t, b, at)
  }

  ghost predicate TypedExtra(s: Store, x: Extra) {
    && (x.ecommunity.Some? ==> x.ecommunity.value in s.parts && s.parts[x.ecommunity.value].value.EcommunityValue?)
    && (x.cluster.Some? ==> x.cluster.value in s.parts && s.parts[x.cluster.value].value.ClusterValue?)
    && (x.transit.Some? ==> x.transit.value in s.parts && s.parts[x.transit.value].value.TransitValue?)
  }

  /** The parts of an attribute are of the right kinds, so no object serves as two of them. */
  ghost predicate Typed(s: Store, a: Attr) {
    && (a.aspath.Some? ==> a.aspath.value in s.parts && s.parts[a.aspath.value].value.PathValue?)
    && (a.community.Some? ==> a.community.value in s.parts && s.parts[a.community.value].value.CommunityValue?)
    && (a.extra.Some? ==> TypedExtra(s, a.extra.value))
  }

  /** A part that is still to be adopted stays where it is. */
  ghost predicate Still(s: Store, t: Store, but: Option<Id>) {
    forall j | j in s.parts && Some(j) != but :: j in t.parts && t.parts[j].value == s.parts[j].value
  }

  lemma AdoptKeeps(s: Store, held: multiset<Id>, o: Option<Id>)
    requires Balanced(s, held) && (o.Some? ==> o.value in s.parts)
    ensures var (t, p) := Adopt(s, o);
            && Balanced(t, held + Opt(p)) && Still(s, t, o)
            && t == s.(parts := t.parts, table := t.table)
            && (p.Some? <==> o.Some?)
            && (p.Some? ==> p.value in t.parts && t.parts[p.value].value == s.parts[o.value].value)
  {
    hide Balanced;
    if o.Some? {
      AddRefKeeps(s, held, o.value);
    } else {
      assert held + multiset{} == held;
    }
  }

  lemma AdoptTwo(s: Store, held: multiset<Id>, o: Option<Id>, q: Option<Id>)
    requires Balanced(s, held) && (o.Some? ==> o.value in s.parts) && (q.Some? ==> q.value in s.parts)
    requires o.Some? && q.Some? ==> o.value != q.value
    ensures var (s1, p) := Adopt(s, o);
            var (s2, r) := Adopt(s1, q);
            && Balanced(s2, held + Opt(p) + Opt(r))
            && s2 == s.(parts := s2.parts, table := s2.table)
            && (forall j | j in s.parts && Some(j) != o && Some(j) != q ::
                  j in s2.parts && s2.parts[j].value == s.parts[j].value)
  {
    hide Balanced;
    AdoptKeeps(s, held, o);
    var (s1, p) := Adopt(s, o);
    AdoptKeeps(s1, held + Opt(p), q);
  }

  lemma AdoptedExtraKeeps(s: Store, held: multiset<Id>, x: Extra)
    requires Balanced(s, held) && TypedExtra(s, x)
    ensures var (t, y) := AdoptedExtra(s, x);
            Balanced(t, held + ExtraParts(y)) && t == s.(parts := t.parts, table := t.table)
  {
    hide Balanced;
    hide Adopt;
    AdoptTwo(s, held, x.ecommunity, x.cluster);
    var (s1, ecommunity) := Adopt(s, x.ecommunity);
    var (s2, cluster) := Adopt(s1, x.cluster);
    AdoptKeeps(s2, held + Opt(ecommunity) + Opt(cluster), x.transit);
    var (s3, transit) := Adopt(s2, x.transit);
    assert held + Opt(ecommunity) + Opt(cluster) + Opt(transit) ==
           held + (Opt(ecommunity) + Opt(cluster) + Opt(transit));
  }

  /** Adopting the parts of an attribute takes one reference to each. */
  lemma AdoptedKeeps(s: Store, held: multiset<Id>, a: Attr)
    requires Balanced(s, held) && Typed(s, a)
    ensures var (t, b) := Adopted(s, a);
            Balanced(t, held + PartsOf(b)) && t == s.(parts := t.parts, table := t.table)
  {
    hide Balanced;
    hide Adopt;
    hide AdoptedExtra;
    hide ExtraParts;
    AdoptTwo(s, held, a.aspath, a.community);
    var (s1, aspath) := Adopt(s, a.aspath);
    var (s2, community) := Adopt(s1, a.community);
    var own := Opt(aspath) + Opt(community);
    assert held + Opt(aspath) + Opt(community) == held + own;
    if a.extra.Some? {
      assert TypedExtra(s2, a.extra.value);
      AdoptedExtraKeeps(s2, held + own, a.extra.value);
      var (s3, x) := AdoptedExtra(s2, a.extra.value);
      assert held + own + ExtraParts(x) == held + (own + ExtraParts(x));
    }
  }

  /** The look-up finds an equal attribute if there is one. */
  lemma {:induction false} LookupFinds(s: Store, hash: seq<Id>, a: Attr)
    requires forall i | i in hash :: i in s.entries
    ensures var r := Lookup(s, hash, a);
            if r.Some? then r.value in hash && Same(s.entries[r.value].attr, a)
            else forall i | i in hash :: !Same(s.entries[i].attr, a)
  {
    hide KeyOf;
    hide Same;
    if hash != [] {
      assert hash[0] in hash;
      if Same(s.entries[hash[0]].attr, a) {
        SameKey(s.entries[hash[0]].attr, a, s.parts);
      }
      LookupFinds(s, hash[1..], a);
    }
  }

  lemma SameParts(a: Attr, b: Attr)
    requires Same(a, b)
    ensures PartsOf(a) == PartsOf(b)
  {
  }

  lemma {:induction false} UsesElsewhere(entries: map<Id, Entry>, hash: seq<Id>, i: Id, e: Entry, id: Id)
    requires i !in hash
    ensures Uses(entries[i := e], hash, id) == Uses(entries, hash, id)
    ensures Uses(entries - {i}, hash, id) == Uses(entries, hash, id)
  {
    hide PartsOf;
    hide Times;
    if hash != [] {
      UsesElsewhere(entries, hash[1..], i, e, id);
    }
  }

  /** The uses of a part after one entry has changed. */
  lemma {:induction false} UsesUpdate(entries: map<Id, Entry>, hash: seq<Id>, i: Id, e: Entry, id: Id)
    requires NoDup(hash) && i in hash && i in entries
    ensures Uses(entries[i := e], hash, id) + EntryUses(entries, i, id) ==
            Uses(entries, hash, id) + Times(e.refcnt, PartsOf(e.attr)[id])
    ensures Uses(entries - {i}, Without(hash, i), id) + EntryUses(entries, i, id) == Uses(entries, hash, id)
  {
    hide PartsOf;
    hide Times;
    if hash[0] == i {
      UsesElsewhere(entries, hash[1..], i, e, id);
      WithoutHead(hash);
    } else {
      UsesUpdate(entries, hash[1..], i, e, id);
      var w := Without(hash[1..], i);
      assert Without(hash, i) == [hash[0]] + w && ([hash[0]] + w)[1..] == w;
    }
  }

  lemma OneMore(n: nat, k: nat)
    ensures Times(n + 1, k) == Times(n, k) + k
  {
  }

  lemma BumpCounts(s: Store, held: multiset<Id>, a: Attr, i: Id)
    requires HashRight(s) && Counted(s, held + PartsOf(a)) && i in s.entries && Same(s.entries[i].attr, a)
    ensures Counted(s.(entries := s.entries[i := s.entries[i].(refcnt := s.entries[i].refcnt + 1)]), held)
  {
    hide PartsOf;
    hide Times;
    hide Same;
    SameParts(s.entries[i].attr, a);
    var e := s.entries[i].(refcnt := s.entries[i].refcnt + 1);
    forall id
      ensures Uses(s.entries[i := e], s.hash, id) == Uses(s.entries, s.hash, id) + PartsOf(a)[id]
    {
      UsesUpdate(s.entries, s.hash, i, e, id);
      OneMore(s.entries[i].refcnt, PartsOf(a)[id]);
    }
    hide Uses;
  }

  lemma NoTimes(k: nat)
    ensures Times(0, k) == 0
  {
  }

  lemma NewCounts(s: Store, held: multiset<Id>, a: Attr, at: Id)
    requires HashRight(s) && Counted(s, held + PartsOf(a)) && at !in s.entries
    ensures Counted(s.(entries := s.entries[at := Entry(a, 1)], hash := [at] + s.hash), held)
  {
    hide PartsOf;
    hide Times;
    var entries := s.entries[at := Entry(a, 1)];
    forall id
      ensures Uses(entries, [at] + s.hash, id) == Uses(s.entries, s.hash, id) + PartsOf(a)[id]
    {
      assert ([at] + s.hash)[1..] == s.hash;
      UsesElsewhere(s.entries, s.hash, at, Entry(a, 1), id);
      OneMore(0, PartsOf(a)[id]);
      NoTimes(PartsOf(a)[id]);
    }
    hide Uses;
  }

  lemma NewHash(s: Store, a: Attr, at: Id)
    requires HashRight(s) && at !in s.entries && (forall i | i in s.entries :: !Same(s.entries[i].attr, a))
    requires forall id | id in PartsOf(a) :: id in s.parts
    ensures HashRight(s.(entries := s.entries[at := Entry(a, 1)], hash := [at] + s.hash))
  {
    hide PartsOf;
    hide Same;
    NoDupPrepend(s.hash, at);
    forall i | i in s.entries
      ensures !Same(a, s.entries[i].attr)
    {
      if Same(a, s.entries[i].attr) {
        SameEquivalence(a, s.entries[i].attr, a);
      }
    }
  }

  lemma BumpHash(s: Store, i: Id)
    requires HashRight(s) && i in s.entries
    ensures HashRight(s.(entries := s.entries[i := s.entries[i].(refcnt := s.entries[i].refcnt + 1)]))
    ensures s.entries[i].refcnt > 1 ==>
              HashRight(s.(entries := s.entries[i := s.entries[i].(refcnt := s.entries[i].refcnt - 1)]))
  {
    hide PartsOf;
    hide Same;
  }

  lemma LookupAll(s: Store, a: Attr)
    requires HashRight(s)
    ensures match Lookup(s, s.hash, a)
            case Some(i) => i in s.entries && Same(s.entries[i].attr, a)
            case None => forall i | i in s.entries :: !Same(s.entries[i].attr, a)
  {
    hide PartsOf;
    hide Same;
    LookupFinds(s, s.hash, a);
    hide Lookup;
  }

  lemma HeldThere(s: Store, held: multiset<Id>, a: Attr)
    requires Counted(s, held + PartsOf(a))
    ensures forall id | id in PartsOf(a) :: id in s.parts
  {
    hide PartsOf;
    assert forall id | id in PartsOf(a) :: id in held + PartsOf(a);
  }

  /** The entry takes over the references to the parts; equal attributes are one entry. */
  lemma AttachedKeeps(s: Store, held: multiset<Id>, a: Attr, at: Id)
    requires Balanced(s, held + PartsOf(a)) && at !in s.entries
    ensures var (t, i) := Attached(s, a, at);
            && Balanced(t, held) && i in t.entries && Same(t.entries[i].attr, a)
            && t == s.(entries := t.entries, hash := t.hash)
            && (i !in s.entries ==> forall j | j in s.entries :: !Same(s.entries[j].attr, a))
  {
    hide PartsOf;
    hide Same;
    hide TableRight;
    hide HashRight;
    hide Counted;
    hide Lookup;
    LookupAll(s, a);
    match Lookup(s, s.hash, a) {
      case Some(i) =>
        BumpCounts(s, held, a, i);
        BumpHash(s, i);
      case None =>
        HeldThere(s, held, a);
        NewCounts(s, held, a, at);
        NewHash(s, a, at);
        SameEquivalence(a, a, a);
    }
  }

  /** bgp_attr_intern keeps the counts right; an attribute equal to an interned one becomes that one. */
  lemma InternKeeps(s: Store, held: multiset<Id>, a: Attr, at: Id)
    requires Balanced(s, held) && Typed(s, a) && at !in s.entries
    ensures var (t, i) := InternAttr(s, a, at);
            var b := Adopted(s, a).1;
            && Balanced(t, held) && i in t.entries && Same(t.entries[i].attr, b) && t.outside == s.outside
            && (i !in s.entries ==> forall j | j in s.entries :: !Same(s.entries[j].attr, b))
  {
    hide Balanced;
    hide Adopted;
    hide Attached;
    hide PartsOf;
    hide Same;
    AdoptedKeeps(s, held, a);
    var (t, b) := Adopted(s, a);
    AttachedKeeps(t, held, b, at);
  }

  // ----- Giving an attribute up

  /** The entry loses a reference, and with the last one its place in the hash. */
  function Detached(s: Store, i: Id): Store
    requires i in s.entries && s.entries[i].refcnt > 0
  {
    if s.entries[i].refcnt == 1 then s.(entries := s.entries - {i}, hash := Without(s.hash, i))
    else s.(entries := s.entries[i := s.entries[i].(refcnt := s.entries[i].refcnt - 1)])
  }

  function Release(s: Store, o: Option<Id>): Store {
    if o.Some? && o.value in s.parts && s.parts[o.value].refcnt > 0 then DropRef(s, o.value) else s
  }

  /** bgp_attr_unintern_sub */
  function Released(s: Store, a: Attr): Store {
    var t := Release(Release(s, a.aspath), a.community);
    if a.extra.None? then t
    else Release(Release(Release(t, a.extra.value.ecommunity), a.extra.value.cluster), a.extra.value.transit)
  }

  /** bgp_attr_unintern */
  function UninternAttr(s: Store, i: Id): Store
    requires i in s.entries && s.entries[i].refcnt > 0
  {
    Released(Detached(s, i), s.entries[i].attr)
  }

  lemma DetachCounts(s: Store, held: multiset<Id>, i: Id)
    requires HashRight(s) && Counted(s, held) && i in s.entries && s.entries[i].refcnt > 0
    ensures Counted(Detached(s, i), held + PartsOf(s.entries[i].attr))
  {
    hide PartsOf;
    hide Times;
    hide Same;
    var e, t := s.entries[i], Detached(s, i);
    forall id
      ensures Uses(t.entries, t.hash, id) + PartsOf(e.attr)[id] == Uses(s.entries, s.hash, id)
    {
      UsesUpdate(s.entries, s.hash, i, e.(refcnt := e.refcnt - 1), id);
      OneMore(e.refcnt - 1, PartsOf(e.attr)[id]);
      NoTimes(PartsOf(e.attr)[id]);
    }
    hide Uses;
    assert forall id | id in PartsOf(e.attr) :: id in s.parts;
  }

  lemma DetachHash(s: Store, i: Id)
    requires HashRight(s) && i in s.entries && s.entries[i].refcnt > 0
    ensures HashRight(Detached(s, i))
  {
    hide PartsOf;
    hide Same;
    BumpHash(s, i);
    NoDupWithout(s.hash, i);
  }

  lemma ReleaseKeeps(s: Store, held: multiset<Id>, o: Option<Id>)
    requires Balanced(s, held + Opt(o))
    ensures Balanced(Release(s, o), held) && Release(s, o).outside == s.outside
  {
    hide Balanced;
    if o.Some? {
      assert o.value in held + Opt(o);
      DropRefKeeps(s, held + Opt(o), o.value);
      assert held + Opt(o) - multiset{o.value} == held;
    } else {
      assert held + Opt(o) == held;
    }
  }

  lemma ReleaseTwo(s: Store, held: multiset<Id>, o: Option<Id>, q: Option<Id>)
    requires Balanced(s, held + (Opt(o) + Opt(q)))
    ensures Balanced(Release(Release(s, o), q), held) && Release(Release(s, o), q).outside == s.outside
  {
    hide Balanced;
    hide Release;
    assert held + (Opt(o) + Opt(q)) == held + Opt(q) + Opt(o);
    ReleaseKeeps(s, held + Opt(q), o);
    ReleaseKeeps(Release(s, o), held, q);
  }

  lemma ReleasedKeeps(s: Store, held: multiset<Id>, a: Attr)
    requires Balanced(s, held + PartsOf(a))
    ensures Balanced(Released(s, a), held) && Released(s, a).outside == s.outside
  {
    hide Balanced;
    hide Release;
    var own := Opt(a.aspath) + Opt(a.community);
    if a.extra.None? {
      ReleaseTwo(s, held, a.aspath, a.community);
    } else {
      var x := a.extra.value;
      var more := held + Opt(x.transit) + (Opt(x.ecommunity) + Opt(x.cluster));
      assert held + PartsOf(a) == more + own;
      ReleaseTwo(s, more, a.aspath, a.community);
      var t := Release(Release(s, a.aspath), a.community);
      ReleaseTwo(t, held + Opt(x.transit), x.ecommunity, x.cluster);
      ReleaseKeeps(Release(Release(t, x.ecommunity), x.cluster), held, x.transit);
    }
  }

  /** bgp_attr_unintern gives back exactly what bgp_attr_intern took. */
  lemma UninternKeeps(s: Store, held: multiset<Id>, i: Id)
    requires Balanced(s, held) && i in s.entries
    ensures s.entries[i].refcnt > 0 && Balanced(UninternAttr(s, i), held) && UninternAttr(s, i).outside == s.outside
  {
    hide Uses;
    hide PartsOf;
    hide Same;
    hide Released;
    var t, a := Detached(s, i), s.entries[i].attr;
    DetachCounts(s, held, i);
    DetachHash(s, i);
    assert Balanced(t, held + PartsOf(a));
    hide Balanced;
    ReleasedKeeps(t, held, a);
  }
}
