/**
 Interning in place: the hash tables and the functions of bgpd/bgp_attr.c and bgpd/bgp_aspath.c that update them.
 */
module InternInPlace {
  import opened Lists
  import opened Options
  import opened Encap
  import opened Intern
  import opened InternRuns

  // ----- The loops

  /** Every member of one chain is looked for in the other. */
  method Contains(a: seq<SubTlv>, b: seq<SubTlv>) returns (all: bool)
    ensures all <==> forall t | t in a :: t in b
  {
    for i := 0 to |a|
      invariant forall t | t in a[..i] :: t in b
    {
      var j := 0;
      while j < |b| && b[j] != a[i]
        invariant 0 <= j <= |b| && forall k | 0 <= k < j :: b[k] != a[i]
      {
        j := j + 1;
      }
      if j == |b| {
        assert a[i] in a && a[i] !in b;
        return false;
      }
      assert a[..i + 1] == a[..i] + [a[i]];
    }
    assert a[..|a|] == a;
    return true;
  }

  ghost function Members(a: seq<SubTlv>): set<SubTlv> {
    set t | t in a
  }

  lemma MembersWithin(a: seq<SubTlv>, b: seq<SubTlv>)
    ensures (forall t | t in a :: t in b) <==> Members(a) <= Members(b)
  {
    if Members(a) <= Members(b) {
      forall t | t in a
        ensures t in b
      {
        assert t in Members(a);
      }
    }
  }

  /** encap_same decides whether two chains are equal as sets. */
  method CompareEncap(a: seq<SubTlv>, b: seq<SubTlv>) returns (same: bool)
    ensures same <==> Members(a) == Members(b)
    ensures same <==> EncapSame(a, b)
  {
    assert a != [] ==> a[0] in Members(a);
    assert b != [] ==> b[0] in Members(b);
    assert a == [] ==> Members(a) == {};
    assert b == [] ==> Members(b) == {};
    MembersWithin(a, b);
    MembersWithin(b, a);
    if a == [] && b == [] {
      return true;
    }
    if a == [] || b == [] {
      return false;
    }
    same := Contains(a, b);
    if same {
      same := Contains(b, a);
    }
  }

  // ----- The functions in place

  class Tables {
    var parts: map<Id, Part>
    var table: map<Value, Id>
    var entries: map<Id, Entry>
    var hash: seq<Id>
    ghost var outside: multiset<Id>

    ghost function View(): Store
      reads this
    {
      Store(parts, table, entries, hash, outside)
    }

    constructor ()
      ensures View() == EMPTY && Inv(View())
    {
      parts, table, entries, hash, outside := map[], map[], map[], [], multiset{};
    }

    /** aspath_intern and the like for a new object, otherwise one more reference. */
    method Take(id: Id) returns (find: Id)
      requires id in parts && TableRight(parts, table)
      modifies this
      ensures old(Interned(View(), id) in parts)
      ensures View() == AddRef(old(View()), id) && find == old(Interned(View(), id))
    {
      var p := parts[id];
      ghost var before := table;
      find := id;
      if p.refcnt == 0 {
        if p.value in table {
          find := table[p.value];
          parts := parts - {id};
        } else {
          table := table[p.value := id];
        }
      }
      parts := parts[find := parts[find].(refcnt := parts[find].refcnt + 1)];
      assert table == before[p.value := find];
    }

    /** aspath_unintern and the like */
    method Drop(id: Id)
      requires id in parts && parts[id].refcnt > 0 && TableRight(parts, table)
      modifies this
      ensures View() == DropRef(old(View()), id)
    {
      var p := parts[id];
      if p.refcnt == 1 {
        table := table - {p.value};
        parts := parts - {id};
      } else {
        parts := parts[id := p.(refcnt := p.refcnt - 1)];
      }
    }

    method TakeOpt(o: Option<Id>) returns (r: Option<Id>)
      requires TableRight(parts, table)
      modifies this
      ensures (View(), r) == Adopt(old(View()), o) && TableRight(parts, table)
    {
      r := o;
      if o.Some? && o.value in parts {
        AddRefTable(View(), o.value);
        var find := Take(o.value);
        r := Some(find);
      }
    }

    method DropOpt(o: Option<Id>, ghost held: multiset<Id>)
      requires Balanced(View(), held + Opt(o))
      modifies this
      ensures View() == Release(old(View()), o) && Balanced(View(), held)
    {
      ReleaseKeeps(View(), held, o);
      if o.Some? && o.value in parts && parts[o.value].refcnt > 0 {
        Drop(o.value);
      }
    }

    /** The loop of hash_get over the entries. */
    method Find(a: Attr) returns (r: Option<Id>)
      ensures r == Lookup(View(), hash, a)
    {
      var k := 0;
      assert hash[0..] == hash;
      while k < |hash|
        invariant 0 <= k <= |hash|
        invariant Lookup(View(), hash, a) == Lookup(View(), hash[k..], a)
      {
        var i := hash[k];
        assert hash[k..][1..] == hash[k + 1..];
        if i in entries && KeyOf(entries[i].attr, parts) == KeyOf(a, parts) && Same(entries[i].attr, a) {
          return Some(i);
        }
        k := k + 1;
      }
      r := None;
    }

    method TakeExtra(x: Extra) returns (y: Extra)
      requires TableRight(parts, table)
      modifies this
      ensures (View(), y) == AdoptedExtra(old(View()), x) && TableRight(parts, table)
    {
      hide TableRight;
      hide Adopt;
      var ecommunity := TakeOpt(x.ecommunity);
      var cluster := TakeOpt(x.cluster);
      var transit := TakeOpt(x.transit);
      y := x.(ecommunity := ecommunity, cluster := cluster, transit := transit);
    }

    method TakeAll(a: Attr) returns (b: Attr)
      requires TableRight(parts, table)
      modifies this
      ensures (View(), b) == Adopted(old(View()), a) && TableRight(parts, table)
    {
      hide TableRight;
      hide Adopt;
      hide AdoptedExtra;
      var aspath := TakeOpt(a.aspath);
      var community := TakeOpt(a.community);
      b := a.(aspath := aspath, community := community);
      if a.extra.Some? {
        var x := TakeExtra(a.extra.value);
        b := b.(extra := Some(x));
      }
    }

    /** bgp_attr_intern */
    method InternAttribute(a: Attr, at: Id) returns (i: Id)
      requires Inv(View()) && Typed(View(), a) && at !in entries
      modifies this
      ensures (View(), i) == InternAttr(old(View()), a, at) && Inv(View())
    {
      hide Adopted;
      hide HashRight;
      hide Counted;
      hide TableRight;
      hide Lookup;
      hide Same;
      hide Typed;
      InternKeeps(View(), outside, a, at);
      var b := TakeAll(a);
      var found := Find(b);
      if found.Some? {
        i := found.value;
        if i in entries {
          entries := entries[i := entries[i].(refcnt := entries[i].refcnt + 1)];
        }
      } else {
        i := at;
        entries, hash := entries[at := Entry(b, 1)], [at] + hash;
      }
    }

    /** bgp_attr_unintern_sub */
    method DropAll(a: Attr, ghost held: multiset<Id>)
      requires Balanced(View(), held + PartsOf(a))
      modifies this
      ensures View() == Released(old(View()), a) && Balanced(View(), held)
    {
      hide Balanced;
      hide Release;
      ghost var own := Opt(a.aspath) + Opt(a.community);
      ghost var rest := if a.extra.Some? then ExtraParts(a.extra.value) else multiset{};
      assert held + PartsOf(a) == held + rest + Opt(a.community) + Opt(a.aspath);
      DropOpt(a.aspath, held + rest + Opt(a.community));
      DropOpt(a.community, held + rest);
      if a.extra.Some? {
        var x := a.extra.value;
        assert held + rest == held + Opt(x.transit) + Opt(x.cluster) + Opt(x.ecommunity);
        DropOpt(x.ecommunity, held + Opt(x.transit) + Opt(x.cluster));
        DropOpt(x.cluster, held + Opt(x.transit));
        DropOpt(x.transit, held);
      } else {
        assert held + rest == held;
      }
    }

    /** bgp_attr_unintern */
    method UninternAttribute(i: Id)
      requires Inv(View()) && i in entries && entries[i].refcnt > 0
      modifies this
      ensures View() == UninternAttr(old(View()), i) && Inv(View())
    {
      hide HashRight;
      hide Counted;
      hide TableRight;
      hide PartsOf;
      hide Released;
      UninternKeeps(View(), outside, i);
      ghost var before := View();
      DetachCounts(before, outside, i);
      DetachHash(before, i);
      var a := entries[i].attr;
      if entries[i].refcnt == 1 {
        entries, hash := entries - {i}, Without(hash, i);
      } else {
        entries := entries[i := entries[i].(refcnt := entries[i].refcnt - 1)];
      }
      assert View() == Detached(before, i);
      DropAll(a, outside);
    }
  }
}
