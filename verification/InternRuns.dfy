/**
 Runs of interning: equal contents become one object, and what every run keeps.
 */
module InternRuns {
  import opened Options
  import opened Intern

  // ----- Equal contents, one object

  function ValueOf(s: Store, o: Option<Id>): Option<Value> {
    if o.Some? && o.value in s.parts then Some(s.parts[o.value].value) else None
  }

  /** `o` is the interned object for the value `v`. */
  predicate Listed(table: map<Value, Id>, o: Option<Id>, v: Option<Value>) {
    if v.None? then o.None? else v.value in table && o == Some(table[v.value])
  }

  ghost predicate Extends(t: map<Value, Id>, s: map<Value, Id>) {
    forall v | v in s :: v in t && t[v] == s[v]
  }

  lemma AdoptListed(s: Store, held: multiset<Id>, o: Option<Id>)
    requires Balanced(s, held) && (o.Some? ==> o.value in s.parts)
    ensures var (t, p) := Adopt(s, o);
            Listed(t.table, p, ValueOf(s, o)) && Extends(t.table, s.table)
  {
    hide HashRight;
    hide Counted;
    if o.Some? {
      AddRefTable(s, o.value);
    }
  }

  lemma AdoptTwoListed(s: Store, held: multiset<Id>, o: Option<Id>, q: Option<Id>)
    requires Balanced(s, held) && (o.Some? ==> o.value in s.parts) && (q.Some? ==> q.value in s.parts)
    requires o.Some? && q.Some? ==> o.value != q.value
    ensures var (s1, p) := Adopt(s, o);
            var (s2, r) := Adopt(s1, q);
            Listed(s2.table, p, ValueOf(s, o)) && Listed(s2.table, r, ValueOf(s, q)) && Extends(s2.table, s.table)
  {
    hide Balanced;
    hide Adopt;
    AdoptListed(s, held, o);
    AdoptKeeps(s, held, o);
    var (s1, p) := Adopt(s, o);
    AdoptListed(s1, held + Opt(p), q);
  }

  lemma AdoptedExtraListed(s: Store, held: multiset<Id>, x: Extra)
    requires Balanced(s, held) && TypedExtra(s, x)
    ensures var (t, y) := AdoptedExtra(s, x);
            && Listed(t.table, y.ecommunity, ValueOf(s, x.ecommunity))
            && Listed(t.table, y.cluster, ValueOf(s, x.cluster))
            && Listed(t.table, y.transit, ValueOf(s, x.transit))
            && Extends(t.table, s.table)
  {
    hide Balanced;
    hide Adopt;
    AdoptTwo(s, held, x.ecommunity, x.cluster);
    AdoptTwoListed(s, held, x.ecommunity, x.cluster);
    var (s1, ecommunity) := Adopt(s, x.ecommunity);
    var (s2, cluster) := Adopt(s1, x.cluster);
    AdoptListed(s2, held + Opt(ecommunity) + Opt(cluster), x.transit);
  }

  /** After adoption, every part is the interned object for its value. */
  ghost predicate AllListed(table: map<Value, Id>, s: Store, a: Attr, b: Attr) {
    && Listed(table, b.aspath, ValueOf(s, a.aspath)) && Listed(table, b.community, ValueOf(s, a.community))
    && (a.extra.Some? <==> b.extra.Some?)
    && (a.extra.Some? ==>
          var x, y := a.extra.value, b.extra.value;
          && Listed(table, y.ecommunity, ValueOf(s, x.ecommunity))
          && Listed(table, y.cluster, ValueOf(s, x.cluster))
          && Listed(table, y.transit, ValueOf(s, x.transit)))
  }

  lemma ListedLater(t: map<Value, Id>, s: map<Value, Id>, o: Option<Id>, v: Option<Value>)
    requires Listed(s, o, v) && Extends(t, s)
    ensures Listed(t, o, v)
  {
  }

  lemma AdoptedListed(s: Store, held: multiset<Id>, a: Attr)
    requires Balanced(s, held) && Typed(s, a)
    ensures var (t, b) := Adopted(s, a);
            AllListed(t.table, s, a, b) && Extends(t.table, s.table)
  {
    hide Balanced;
    hide Adopt;
    hide AdoptedExtra;
    hide Listed;
    AdoptTwo(s, held, a.aspath, a.community);
    AdoptTwoListed(s, held, a.aspath, a.community);
    var (s1, aspath) := Adopt(s, a.aspath);
    var (s2, community) := Adopt(s1, a.community);
    if a.extra.Some? {
      assert TypedExtra(s2, a.extra.value);
      AdoptedExtraListed(s2, held + Opt(aspath) + Opt(community), a.extra.value);
      var t := AdoptedExtra(s2, a.extra.value).0;
      ListedLater(t.table, s2.table, aspath, ValueOf(s, a.aspath));
      ListedLater(t.table, s2.table, community, ValueOf(s, a.community));
    }
  }

  /** The same numbers, encapsulations and part contents; where the parts are does not matter. */
  ghost predicate SameContents(s: Store, a: Attr, t: Store, b: Attr) {
    && a == b.(aspath := a.aspath, community := a.community, extra := a.extra)
    && ValueOf(s, a.aspath) == ValueOf(t, b.aspath) && ValueOf(s, a.community) == ValueOf(t, b.community)
    && (a.extra.Some? <==> b.extra.Some?)
    && (a.extra.Some? ==>
          var x, y := a.extra.value, b.extra.value;
          && x == y.(ecommunity := x.ecommunity, cluster := x.cluster, transit := x.transit, subs := x.subs)
          && EncapSame(x.subs, y.subs)
          && ValueOf(s, x.ecommunity) == ValueOf(t, y.ecommunity) && ValueOf(s, x.cluster) == ValueOf(t, y.cluster)
          && ValueOf(s, x.transit) == ValueOf(t, y.transit))
  }

  /** Everything but the parts. */
  ghost predicate SameNumbers(a: Attr, b: Attr) {
    && a == b.(aspath := a.aspath, community := a.community, extra := a.extra)
    && (a.extra.Some? <==> b.extra.Some?)
    && (a.extra.Some? ==>
          var x, y := a.extra.value, b.extra.value;
          x == y.(ecommunity := x.ecommunity, cluster := x.cluster, transit := x.transit))
  }

  lemma AdoptedNumbers(s: Store, a: Attr)
    ensures SameNumbers(a, Adopted(s, a).1)
  {
    hide Adopt;
  }

  /** Interned parts are the same object exactly when they have the same contents. */
  lemma ListedOne(parts: map<Id, Part>, table: map<Value, Id>, o: Option<Id>, v: Option<Value>,
                  q: Option<Id>, w: Option<Value>)
    requires TableRight(parts, table) && Listed(table, o, v) && Listed(table, q, w)
    ensures o == q <==> v == w
  {
  }

  lemma ListedAll(s: Store, a: Attr, a': Attr, t: Store, b: Attr, b': Attr,
                  parts: map<Id, Part>, table: map<Value, Id>)
    requires AllListed(table, s, a, a') && AllListed(table, t, b, b') && TableRight(parts, table)
    ensures a'.aspath == b'.aspath <==> ValueOf(s, a.aspath) == ValueOf(t, b.aspath)
    ensures a'.community == b'.community <==> ValueOf(s, a.community) == ValueOf(t, b.community)
    ensures a.extra.Some? && b.extra.Some? ==>
              var x, x', y, y' := a.extra.value, a'.extra.value, b.extra.value, b'.extra.value;
              && (x'.ecommunity == y'.ecommunity <==> ValueOf(s, x.ecommunity) == ValueOf(t, y.ecommunity))
              && (x'.cluster == y'.cluster <==> ValueOf(s, x.cluster) == ValueOf(t, y.cluster))
              && (x'.transit == y'.transit <==> ValueOf(s, x.transit) == ValueOf(t, y.transit))
  {
    hide ValueOf;
    hide Listed;
    hide TableRight;
    ListedOne(parts, table, a'.aspath, ValueOf(s, a.aspath), b'.aspath, ValueOf(t, b.aspath));
    ListedOne(parts, table, a'.community, ValueOf(s, a.community), b'.community, ValueOf(t, b.community));
    if a.extra.Some? && b.extra.Some? {
      var x, x', y, y' := a.extra.value, a'.extra.value, b.extra.value, b'.extra.value;
      ListedOne(parts, table, x'.ecommunity, ValueOf(s, x.ecommunity), y'.ecommunity, ValueOf(t, y.ecommunity));
      ListedOne(parts, table, x'.cluster, ValueOf(s, x.cluster), y'.cluster, ValueOf(t, y.cluster));
      ListedOne(parts, table, x'.transit, ValueOf(s, x.transit), y'.transit, ValueOf(t, y.transit));
    }
  }

  /** Once their parts are interned, attributes compare equal exactly when their contents are equal. */
  lemma ListedSame(s: Store, a: Attr, a': Attr, t: Store, b: Attr, b': Attr,
                   parts: map<Id, Part>, table: map<Value, Id>)
    requires AllListed(table, s, a, a') && AllListed(table, t, b, b') && TableRight(parts, table)
    requires SameNumbers(a, a') && SameNumbers(b, b')
    ensures Same(a', b') <==> SameContents(s, a, t, b)
  {
    ListedAll(s, a, a', t, b, b', parts, table);
    hide ValueOf;
    hide EncapSame;
    hide Listed;
    hide TableRight;
  }

  lemma AllListedLater(t: map<Value, Id>, table: map<Value, Id>, s: Store, a: Attr, b: Attr)
    requires AllListed(table, s, a, b) && Extends(t, table)
    ensures AllListed(t, s, a, b)
  {
    hide ValueOf;
  }

  /** A part that an interned attribute refers to is interned. */
  lemma UsedListed(s: Store, held: multiset<Id>, i: Id, o: Option<Id>)
    requires Balanced(s, held) && i in s.entries
    requires o.Some? ==> o.value in PartsOf(s.entries[i].attr)
    ensures Listed(s.table, o, ValueOf(s, o))
  {
    hide PartsOf;
    hide Same;
    if o.Some? && Uses(s.entries, s.hash, o.value) == 0 {
      NotUsed(s, s.hash, o.value, i);
    }
    hide Uses;
  }

  lemma EntryListed(s: Store, held: multiset<Id>, i: Id)
    requires Balanced(s, held) && i in s.entries
    ensures AllListed(s.table, s, s.entries[i].attr, s.entries[i].attr)
  {
    hide Balanced;
    hide Listed;
    hide ValueOf;
    var a := s.entries[i].attr;
    UsedListed(s, held, i, a.aspath);
    UsedListed(s, held, i, a.community);
    if a.extra.Some? {
      UsedListed(s, held, i, a.extra.value.ecommunity);
      UsedListed(s, held, i, a.extra.value.cluster);
      UsedListed(s, held, i, a.extra.value.transit);
    }
  }

  lemma BalancedTable(s: Store, held: multiset<Id>)
    requires Balanced(s, held)
    ensures TableRight(s.parts, s.table)
  {
  }

  lemma AttachedSame(s: Store, held: multiset<Id>, a: Attr, at: Id)
    requires Balanced(s, held + PartsOf(a)) && at !in s.entries
    ensures var i := Attached(s, a, at).1; i in s.entries ==> Same(s.entries[i].attr, a)
  {
    hide PartsOf;
    hide Same;
    hide Lookup;
    LookupAll(s, a);
  }

  lemma AttachExisting(s: Store, a: Attr, at: Id, i: Id, held: multiset<Id>)
    requires Balanced(s, held + PartsOf(a)) && i in s.entries && Same(s.entries[i].attr, a)
    ensures Attached(s, a, at).1 == i
  {
    hide PartsOf;
    hide Same;
    hide Lookup;
    LookupAll(s, a);
    var r := Lookup(s, s.hash, a);
    SameEquivalence(s.entries[i].attr, a, a);
    if r.Some? {
      SameEquivalence(s.entries[r.value].attr, a, s.entries[i].attr);
    }
  }

  /**
   Interning gives the address of an attribute that is interned already exactly when the contents are equal,
   wherever the parts came from and whatever happened in between.
   */
  lemma EqualInternOnce(s: Store, held: multiset<Id>, i: Id, b: Attr, at: Id)
    requires Balanced(s, held) && i in s.entries && Typed(s, b) && at !in s.entries
    ensures InternAttr(s, b, at).1 == i <==> SameContents(s, s.entries[i].attr, s, b)
  {
    hide Balanced;
    hide Typed;
    hide Adopted;
    hide Attached;
    hide SameContents;
    hide AllListed;
    hide Extends;
    hide Same;
    hide PartsOf;
    var a := s.entries[i].attr;
    var (t, b') := Adopted(s, b);
    EntryListed(s, held, i);
    AdoptedListed(s, held, b);
    AllListedLater(t.table, s.table, s, a, a);
    AdoptedNumbers(s, b);
    AdoptedKeeps(s, held, b);
    BalancedTable(t, held + PartsOf(b'));
    ListedSame(s, a, a, s, b, b', t.parts, t.table);
    if Same(a, b') {
      AttachExisting(t, b', at, i, held);
    } else if InternAttr(s, b, at).1 == i {
      AttachedSame(t, held, b', at);
    }
  }

  /** No two interned attributes have equal contents. */
  lemma EntriesDiffer(s: Store, held: multiset<Id>, i: Id, j: Id)
    requires Balanced(s, held) && i in s.entries && j in s.entries && i != j
    ensures !SameContents(s, s.entries[i].attr, s, s.entries[j].attr)
  {
    hide SameContents;
    hide AllListed;
    hide Same;
    hide PartsOf;
    hide Uses;
    EntryListed(s, held, i);
    EntryListed(s, held, j);
    var a, b := s.entries[i].attr, s.entries[j].attr;
    ListedSame(s, a, a, s, b, b, s.parts, s.table);
  }

  // ----- Runs

  datatype Step =
    | AllocPart(id: Id, value: Value)   // a part is built, not interned yet
    | FreePart(id: Id)                  // and thrown away again
    | TakePart(id: Id)                  // a caller interns a part, or takes one more reference to it
    | DropPart(id: Id)                  // and gives it up
    | InternOne(attr: Attr, at: Id)
    | UninternOne(id: Id)

  /** Callers pass parts of the right kinds, and give up only what they hold. */
  ghost predicate Proper(s: Store, step: Step) {
    match step
    case AllocPart(id, v) => id !in s.parts
    case FreePart(id) => id in s.parts && s.parts[id].refcnt == 0
    case TakePart(id) => id in s.parts && Interned(s, id) in s.parts
    case DropPart(id) => id in s.outside && id in s.parts && s.parts[id].refcnt > 0
    case InternOne(a, at) => Typed(s, a) && at !in s.entries
    case UninternOne(i) => i in s.entries && s.entries[i].refcnt > 0
  }

  ghost function StepOf(s: Store, step: Step): Store
    requires Proper(s, step)
  {
    match step
    case AllocPart(id, v) => Alloc(s, id, v)
    case FreePart(id) => s.(parts := s.parts - {id})
    case TakePart(id) => AddRef(s, id).(outside := s.outside + multiset{Interned(s, id)})
    case DropPart(id) => DropRef(s, id).(outside := s.outside - multiset{id})
    case InternOne(a, at) => InternAttr(s, a, at).0
    case UninternOne(i) => UninternAttr(s, i)
  }

  lemma FreePartKeeps(s: Store, held: multiset<Id>, id: Id)
    requires Balanced(s, held) && id in s.parts && s.parts[id].refcnt == 0
    ensures Balanced(s.(parts := s.parts - {id}), held)
  {
    hide HashRight;
    hide Uses;
    TableDrop(s.parts, s.table, id);
    HashParts(s, s.(parts := s.parts - {id}));
  }

  lemma Elsewhere(s: Store, held: multiset<Id>, outside: multiset<Id>)
    requires Balanced(s, held)
    ensures Balanced(s.(outside := outside), held)
  {
    hide PartsOf;
    hide Same;
    hide Uses;
  }

  /** Every step keeps the counts right and the tables in order. */
  lemma StepKeeps(s: Store, step: Step)
    requires Inv(s) && Proper(s, step)
    ensures Inv(StepOf(s, step))
  {
    hide Balanced;
    hide InternAttr;
    hide UninternAttr;
    hide AddRef;
    hide DropRef;
    match step {
      case AllocPart(id, v) => AllocKeeps(s, s.outside, id, v);
      case FreePart(id) => FreePartKeeps(s, s.outside, id);
      case TakePart(id) =>
        AddRefKeeps(s, s.outside, id);
        Elsewhere(AddRef(s, id), s.outside + multiset{Interned(s, id)}, s.outside + multiset{Interned(s, id)});
      case DropPart(id) =>
        DropRefKeeps(s, s.outside, id);
        Elsewhere(DropRef(s, id), s.outside - multiset{id}, s.outside - multiset{id});
      case InternOne(a, at) => InternKeeps(s, s.outside, a, at);
      case UninternOne(i) => UninternKeeps(s, s.outside, i);
    }
  }

  ghost predicate ProperRun(s: Store, steps: seq<Step>)
    decreases steps
  {
    steps == [] || (Proper(s, steps[0]) && ProperRun(StepOf(s, steps[0]), steps[1..]))
  }

  ghost function Run(s: Store, steps: seq<Step>): Store
    requires ProperRun(s, steps)
    decreases steps
  {
    if steps == [] then s else Run(StepOf(s, steps[0]), steps[1..])
  }

  const EMPTY := Store(map[], map[], map[], [], multiset{})

  lemma {:induction false} RunInv(s: Store, steps: seq<Step>)
    requires Inv(s) && ProperRun(s, steps)
    ensures Inv(Run(s, steps))
    decreases steps
  {
    hide Inv;
    if steps != [] {
      StepKeeps(s, steps[0]);
      RunInv(StepOf(s, steps[0]), steps[1..]);
    }
  }

  /**
   Over every run: a part's count is the sum of the counts of the attributes that use it, plus the references
   held outside; a part is in its table exactly while its count is positive; and no two interned attributes
   have equal contents.
   */
  lemma EveryRun(steps: seq<Step>)
    requires ProperRun(EMPTY, steps)
    ensures var s := Run(EMPTY, steps);
            && (forall id | id in s.parts :: s.parts[id].refcnt == Uses(s.entries, s.hash, id) + s.outside[id])
            && (forall id | id in s.parts ::
                  s.parts[id].refcnt > 0 <==> s.parts[id].value in s.table && s.table[s.parts[id].value] == id)
            && (forall i :: i in s.hash <==> i in s.entries)
            && (forall i | i in s.entries :: s.entries[i].refcnt > 0)
            && (forall i, j | i in s.entries && j in s.entries && i != j ::
                  !SameContents(s, s.entries[i].attr, s, s.entries[j].attr))
  {
    hide PartsOf;
    hide Same;
    hide SameContents;
    RunInv(EMPTY, steps);
    var s := Run(EMPTY, steps);
    hide Run;
    hide ProperRun;
    hide Uses;
    forall i, j | i in s.entries && j in s.entries && i != j
      ensures !SameContents(s, s.entries[i].attr, s, s.entries[j].attr)
    {
      EntriesDiffer(s, s.outside, i, j);
    }
  }
}
