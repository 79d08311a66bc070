/**
 What callers of bgp_attr_intern may rely on over whole runs: the address they get stands for the contents they
 passed, these contents do not change, and the attribute is there exactly as long as somebody has not given it up
 (bgpd/bgp_attr.c).
 */
module InternHandles {
  import opened Options
  import opened Encap
  import opened Intern
  import opened InternRuns

  /** Tunnel encapsulations are the same if they have the same sub-TLVs, in whatever order and number. */
  lemma EncapSameSets(a: seq<SubTlv>, b: seq<SubTlv>)
    ensures EncapSame(a, b) <==> forall t :: t in a <==> t in b
  {
    if a != [] && b == [] {
      assert a[0] in a;
    } else if a == [] && b != [] {
      assert b[0] in b;
    }
  }

  // ----- The address stands for the contents

  lemma InternContents(s: Store, held: multiset<Id>, a: Attr, at: Id)
    requires Balanced(s, held) && Typed(s, a) && at !in s.entries
    ensures var (t, i) := InternAttr(s, a, at);
            i in t.entries && SameContents(s, a, t, t.entries[i].attr)
  {
    hide Balanced;
    hide Typed;
    hide Adopted;
    hide Attached;
    hide SameContents;
    hide AllListed;
    hide Extends;
    hide Same;
    hide PartsOf;
    var (r, b) := Adopted(s, a);
    AdoptedListed(s, held, a);
    AdoptedNumbers(s, a);
    AdoptedKeeps(s, held, a);
    InternKeeps(s, held, a, at);
    AttachedKeeps(r, held, b, at);
    var (t, i) := InternAttr(s, a, at);
    var e := t.entries[i].attr;
    EntryListed(t, held, i);
    BalancedTable(t, held);
    ListedSame(s, a, b, t, e, e, t.parts, t.table);
    SameEquivalence(e, b, e);
  }

  // ----- The contents stay

  /** Parts have been freed, and the others have the values they had. */
  ghost predicate Shrinks(s: Store, t: Store) {
    t.parts.Keys <= s.parts.Keys && forall id | id in t.parts :: id in s.parts && t.parts[id].value == s.parts[id].value
  }

  lemma AdoptShrinks(s: Store, o: Option<Id>)
    ensures Shrinks(s, Adopt(s, o).0) && Adopt(s, o).0.entries == s.entries
  {
  }

  lemma AdoptedShrinks(s: Store, a: Attr)
    ensures Shrinks(s, Adopted(s, a).0) && Adopted(s, a).0.entries == s.entries
  {
    hide Adopt;
    var (s1, aspath) := Adopt(s, a.aspath);
    AdoptShrinks(s, a.aspath);
    var (s2, community) := Adopt(s1, a.community);
    AdoptShrinks(s1, a.community);
    if a.extra.Some? {
      var x := a.extra.value;
      AdoptShrinks(s2, x.ecommunity);
      var s3 := Adopt(s2, x.ecommunity).0;
      AdoptShrinks(s3, x.cluster);
      AdoptShrinks(Adopt(s3, x.cluster).0, x.transit);
    }
  }

  lemma ReleaseShrinks(s: Store, o: Option<Id>)
    ensures Shrinks(s, Release(s, o)) && Release(s, o).entries == s.entries
  {
  }

  lemma ReleasedShrinks(s: Store, a: Attr)
    ensures Shrinks(s, Released(s, a)) && Released(s, a).entries == s.entries
  {
    hide Release;
    var s1 := Release(s, a.aspath);
    var s2 := Release(s1, a.community);
    ReleaseShrinks(s, a.aspath);
    ReleaseShrinks(s1, a.community);
    if a.extra.Some? {
      var x := a.extra.value;
      var s3 := Release(s2, x.ecommunity);
      ReleaseShrinks(s2, x.ecommunity);
      ReleaseShrinks(s3, x.cluster);
      ReleaseShrinks(Release(s3, x.cluster), x.transit);
    }
  }

  /** References to attributes that callers hold, after a step. */
  ghost function After(s: Store, step: Step, handles: multiset<Id>): multiset<Id> {
    match step
    case InternOne(a, at) => handles + multiset{InternAttr(s, a, at).1}
    case UninternOne(i) => handles - multiset{i}
    case _ => handles
  }

  /** Every attribute is referenced as often as callers hold it, and an attribute that nobody holds is not there. */
  ghost predicate Tracks(s: Store, handles: multiset<Id>) {
    forall i :: handles[i] == if i in s.entries then s.entries[i].refcnt else 0
  }

  /** No part gets another value, and no interned attribute other contents. */
  ghost predicate Persists(s: Store, t: Store) {
    && (forall id | id in s.parts && id in t.parts :: t.parts[id].value == s.parts[id].value)
    && (forall i | i in s.entries && i in t.entries :: t.entries[i].attr == s.entries[i].attr)
  }

  lemma {:induction false} LookupIn(s: Store, hash: seq<Id>, a: Attr)
    ensures Lookup(s, hash, a).Some? ==> Lookup(s, hash, a).value in hash
  {
    hide KeyOf;
    hide Same;
    if hash != [] {
      LookupIn(s, hash[1..], a);
    }
  }

  lemma AttachedTracks(s: Store, a: Attr, at: Id, handles: multiset<Id>)
    requires at !in s.entries && Tracks(s, handles) && (forall i | i in s.hash :: i in s.entries)
    ensures var (t, i) := Attached(s, a, at); Tracks(t, handles + multiset{i})
  {
    hide Lookup;
    hide KeyOf;
    hide Same;
    LookupIn(s, s.hash, a);
  }

  lemma AttachedPersists(s: Store, a: Attr, at: Id)
    requires at !in s.entries
    ensures Persists(s, Attached(s, a, at).0)
  {
    hide Lookup;
    hide KeyOf;
    hide Same;
  }

  lemma AttachedParts(s: Store, a: Attr, at: Id)
    ensures Attached(s, a, at).0.parts == s.parts
  {
    hide Lookup;
  }

  lemma InternPersists(s: Store, a: Attr, at: Id)
    requires at !in s.entries
    ensures Persists(s, InternAttr(s, a, at).0)
  {
    hide Adopted;
    AdoptedShrinks(s, a);
    var (r, b) := Adopted(s, a);
    AttachedPersists(r, b, at);
    AttachedParts(r, b, at);
    hide Attached;
  }

  lemma TracksOn(s: Store, t: Store, handles: multiset<Id>)
    requires Tracks(s, handles) && t.entries == s.entries
    ensures Tracks(t, handles)
  {
  }

  lemma HashEntries(s: Store)
    requires Inv(s)
    ensures forall i | i in s.hash :: i in s.entries
  {
    hide PartsOf;
    hide Same;
    hide Counted;
  }

  lemma InternTracks(s: Store, a: Attr, at: Id, handles: multiset<Id>)
    requires Inv(s) && Typed(s, a) && at !in s.entries && Tracks(s, handles)
    ensures var (t, i) := InternAttr(s, a, at); Tracks(t, handles + multiset{i})
  {
    hide Balanced;
    hide Typed;
    hide Adopted;
    hide Attached;
    hide PartsOf;
    hide Tracks;
    HashEntries(s);
    AdoptedShrinks(s, a);
    AdoptedKeeps(s, s.outside, a);
    var (r, b) := Adopted(s, a);
    TracksOn(s, r, handles);
    AttachedTracks(r, b, at, handles);
  }

  lemma UninternTracks(s: Store, i: Id, handles: multiset<Id>)
    requires i in s.entries && s.entries[i].refcnt > 0 && Tracks(s, handles)
    ensures Tracks(UninternAttr(s, i), handles - multiset{i})
  {
    hide Released;
    ReleasedShrinks(Detached(s, i), s.entries[i].attr);
  }

  lemma UninternPersists(s: Store, i: Id)
    requires i in s.entries && s.entries[i].refcnt > 0
    ensures Persists(s, UninternAttr(s, i))
  {
    hide Released;
    ReleasedShrinks(Detached(s, i), s.entries[i].attr);
  }

  lemma StepPersists(s: Store, step: Step)
    requires Proper(s, step)
    ensures Persists(s, StepOf(s, step))
    ensures !step.InternOne? && !step.UninternOne? ==> StepOf(s, step).entries == s.entries
  {
    hide Typed;
    match step {
      case InternOne(a, at) =>
        hide InternAttr;
        hide Persists;
        InternPersists(s, a, at);
      case UninternOne(i) =>
        hide UninternAttr;
        hide Persists;
        UninternPersists(s, i);
      case _ =>
    }
  }

  lemma StepTracks(s: Store, step: Step, handles: multiset<Id>)
    requires Inv(s) && Proper(s, step) && Tracks(s, handles)
    ensures Tracks(StepOf(s, step), After(s, step, handles))
  {
    hide Inv;
    hide Typed;
    hide Tracks;
    match step {
      case InternOne(a, at) =>
        hide InternAttr;
        InternTracks(s, a, at, handles);
      case UninternOne(i) =>
        hide UninternAttr;
        UninternTracks(s, i, handles);
      case _ =>
        StepPersists(s, step);
        hide StepOf;
        hide Persists;
        TracksOn(s, StepOf(s, step), handles);
    }
  }

  ghost function AfterAll(s: Store, steps: seq<Step>, handles: multiset<Id>): multiset<Id>
    requires ProperRun(s, steps)
    decreases steps
  {
    if steps == [] then handles else AfterAll(StepOf(s, steps[0]), steps[1..], After(s, steps[0], handles))
  }

  lemma {:induction false} RunTracks(s: Store, steps: seq<Step>, handles: multiset<Id>)
    requires Inv(s) && ProperRun(s, steps) && Tracks(s, handles)
    ensures Tracks(Run(s, steps), AfterAll(s, steps, handles))
    decreases steps
  {
    hide Inv;
    hide Tracks;
    hide StepOf;
    hide Proper;
    hide After;
    if steps != [] {
      StepKeeps(s, steps[0]);
      StepTracks(s, steps[0], handles);
      RunTracks(StepOf(s, steps[0]), steps[1..], After(s, steps[0], handles));
    }
  }

  lemma EntriesCounted(s: Store)
    requires Inv(s)
    ensures forall i | i in s.entries :: s.entries[i].refcnt > 0
  {
    hide PartsOf;
    hide Same;
    hide Counted;
  }

  /**
   Over every run: callers hold each interned attribute as often as it is referenced, so that it is there exactly
   until the last of them has given it up.
   */
  lemma HandlesCount(steps: seq<Step>)
    requires ProperRun(EMPTY, steps)
    ensures var s, h := Run(EMPTY, steps), AfterAll(EMPTY, steps, multiset{});
            && (forall i | i in s.entries :: s.entries[i].refcnt == h[i])
            && (forall i :: i in s.entries <==> i in h)
  {
    assert Inv(EMPTY) && Tracks(EMPTY, multiset{});
    hide Run;
    hide ProperRun;
    RunTracks(EMPTY, steps, multiset{});
    RunInv(EMPTY, steps);
    var s, h := Run(EMPTY, steps), AfterAll(EMPTY, steps, multiset{});
    EntriesCounted(s);
    hide Inv;
  }

  /** The attribute stays interned throughout the run. */
  ghost predicate StaysIn(s: Store, steps: seq<Step>, i: Id)
    requires ProperRun(s, steps)
    decreases steps
  {
    i in s.entries && (steps != [] ==> StaysIn(StepOf(s, steps[0]), steps[1..], i))
  }

  lemma PartsThere(s: Store, held: multiset<Id>, i: Id)
    requires Balanced(s, held) && i in s.entries
    ensures forall id | id in PartsOf(s.entries[i].attr) :: id in s.parts
  {
    hide PartsOf;
    hide Same;
    hide Counted;
  }

  /** `o` is one of the parts. */
  lemma FieldParts(a: Attr)
    ensures forall o | o in {a.aspath, a.community} :: o.Some? ==> o.value in PartsOf(a)
    ensures a.extra.Some? ==>
              var x := a.extra.value;
              forall o | o in {x.ecommunity, x.cluster, x.transit} :: o.Some? ==> o.value in PartsOf(a)
  {
  }

  lemma ValuePersists(s: Store, t: Store, a: Attr, o: Option<Id>)
    requires Persists(s, t) && (o.Some? ==> o.value in PartsOf(a))
    requires forall id | id in PartsOf(a) :: id in s.parts && id in t.parts
    ensures ValueOf(s, o) == ValueOf(t, o)
  {
  }

  lemma PersistContents(s: Store, t: Store, i: Id)
    requires Inv(s) && Inv(t) && Persists(s, t) && i in s.entries && i in t.entries
    ensures t.entries[i].attr == s.entries[i].attr && SameContents(s, s.entries[i].attr, t, t.entries[i].attr)
  {
    var a := s.entries[i].attr;
    assert t.entries[i].attr == a;
    hide Balanced;
    PartsThere(s, s.outside, i);
    PartsThere(t, t.outside, i);
    FieldParts(a);
    hide PartsOf;
    ValuePersists(s, t, a, a.aspath);
    ValuePersists(s, t, a, a.community);
    if a.extra.Some? {
      var x := a.extra.value;
      ValuePersists(s, t, a, x.ecommunity);
      ValuePersists(s, t, a, x.cluster);
      ValuePersists(s, t, a, x.transit);
      EncapSameSets(x.subs, x.subs);
      hide EncapSame;
    }
    hide ValueOf;
    hide Persists;
  }

  lemma SameOn(s: Store, t: Store, u: Store, a: Attr)
    requires SameContents(s, a, t, a) && SameContents(t, a, u, a)
    ensures SameContents(s, a, u, a)
  {
    hide ValueOf;
    hide EncapSame;
  }

  /** Whatever else is interned and given up: as long as an attribute is interned, its contents are what they were. */
  lemma {:induction false} ContentsStay(s: Store, steps: seq<Step>, i: Id)
    requires Inv(s) && ProperRun(s, steps) && StaysIn(s, steps, i)
    ensures var t := Run(s, steps);
            i in t.entries && t.entries[i].attr == s.entries[i].attr
            && SameContents(s, s.entries[i].attr, t, t.entries[i].attr)
    decreases steps
  {
    hide Inv;
    hide StepOf;
    hide Proper;
    hide SameContents;
    if steps == [] {
      PersistContents(s, s, i);
    } else {
      var t := StepOf(s, steps[0]);
      StepKeeps(s, steps[0]);
      StepPersists(s, steps[0]);
      ContentsStay(t, steps[1..], i);
      PersistContents(s, t, i);
      hide Persists;
      SameOn(s, t, Run(s, steps), s.entries[i].attr);
    }
  }
}
