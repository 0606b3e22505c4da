/**
  Listening history when time stamps may be equal: exactly which sets of changes converge, with
  and without trims. Two things can go wrong. Changes of one episode with equal stamps: the first
  one delivered stays. Rows of different episodes with equal stamps: a trim may keep either.
 */
module HistoryTies {
  import opened Common
  import opened History

  // ---------------------------------------------------------------- untrimmed delivery

  /** Equal stamps on one episode: the first delivery stays, so the order shows. */
  lemma EqualStampsDependOnOrder()
    ensures exists a: Change, b: Change :: a.uuid == b.uuid && a.modifiedAt == b.modifiedAt
              && View(ApplyAll(map[], [a, b])) != View(ApplyAll(map[], [b, a]))
  {
    var a, b := Upsert("e", 1, Payload("p", "one", "", None)), Tombstone("e", 1);
    var empty: Table := map[];
    assert [a, b][1..] == [b] && [b][1..] == [] && [b, a][1..] == [a] && [a][1..] == [];
    assert ApplyAll(empty, [a, b]) == ApplyAll(Apply(empty, a), [b]) == Apply(Apply(empty, a), b);
    assert ApplyAll(empty, [b, a]) == ApplyAll(Apply(empty, b), [a]) == Apply(Apply(empty, b), a);
    assert View(ApplyAll(empty, [a, b]))["e"] != View(ApplyAll(empty, [b, a]))["e"];
  }

  ghost predicate Topmost(cs: set<Change>, c: Change) {
    c in cs && forall d :: d in cs && d.uuid == c.uuid ==> d.modifiedAt <= c.modifiedAt
  }

  /** The newest changes of an episode, if several, show the same. */
  ghost predicate TopsAgree(cs: set<Change>) {
    forall c, d :: Topmost(cs, c) && Topmost(cs, d) && c.uuid == d.uuid ==> ShownChange(c) == ShownChange(d)
  }

  /** `a` delivers exactly these changes, in some order, perhaps repeatedly. */
  ghost predicate Delivers(a: seq<Change>, cs: set<Change>) {
    (set c | c in a) == cs
  }

  /** However the changes are ordered and repeated, delivery shows the same rows. */
  ghost predicate OrderIrrelevant(cs: set<Change>) {
    forall a, b :: Delivers(a, cs) && Delivers(b, cs) ==> View(ApplyAll(map[], a)) == View(ApplyAll(map[], b))
  }

  lemma TopsDecideAt(a: Table, b: Table, cs: set<Change>, u: Uuid)
    requires Winners(a, cs) && Winners(b, cs) && TopsAgree(cs) && u in a
    ensures u in b && Shown(a[u]) == Shown(b[u])
  {
    var c :| c in cs && c.uuid == u && ShownChange(c) == Shown(a[u]);
    var d :| d in cs && d.uuid == u && ShownChange(d) == Shown(b[u]);
    ShownStamp(c, a[u]);
    ShownStamp(d, b[u]);
    assert Topmost(cs, c) && Topmost(cs, d);
  }

  lemma TopsDecide(a: seq<Change>, b: seq<Change>, cs: set<Change>)
    requires Delivers(a, cs) && Delivers(b, cs) && TopsAgree(cs)
    ensures View(ApplyAll(map[], a)) == View(ApplyAll(map[], b))
  {
    var ta, tb := ApplyAll(map[], a), ApplyAll(map[], b);
    assert {} + cs == cs;
    ApplyAllKeepsWinners(map[], {}, a);
    ApplyAllKeepsWinners(map[], {}, b);
    forall u | u in ta ensures u in tb && Shown(ta[u]) == Shown(tb[u]) {
      TopsDecideAt(ta, tb, cs, u);
    }
    forall u | u in tb ensures u in ta {
      TopsDecideAt(tb, ta, cs, u);
    }
    ViewsEqual(ta, tb);
  }

  /** A row at least as new as everything still to come stays as it is. */
  lemma {:induction false} NewestStays(t: Table, cs: seq<Change>, u: Uuid)
    requires u in t && forall c :: c in cs && c.uuid == u ==> c.modifiedAt <= t[u].modifiedAt
    ensures u in ApplyAll(t, cs) && ApplyAll(t, cs)[u] == t[u]
    decreases |cs|
  {
    if cs != [] {
      assert cs[0] in cs;
      NewestStays(Apply(t, cs[0]), cs[1..], u);
    }
  }

  lemma {:induction false} Listing(cs: set<Change>) returns (l: seq<Change>)
    ensures (set c | c in l) == cs
    decreases cs
  {
    l := [];
    if c :| c in cs {
      var rest := Listing(cs - {c});
      l := [c] + rest;
      assert (set x | x in l) == {c} + (set x | x in rest);
    }
  }

  /** Delivered first, a topmost change decides what its episode shows. */
  lemma FirstDecides(cs: set<Change>, c: Change, l: seq<Change>)
    requires Topmost(cs, c) && Delivers(l, cs)
    ensures Delivers([c] + l, cs)
    ensures c.uuid in View(ApplyAll(map[], [c] + l)) && View(ApplyAll(map[], [c] + l))[c.uuid] == ShownChange(c)
  {
    var first := Apply(map[], c);
    assert ([c] + l)[1..] == l;
    forall x | x in l && x.uuid == c.uuid ensures x.modifiedAt <= first[c.uuid].modifiedAt {
      assert x in cs;
    }
    NewestStays(first, l, c.uuid);
  }

  lemma TopsMustAgree(cs: set<Change>, c: Change, d: Change)
    requires OrderIrrelevant(cs) && Topmost(cs, c) && Topmost(cs, d) && c.uuid == d.uuid
    ensures ShownChange(c) == ShownChange(d)
  {
    var l := Listing(cs);
    FirstDecides(cs, c, l);
    FirstDecides(cs, d, l);
  }

  /** Main result: exactly when the order of untrimmed delivery does not matter. */
  lemma OrderIrrelevantIff(cs: set<Change>)
    ensures OrderIrrelevant(cs) <==> TopsAgree(cs)
  {
    if TopsAgree(cs) {
      forall a, b | Delivers(a, cs) && Delivers(b, cs) ensures View(ApplyAll(map[], a)) == View(ApplyAll(map[], b)) {
        TopsDecide(a, b, cs);
      }
    }
    if OrderIrrelevant(cs) {
      forall c, d | Topmost(cs, c) && Topmost(cs, d) && c.uuid == d.uuid ensures ShownChange(c) == ShownChange(d) {
        TopsMustAgree(cs, c, d);
      }
    }
  }

  // ---------------------------------------------------------------- delivery with trims

  /** Episodes with a newer change than `c`, and other episodes with one at least as new. */
  ghost function Above(cs: set<Change>, c: Change): set<Uuid> {
    set d | d in cs && d.modifiedAt > c.modifiedAt :: d.uuid
  }

  ghost function Rivals(cs: set<Change>, c: Change): set<Uuid> {
    set d | d in cs && d.uuid != c.uuid && d.modifiedAt >= c.modifiedAt :: d.uuid
  }

  /** What some order of delivery leaves, with trims to `limit` or more anywhere and one to `limit` at the end. */
  ghost predicate Outcome(cs: set<Change>, limit: nat, r: Table) {
    exists ops, s :: Ends(cs, limit, ops, s, r)
  }

  ghost predicate Ends(cs: set<Change>, limit: nat, ops: seq<Op>, s: Table, r: Table) {
    && Delivers(Delivered(ops), cs) && TrimsAtLeast(ops, limit)
    && RunsTo(map[], ops, s) && IsTrim(s, limit, r)
  }

  ghost predicate OutcomesAgree(cs: set<Change>, limit: nat) {
    forall r, q :: Outcome(cs, limit, r) && Outcome(cs, limit, q) ==> View(r) == View(q)
  }

  /**
    Every episode that may be among the newest certainly is, ties included, and its newest changes
    show the same.
   */
  ghost predicate Determined(cs: set<Change>, limit: nat) {
    forall c :: Topmost(cs, c) && |Above(cs, c)| < limit ==> |Rivals(cs, c)| < limit && TopAgrees(cs, c)
  }

  ghost predicate TopAgrees(cs: set<Change>, c: Change) {
    forall d :: Topmost(cs, d) && d.uuid == c.uuid ==> ShownChange(d) == ShownChange(c)
  }

  ghost predicate Safe(cs: set<Change>, limit: nat, c: Change) {
    Topmost(cs, c) && |Rivals(cs, c)| < limit
  }

  // ---------------------------------------------------------------- what every run keeps

  ghost predicate FromChanges(s: Table, seen: set<Change>) {
    forall u :: u in s ==> exists c :: c in seen && c.uuid == u && ShownChange(c) == Shown(s[u])
  }

  /** No trim ever drops a safe episode once its newest change has been delivered. */
  ghost predicate KeepsSafe(s: Table, seen: set<Change>, cs: set<Change>, limit: nat) {
    && seen <= cs && FromChanges(s, seen)
    && forall c :: c in seen && Safe(cs, limit, c) ==> c.uuid in s && s[c.uuid].modifiedAt == c.modifiedAt
  }

  lemma DeliverFromChanges(s: Table, seen: set<Change>, c: Change)
    requires FromChanges(s, seen)
    ensures FromChanges(Apply(s, c), seen + {c})
  {
    var s' := Apply(s, c);
    forall u | u in s' ensures exists d :: d in seen + {c} && d.uuid == u && ShownChange(d) == Shown(s'[u]) {
      if u in s && s'[u] == s[u] {
        var d :| d in seen && d.uuid == u && ShownChange(d) == Shown(s[u]);
        assert d in seen + {c};
      } else {
        assert c in seen + {c} && ShownChange(c) == Shown(s'[u]);
      }
    }
  }

  lemma StampFrom(s: Table, seen: set<Change>, u: Uuid) returns (c: Change)
    requires FromChanges(s, seen) && u in s
    ensures c in seen && c.uuid == u && ShownChange(c) == Shown(s[u]) && c.modifiedAt == s[u].modifiedAt
  {
    c :| c in seen && c.uuid == u && ShownChange(c) == Shown(s[u]);
    ShownStamp(c, s[u]);
  }

  lemma DeliverKeepsSafe(s: Table, seen: set<Change>, cs: set<Change>, limit: nat, c: Change)
    requires KeepsSafe(s, seen, cs, limit) && c in cs
    ensures KeepsSafe(Apply(s, c), seen + {c}, cs, limit)
  {
    var s' := Apply(s, c);
    DeliverFromChanges(s, seen, c);
    forall d | d in seen + {c} && Safe(cs, limit, d) ensures d.uuid in s' && s'[d.uuid].modifiedAt == d.modifiedAt {
      if d.uuid in s {
        var e := StampFrom(s, seen, d.uuid);
        assert e in cs && e.modifiedAt <= d.modifiedAt;
      }
    }
  }

  lemma TrimKeepsOneSafe(s: Table, seen: set<Change>, cs: set<Change>, limit: nat, n: nat, s': Table, c: Change)
    requires KeepsSafe(s, seen, cs, limit) && IsTrim(s, n, s') && limit <= n
    requires c in seen && Safe(cs, limit, c)
    ensures c.uuid in s'
  {
    if c.uuid !in s' {
      SubsetSize(s'.Keys, s.Keys);
      assert |s'.Keys| == n;
      forall v | v in s'.Keys ensures v in Rivals(cs, c) {
        var d := StampFrom(s, seen, v);
        assert d in cs && d.modifiedAt >= c.modifiedAt;
      }
      SubsetSize(s'.Keys, Rivals(cs, c));
    }
  }

  lemma TrimKeepsSafe(s: Table, seen: set<Change>, cs: set<Change>, limit: nat, n: nat, s': Table)
    requires KeepsSafe(s, seen, cs, limit) && IsTrim(s, n, s') && limit <= n
    ensures KeepsSafe(s', seen, cs, limit)
  {
    forall c | c in seen && Safe(cs, limit, c) ensures c.uuid in s' && s'[c.uuid].modifiedAt == c.modifiedAt {
      TrimKeepsOneSafe(s, seen, cs, limit, n, s', c);
    }
    forall u | u in s' ensures exists c :: c in seen && c.uuid == u && ShownChange(c) == Shown(s'[u]) {
      var c := StampFrom(s, seen, u);
    }
  }

  /** What has been delivered after one operation more. */
  lemma SeenNext(seen: set<Change>, ops: seq<Op>)
    requires ops != []
    ensures var first := if ops[0].Deliver? then {ops[0].change} else {};
            seen + (set c | c in Delivered(ops)) == seen + first + (set c | c in Delivered(ops[1..]))
  {
    if ops[0].Deliver? {
      assert Delivered(ops) == [ops[0].change] + Delivered(ops[1..]);
    } else {
      assert Delivered(ops) == Delivered(ops[1..]);
    }
  }

  lemma OpKeepsSafe(s: Table, seen: set<Change>, cs: set<Change>, limit: nat, op: Op, s': Table)
    requires KeepsSafe(s, seen, cs, limit) && OpTo(s, op, s')
    requires if op.Deliver? then op.change in cs else limit <= op.limit
    ensures KeepsSafe(s', seen + if op.Deliver? then {op.change} else {}, cs, limit)
  {
    if op.Deliver? {
      DeliverKeepsSafe(s, seen, cs, limit, op.change);
    } else {
      assert seen + {} == seen;
      TrimKeepsSafe(s, seen, cs, limit, op.limit, s');
    }
  }

  lemma {:induction false} RunKeepsSafe(s: Table, seen: set<Change>, cs: set<Change>, limit: nat, ops: seq<Op>,
                                        r: Table)
    requires KeepsSafe(s, seen, cs, limit) && RunsTo(s, ops, r) && TrimsAtLeast(ops, limit) && Supplied(ops, cs)
    ensures KeepsSafe(r, seen + (set c | c in Delivered(ops)), cs, limit)
    decreases |ops|
  {
    if ops == [] {
      assert seen + (set c | c in Delivered(ops)) == seen;
    } else {
      var mid :| OpTo(s, ops[0], mid) && RunsTo(mid, ops[1..], r);
      DeliveredStep(ops, map[], cs, limit);
      OpKeepsSafe(s, seen, cs, limit, ops[0], mid);
      RunKeepsSafe(mid, seen + if ops[0].Deliver? then {ops[0].change} else {}, cs, limit, ops[1..], r);
      SeenNext(seen, ops);
    }
  }

  lemma OutcomeKeepsSafe(cs: set<Change>, limit: nat, r: Table)
    requires Outcome(cs, limit, r)
    ensures KeepsSafe(r, cs, cs, limit) && |r| <= limit
  {
    var ops, s :| Ends(cs, limit, ops, s, r);
    RunKeepsSafe(map[], {}, cs, limit, ops, s);
    assert {} + (set c | c in Delivered(ops)) == cs;
    TrimKeepsSafe(s, cs, cs, limit, limit, r);
  }

  // ---------------------------------------------------------------- determined outcomes agree

  /** The table of all winners, and how it counts what is above a change. */
  lemma FullTable(cs: set<Change>) returns (full: Table)
    ensures Winners(full, cs)
  {
    var l := Listing(cs);
    full := ApplyAll(map[], l);
    ApplyAllKeepsWinners(map[], {}, l);
    assert {} + (set c | c in l) == cs;
  }

  lemma TopOf(full: Table, cs: set<Change>, u: Uuid) returns (c: Change)
    requires Winners(full, cs) && u in full
    ensures Topmost(cs, c) && c.uuid == u && full[u].modifiedAt == c.modifiedAt
  {
    c :| c in cs && c.uuid == u && ShownChange(c) == Shown(full[u]);
    ShownStamp(c, full[u]);
  }

  lemma TopStamp(full: Table, cs: set<Change>, c: Change)
    requires Winners(full, cs) && Topmost(cs, c)
    ensures c.uuid in full && full[c.uuid].modifiedAt == c.modifiedAt
  {
    var d := TopOf(full, cs, c.uuid);
  }

  lemma AboveIsNewer(full: Table, cs: set<Change>, c: Change)
    requires Winners(full, cs) && Topmost(cs, c)
    ensures c.uuid in full && Above(cs, c) == Newer(full, c.uuid)
  {
    TopStamp(full, cs, c);
    forall v | v in Newer(full, c.uuid) ensures v in Above(cs, c) {
      var d := TopOf(full, cs, v);
    }
  }

  lemma NewestIsSafe(full: Table, cs: set<Change>, limit: nat, u: Uuid) returns (c: Change)
    requires Winners(full, cs) && Determined(cs, limit) && AmongNewest(full, limit, u)
    ensures Safe(cs, limit, c) && c.uuid == u
  {
    c := TopOf(full, cs, u);
    AboveIsNewer(full, cs, c);
  }

  /** Only safe episodes are left in the end. */
  lemma LeftAreSafe(cs: set<Change>, limit: nat, r: Table, v: Uuid) returns (c: Change)
    requires Determined(cs, limit) && KeepsSafe(r, cs, cs, limit) && |r| <= limit && v in r
    ensures Safe(cs, limit, c) && c.uuid == v
  {
    var full := FullTable(cs);
    var d := StampFrom(r, cs, v);
    assert v in full;
    var q := TrimExists(full, limit);
    forall u | u in q.Keys ensures u in r.Keys {
      KeptAreNewest(full, limit, q, u);
      var e := NewestIsSafe(full, cs, limit, u);
    }
    SubsetSize(q.Keys, r.Keys);
    SubsetSize(q.Keys, full.Keys);
    assert v in q;
    KeptAreNewest(full, limit, q, v);
    c := NewestIsSafe(full, cs, limit, v);
  }

  lemma OutcomeShows(cs: set<Change>, limit: nat, r: Table, q: Table, v: Uuid)
    requires Determined(cs, limit) && KeepsSafe(r, cs, cs, limit) && |r| <= limit && KeepsSafe(q, cs, cs, limit)
             && v in r
    ensures v in q && Shown(r[v]) == Shown(q[v])
  {
    var c := LeftAreSafe(cs, limit, r, v);
    var d := StampFrom(r, cs, v);
    var e := StampFrom(q, cs, v);
    assert Topmost(cs, d) && Topmost(cs, e);
    assert Above(cs, c) <= Rivals(cs, c);
    SubsetSize(Above(cs, c), Rivals(cs, c));
    assert TopAgrees(cs, c);
  }

  lemma DeterminedAgree(cs: set<Change>, limit: nat, r: Table, q: Table)
    requires Determined(cs, limit) && Outcome(cs, limit, r) && Outcome(cs, limit, q)
    ensures View(r) == View(q)
  {
    OutcomeKeepsSafe(cs, limit, r);
    OutcomeKeepsSafe(cs, limit, q);
    forall v | v in r ensures v in q && Shown(r[v]) == Shown(q[v]) {
      OutcomeShows(cs, limit, r, q, v);
    }
    forall v | v in q ensures v in r {
      OutcomeShows(cs, limit, q, r, v);
    }
    ViewsEqual(r, q);
  }

  // ---------------------------------------------------------------- agreeing outcomes are determined

  function Deliveries(l: seq<Change>): seq<Op> {
    if l == [] then [] else [Deliver(l[0])] + Deliveries(l[1..])
  }

  lemma {:induction false} DeliveriesDeliver(l: seq<Change>, limit: nat)
    ensures Delivered(Deliveries(l)) == l && TrimsAtLeast(Deliveries(l), limit)
    decreases |l|
  {
    if l != [] {
      DeliveriesDeliver(l[1..], limit);
      assert Deliveries(l)[1..] == Deliveries(l[1..]);
    }
  }

  lemma {:induction false} DeliveriesRun(t: Table, l: seq<Change>)
    ensures RunsTo(t, Deliveries(l), ApplyAll(t, l))
    decreases |l|
  {
    if l != [] {
      DeliveriesRun(Apply(t, l[0]), l[1..]);
      assert Deliveries(l)[1..] == Deliveries(l[1..]);
      assert OpTo(t, Deliveries(l)[0], Apply(t, l[0]));
    }
  }

  lemma PlainOutcome(cs: set<Change>, limit: nat, l: seq<Change>, r: Table)
    requires Delivers(l, cs) && IsTrim(ApplyAll(map[], l), limit, r)
    ensures Outcome(cs, limit, r)
  {
    DeliveriesDeliver(l, limit);
    DeliveriesRun(map[], l);
    assert Ends(cs, limit, Deliveries(l), ApplyAll(map[], l), r);
  }

  /** A set of any size in between. */
  lemma {:induction false} Between<T>(a: set<T>, b: set<T>, n: nat) returns (k: set<T>)
    requires a <= b && |a| <= n <= |b|
    ensures a <= k <= b && |k| == n
    decreases n - |a|
  {
    k := a;
    if |a| < n {
      assert |b - a| == |b| - |a|;
      assert (forall x :: x !in b - a) ==> b - a == {};
      if x :| x in b - a {
        k := Between(a + {x}, b, n);
      }
    }
  }

  /** Any choice among the tied rows at the limit is a trim. */
  lemma ChosenTrim(full: Table, cs: set<Change>, limit: nat, c: Change, k: set<Uuid>) returns (r: Table)
    requires Winners(full, cs) && Topmost(cs, c)
    requires Above(cs, c) <= k <= Rivals(cs, c) + {c.uuid} && |k| == limit
    ensures IsTrim(full, limit, r) && r.Keys == k
  {
    TopStamp(full, cs, c);
    AboveIsNewer(full, cs, c);
    forall v | v in k ensures v in full && full[v].modifiedAt >= c.modifiedAt {
      if v != c.uuid {
        var d :| d in cs && d.uuid == v && d.modifiedAt >= c.modifiedAt;
      }
    }
    r := map v | v in k :: full[v];
    SubsetSize(k, full.Keys);
    assert r.Keys == k;
  }

  lemma ChosenOutcome(cs: set<Change>, limit: nat, c: Change, k: set<Uuid>) returns (r: Table)
    requires Topmost(cs, c) && Above(cs, c) <= k <= Rivals(cs, c) + {c.uuid} && |k| == limit
    ensures Outcome(cs, limit, r) && r.Keys == k
  {
    var l := Listing(cs);
    var full := ApplyAll(map[], l);
    ApplyAllKeepsWinners(map[], {}, l);
    assert {} + (set x | x in l) == cs;
    r := ChosenTrim(full, cs, limit, c, k);
    PlainOutcome(cs, limit, l, r);
  }

  /** A tie at the limit leaves the choice to the trim. */
  lemma TieDiverges(cs: set<Change>, limit: nat, c: Change) returns (r: Table, q: Table)
    requires Topmost(cs, c) && |Above(cs, c)| < limit <= |Rivals(cs, c)|
    ensures Outcome(cs, limit, r) && Outcome(cs, limit, q) && c.uuid in View(r) && c.uuid !in View(q)
  {
    assert Above(cs, c) <= Rivals(cs, c);
    var k := Between(Above(cs, c) + {c.uuid}, Rivals(cs, c) + {c.uuid}, limit);
    var m := Between(Above(cs, c), Rivals(cs, c), limit);
    r := ChosenOutcome(cs, limit, c, k);
    q := ChosenOutcome(cs, limit, c, m);
  }

  lemma NoTieAtLimit(cs: set<Change>, limit: nat, c: Change)
    requires OutcomesAgree(cs, limit) && Topmost(cs, c) && |Above(cs, c)| < limit
    ensures |Rivals(cs, c)| < limit
  {
    if |Rivals(cs, c)| >= limit {
      var r, q := TieDiverges(cs, limit, c);
    }
  }

  lemma SafeShows(cs: set<Change>, limit: nat, c: Change, l: seq<Change>) returns (r: Table)
    requires Safe(cs, limit, c) && Delivers(l, cs)
    ensures Outcome(cs, limit, r) && c.uuid in View(r) && View(r)[c.uuid] == ShownChange(c)
  {
    FirstDecides(cs, c, l);
    var t := ApplyAll(map[], [c] + l);
    r := TrimExists(t, limit);
    PlainOutcome(cs, limit, [c] + l, r);
    OutcomeKeepsSafe(cs, limit, r);
    assert View(t)[c.uuid] == Shown(t[c.uuid]) && r[c.uuid] == t[c.uuid];
  }

  lemma TopsOfNewestAgree(cs: set<Change>, limit: nat, c: Change, d: Change)
    requires OutcomesAgree(cs, limit) && Safe(cs, limit, c) && Topmost(cs, d) && d.uuid == c.uuid
    ensures ShownChange(d) == ShownChange(c)
  {
    var l := Listing(cs);
    assert d.modifiedAt == c.modifiedAt && Rivals(cs, d) == Rivals(cs, c);
    var r := SafeShows(cs, limit, c, l);
    var q := SafeShows(cs, limit, d, l);
    assert View(r) == View(q);
  }

  /**
    Main result: exactly when all orders of delivery, with trims anywhere, end in the same visible
    rows. Distinct stamps are one way to meet the condition.
   */
  lemma OutcomesAgreeIff(cs: set<Change>, limit: nat)
    ensures OutcomesAgree(cs, limit) <==> Determined(cs, limit)
  {
    if Determined(cs, limit) {
      forall r, q | Outcome(cs, limit, r) && Outcome(cs, limit, q) ensures View(r) == View(q) {
        DeterminedAgree(cs, limit, r, q);
      }
    }
    if OutcomesAgree(cs, limit) {
      forall c | Topmost(cs, c) && |Above(cs, c)| < limit ensures |Rivals(cs, c)| < limit && TopAgrees(cs, c) {
        NoTieAtLimit(cs, limit, c);
        forall d | Topmost(cs, d) && d.uuid == c.uuid ensures ShownChange(d) == ShownChange(c) {
          TopsOfNewestAgree(cs, limit, c, d);
        }
      }
    }
  }

  lemma DistinctAreDetermined(cs: set<Change>, limit: nat)
    requires DistinctStamps(cs)
    ensures Determined(cs, limit)
  {
    forall c | Topmost(cs, c) && |Above(cs, c)| < limit ensures |Rivals(cs, c)| < limit && TopAgrees(cs, c) {
      assert Rivals(cs, c) == Above(cs, c);
    }
  }

  lemma TiedPair(c: Change, d: Change)
    requires c.uuid != d.uuid && c.modifiedAt == d.modifiedAt
    ensures TopsAgree({c, d}) && Topmost({c, d}, c) && |Above({c, d}, c)| < 1 <= |Rivals({c, d}, c)|
  {
    var cs := {c, d};
    assert Above(cs, c) == {};
    assert d in cs && d.uuid in Rivals(cs, c);
    SubsetSize({d.uuid}, Rivals(cs, c));
  }

  /** The failing case is real: two episodes with one stamp, and room for one of them. */
  lemma TiedEpisodesDiverge()
    ensures exists cs: set<Change>, limit: nat :: TopsAgree(cs) && !OutcomesAgree(cs, limit)
  {
    var c, d := Tombstone("e", 1), Tombstone("f", 1);
    TiedPair(c, d);
    var r, q := TieDiverges({c, d}, 1, c);
    assert !OutcomesAgree({c, d}, 1);
  }
}
