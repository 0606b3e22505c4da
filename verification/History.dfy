/**
  Listening history as last-writer-wins rows (db/queries.sql.go: upsertHistoryItem,
  tombstoneHistoryItem, trimHistory), for one user. The theorem is convergence: any order of
  delivery, with any repetitions and with trims inserted anywhere, ends in the same visible rows.
 */
module History {
  import opened Common

  type Uuid = string
  datatype Payload = Payload(podcast: string, title: string, url: string, published: Option<int>)

  /** A tombstone keeps the payload columns of the row it hits; `deleted` hides them. */
  datatype Row = Row(modifiedAt: int, deleted: bool, payload: Payload)
  type Table = map<Uuid, Row>

  datatype Change =
    | Upsert(uuid: Uuid, modifiedAt: int, payload: Payload)
    | Tombstone(uuid: Uuid, modifiedAt: int)

  /** What a reader can tell apart: a tombstone is its time stamp and nothing else. */
  datatype Visible = Live(modifiedAt: int, payload: Payload) | Gone(modifiedAt: int)

  function Shown(r: Row): Visible {
    if r.deleted then Gone(r.modifiedAt) else Live(r.modifiedAt, r.payload)
  }

  function ShownChange(c: Change): Visible {
    match c
    case Upsert(_, m, payload) => Live(m, payload)
    case Tombstone(_, m) => Gone(m)
  }

  function View(t: Table): map<Uuid, Visible> {
    map u | u in t :: Shown(t[u])
  }

  const NO_PAYLOAD := Payload("", "", "", None)

  /** INSERT ... ON CONFLICT DO UPDATE ... WHERE EXCLUDED.modified_at > history.modified_at. */
  function Apply(t: Table, c: Change): Table {
    if c.uuid in t && c.modifiedAt <= t[c.uuid].modifiedAt then t
    else t[c.uuid := match c
                     case Upsert(_, m, payload) => Row(m, false, payload)
                     case Tombstone(u, m) => Row(m, true, if u in t then t[u].payload else NO_PAYLOAD)]
  }

  function ApplyAll(t: Table, cs: seq<Change>): Table
    decreases |cs|
  {
    if cs == [] then t else ApplyAll(Apply(t, cs[0]), cs[1..])
  }

  function Min(a: nat, b: nat): nat { if a < b then a else b }

  /**
    Any answer the trim statement may give: it keeps `limit` rows, or all of them, and none that
    is older than a row it drops. Rows with equal time stamps may go either way.
   */
  ghost predicate IsTrim(t: Table, limit: nat, kept: Table) {
    && kept.Keys <= t.Keys
    && (forall u :: u in kept ==> kept[u] == t[u])
    && |kept| == Min(limit, |t|)
    && (forall u, d :: u in kept && d in t && d !in kept ==> t[d].modifiedAt <= t[u].modifiedAt)
  }

  // ---------------------------------------------------------------- runs

  datatype Op = Deliver(change: Change) | Trim(limit: nat)

  ghost predicate OpTo(t: Table, op: Op, t': Table) {
    match op
    case Deliver(c) => t' == Apply(t, c)
    case Trim(limit) => IsTrim(t, limit, t')
  }

  ghost predicate RunsTo(t: Table, ops: seq<Op>, t': Table)
    decreases |ops|
  {
    if ops == [] then t' == t
    else exists mid :: OpTo(t, ops[0], mid) && RunsTo(mid, ops[1..], t')
  }

  function Delivered(ops: seq<Op>): seq<Change>
    decreases |ops|
  {
    if ops == [] then []
    else (if ops[0].Deliver? then [ops[0].change] else []) + Delivered(ops[1..])
  }

  predicate TrimsAtLeast(ops: seq<Op>, limit: nat) {
    forall i :: 0 <= i < |ops| && ops[i].Trim? ==> limit <= ops[i].limit
  }

  /** Distinct time stamps; the same change may be delivered again. */
  ghost predicate DistinctStamps(cs: set<Change>) {
    forall c, d :: c in cs && d in cs && c.modifiedAt == d.modifiedAt ==> c == d
  }

  // ---------------------------------------------------------------- last writer wins

  /** The table holds, for every episode named, the change with the greatest time stamp. */
  ghost predicate Winners(t: Table, cs: set<Change>) {
    && (forall c :: c in cs ==> c.uuid in t && c.modifiedAt <= t[c.uuid].modifiedAt)
    && (forall u :: u in t ==> exists c :: c in cs && c.uuid == u && ShownChange(c) == Shown(t[u]))
  }

  lemma ShownStamp(c: Change, r: Row)
    requires ShownChange(c) == Shown(r)
    ensures c.modifiedAt == r.modifiedAt
  {
  }

  lemma ApplyKeepsWinners(t: Table, cs: set<Change>, c: Change)
    requires Winners(t, cs)
    ensures Winners(Apply(t, c), cs + {c})
  {
    var t' := Apply(t, c);
    forall u | u in t' ensures exists d :: d in cs + {c} && d.uuid == u && ShownChange(d) == Shown(t'[u]) {
      if u in t && t'[u] == t[u] {
        var d :| d in cs && d.uuid == u && ShownChange(d) == Shown(t[u]);
        assert d in cs + {c};
      } else {
        assert c in cs + {c} && ShownChange(c) == Shown(t'[u]);
      }
    }
  }

  lemma {:induction false} ApplyAllKeepsWinners(t: Table, seen: set<Change>, cs: seq<Change>)
    requires Winners(t, seen)
    ensures Winners(ApplyAll(t, cs), seen + (set c | c in cs))
    decreases |cs|
  {
    if cs == [] {
      assert seen + (set c | c in cs) == seen;
    } else {
      var rest := cs[1..];
      assert seen + (set c | c in cs) == (seen + {cs[0]}) + (set c | c in rest) by {
        forall c | c in cs ensures c == cs[0] || c in rest {
          var i :| 0 <= i < |cs| && cs[i] == c;
          if i > 0 { assert rest[i - 1] == c; }
        }
      }
      ApplyKeepsWinners(t, seen, cs[0]);
      ApplyAllKeepsWinners(Apply(t, cs[0]), seen + {cs[0]}, rest);
    }
  }

  lemma WinnersAgreeAt(a: Table, b: Table, cs: set<Change>, u: Uuid)
    requires Winners(a, cs) && Winners(b, cs) && DistinctStamps(cs) && u in a
    ensures u in b && Shown(a[u]) == Shown(b[u])
  {
    var c :| c in cs && c.uuid == u && ShownChange(c) == Shown(a[u]);
    var d :| d in cs && d.uuid == u && ShownChange(d) == Shown(b[u]);
    ShownStamp(c, a[u]);
    ShownStamp(d, b[u]);
  }

  lemma ViewsEqual(a: Table, b: Table)
    requires a.Keys == b.Keys && forall u :: u in a ==> Shown(a[u]) == Shown(b[u])
    ensures View(a) == View(b)
  {
  }

  /** Two tables of winners of the same changes show the same rows. */
  lemma WinnersAgree(a: Table, b: Table, cs: set<Change>)
    requires Winners(a, cs) && Winners(b, cs) && DistinctStamps(cs)
    ensures View(a) == View(b)
  {
    forall u | u in a ensures u in b && Shown(a[u]) == Shown(b[u]) {
      WinnersAgreeAt(a, b, cs, u);
    }
    forall u | u in b ensures u in a {
      WinnersAgreeAt(b, a, cs, u);
    }
    ViewsEqual(a, b);
  }

  /** Untrimmed delivery does not depend on order or repetition. */
  lemma DeliveryOrderIrrelevant(a: seq<Change>, b: seq<Change>)
    requires (set c | c in a) == (set c | c in b) && DistinctStamps(set c | c in a)
    ensures View(ApplyAll(map[], a)) == View(ApplyAll(map[], b))
  {
    var cs := set c | c in a;
    assert {} + cs == cs;
    ApplyAllKeepsWinners(map[], {}, a);
    ApplyAllKeepsWinners(map[], {}, b);
    WinnersAgree(ApplyAll(map[], a), ApplyAll(map[], b), cs);
  }

  // ---------------------------------------------------------------- trimming early is harmless

  function Newer(t: Table, u: Uuid): set<Uuid>
    requires u in t
  {
    set v | v in t && t[v].modifiedAt > t[u].modifiedAt
  }

  /** Among the `limit` newest rows. */
  predicate AmongNewest(t: Table, limit: nat, u: Uuid) {
    u in t && |Newer(t, u)| < limit
  }

  ghost predicate StampsDiffer(t: Table) {
    forall u, v :: u in t && v in t && t[u].modifiedAt == t[v].modifiedAt ==> u == v
  }

  /** `s` may have lost or forgotten old rows of the untrimmed `full`, but none of its newest. */
  ghost predicate Tracks(s: Table, full: Table, limit: nat) {
    && s.Keys <= full.Keys
    && (forall u :: u in s ==> s[u].modifiedAt <= full[u].modifiedAt)
    && (forall u :: AmongNewest(full, limit, u) ==> u in s && Shown(s[u]) == Shown(full[u]))
  }

  lemma WinnersStampsDiffer(t: Table, cs: set<Change>)
    requires Winners(t, cs) && DistinctStamps(cs)
    ensures StampsDiffer(t)
  {
    forall u, v | u in t && v in t && t[u].modifiedAt == t[v].modifiedAt ensures u == v {
      var c :| c in cs && c.uuid == u && ShownChange(c) == Shown(t[u]);
      var d :| d in cs && d.uuid == v && ShownChange(d) == Shown(t[v]);
      ShownStamp(c, t[u]);
      ShownStamp(d, t[v]);
    }
  }

  /** A newest row after a delivery is the delivered one, or was newest before. */
  lemma NewestBeforeDelivery(full: Table, limit: nat, c: Change, u: Uuid)
    requires AmongNewest(Apply(full, c), limit, u) && (u != c.uuid || Apply(full, c) == full)
    ensures AmongNewest(full, limit, u) && Apply(full, c)[u] == full[u]
  {
    SubsetSize(Newer(full, u), Newer(Apply(full, c), u));
  }

  lemma DeliverKeepsTracks(s: Table, full: Table, limit: nat, c: Change)
    requires Tracks(s, full, limit)
    ensures Tracks(Apply(s, c), Apply(full, c), limit)
  {
    var s', full' := Apply(s, c), Apply(full, c);
    forall u | AmongNewest(full', limit, u) ensures u in s' && Shown(s'[u]) == Shown(full'[u]) {
      if u != c.uuid || full' == full {
        NewestBeforeDelivery(full, limit, c, u);
      }
    }
  }

  lemma TrimKeepsTracks(s: Table, full: Table, limit: nat, n: nat, s': Table)
    requires Tracks(s, full, limit) && StampsDiffer(full)
    requires IsTrim(s, n, s') && limit <= n
    ensures Tracks(s', full, limit)
  {
    forall u | AmongNewest(full, limit, u) ensures u in s' {
      if u !in s' {
        SubsetSize(s'.Keys, s.Keys);
        assert |s'.Keys| == n;
        SubsetSize(s'.Keys, Newer(full, u));
      }
    }
  }

  /** What a run keeps; `seen` are the changes delivered so far, `all` those ever delivered. */
  ghost predicate OnTrack(s: Table, full: Table, seen: set<Change>, all: set<Change>, limit: nat) {
    Tracks(s, full, limit) && Winners(full, seen) && seen <= all && DistinctStamps(all)
  }

  lemma DeliverStaysOnTrack(s: Table, full: Table, seen: set<Change>, all: set<Change>, limit: nat, c: Change)
    requires OnTrack(s, full, seen, all, limit) && c in all
    ensures OnTrack(Apply(s, c), Apply(full, c), seen + {c}, all, limit)
  {
    DeliverKeepsTracks(s, full, limit, c);
    ApplyKeepsWinners(full, seen, c);
  }

  lemma TrimStaysOnTrack(s: Table, full: Table, seen: set<Change>, all: set<Change>, limit: nat, n: nat, s': Table)
    requires OnTrack(s, full, seen, all, limit) && IsTrim(s, n, s') && limit <= n
    ensures OnTrack(s', full, seen, all, limit)
  {
    WinnersStampsDiffer(full, seen);
    TrimKeepsTracks(s, full, limit, n, s');
  }

  /** Everything the operations deliver is in `all`. */
  ghost predicate Supplied(ops: seq<Op>, all: set<Change>) {
    forall c :: c in Delivered(ops) ==> c in all
  }

  lemma DeliveredStep(ops: seq<Op>, full: Table, all: set<Change>, limit: nat)
    requires ops != [] && Supplied(ops, all) && TrimsAtLeast(ops, limit)
    ensures Supplied(ops[1..], all) && TrimsAtLeast(ops[1..], limit)
    ensures ops[0].Deliver? ==> ops[0].change in all
                                && ApplyAll(full, Delivered(ops))
                                  == ApplyAll(Apply(full, ops[0].change), Delivered(ops[1..]))
    ensures ops[0].Trim? ==>
              limit <= ops[0].limit && ApplyAll(full, Delivered(ops)) == ApplyAll(full, Delivered(ops[1..]))
  {
    if ops[0].Deliver? {
      assert Delivered(ops) == [ops[0].change] + Delivered(ops[1..]);
      assert Delivered(ops)[1..] == Delivered(ops[1..]);
    } else {
      assert Delivered(ops) == Delivered(ops[1..]);
    }
  }

  /** The whole run keeps track of the untrimmed table. */
  lemma {:induction false} RunTracks(s: Table, full: Table, seen: set<Change>, all: set<Change>, ops: seq<Op>,
                                     limit: nat, r: Table)
    requires OnTrack(s, full, seen, all, limit) && RunsTo(s, ops, r) && TrimsAtLeast(ops, limit) && Supplied(ops, all)
    ensures Tracks(r, ApplyAll(full, Delivered(ops)), limit)
    decreases |ops|
  {
    if ops != [] {
      var op, rest := ops[0], ops[1..];
      var mid :| OpTo(s, op, mid) && RunsTo(mid, rest, r);
      DeliveredStep(ops, full, all, limit);
      match op {
        case Deliver(c) =>
          DeliverStaysOnTrack(s, full, seen, all, limit, c);
          RunTracks(mid, Apply(full, c), seen + {c}, all, rest, limit, r);
        case Trim(n) =>
          TrimStaysOnTrack(s, full, seen, all, limit, n, mid);
          RunTracks(mid, full, seen, all, rest, limit, r);
      }
    }
  }

  /** A trim keeps only rows among the newest. */
  lemma KeptAreNewest(full: Table, limit: nat, q: Table, u: Uuid)
    requires IsTrim(full, limit, q) && u in q
    ensures AmongNewest(full, limit, u)
  {
    SubsetSize(Newer(full, u), q.Keys - {u});
  }

  lemma KeptInBoth(s: Table, full: Table, limit: nat, r: Table, q: Table, u: Uuid)
    requires Tracks(s, full, limit) && StampsDiffer(full)
    requires IsTrim(s, limit, r) && IsTrim(full, limit, q) && u in q
    ensures u in r && Shown(r[u]) == Shown(q[u])
  {
    TrimKeepsTracks(s, full, limit, limit, r);
    KeptAreNewest(full, limit, q, u);
  }

  lemma TrimSizes(s: Table, full: Table, limit: nat, r: Table, q: Table)
    requires s.Keys <= full.Keys && IsTrim(s, limit, r) && IsTrim(full, limit, q) && q.Keys <= r.Keys
    ensures r.Keys == q.Keys
  {
    SubsetSize(s.Keys, full.Keys);
    assert |r.Keys| <= |q.Keys|;
    SubsetSize(q.Keys, r.Keys);
  }

  /** Trimming a tracking table and trimming the untrimmed one leave the same rows in sight. */
  lemma FinalTrimsAgree(s: Table, full: Table, limit: nat, r: Table, q: Table)
    requires Tracks(s, full, limit) && StampsDiffer(full)
    requires IsTrim(s, limit, r) && IsTrim(full, limit, q)
    ensures View(r) == View(q)
  {
    forall u | u in q ensures u in r && Shown(r[u]) == Shown(q[u]) {
      KeptInBoth(s, full, limit, r, q, u);
    }
    TrimSizes(s, full, limit, r, q);
    ViewsEqual(r, q);
  }

  /**
    Main result: deliver in any order, repeat at will, trim to `limit` or more wherever you like,
    and trim to `limit` at the end: the visible rows are those of delivering everything untrimmed
    and trimming once.
   */
  lemma IncrementalTrimEqualsTrimOnce(ops: seq<Op>, limit: nat, r: Table, s: Table, q: Table)
    requires DistinctStamps(set c | c in Delivered(ops)) && TrimsAtLeast(ops, limit)
    requires RunsTo(map[], ops, s) && IsTrim(s, limit, r)
    requires IsTrim(ApplyAll(map[], Delivered(ops)), limit, q)
    ensures View(r) == View(q)
  {
    var cs := set c | c in Delivered(ops);
    assert {} + cs == cs;
    var empty: Table := map[];
    RunTracks(empty, empty, {}, cs, ops, limit, s);
    ApplyAllKeepsWinners(empty, {}, Delivered(ops));
    WinnersStampsDiffer(ApplyAll(empty, Delivered(ops)), cs);
    FinalTrimsAgree(s, ApplyAll(empty, Delivered(ops)), limit, r, q);
  }

  /** Tables with equal views trim alike, up to what is visible. */
  lemma TrimRespectsView(a: Table, b: Table, limit: nat, r: Table, q: Table)
    requires View(a) == View(b) && StampsDiffer(b)
    requires IsTrim(a, limit, r) && IsTrim(b, limit, q)
    ensures View(r) == View(q)
  {
    assert a.Keys == View(a).Keys == View(b).Keys == b.Keys;
    forall u | u in a ensures Shown(a[u]) == Shown(b[u]) {
      assert View(a)[u] == View(b)[u];
    }
    FinalTrimsAgree(a, b, limit, r, q);
  }

  /** A run with trims shows what a trim of its winners shows. */
  lemma RunShowsWinners(ops: seq<Op>, cs: set<Change>, limit: nat, s: Table, r: Table) returns (full: Table, q: Table)
    requires (set c | c in Delivered(ops)) == cs && DistinctStamps(cs) && TrimsAtLeast(ops, limit)
    requires RunsTo(map[], ops, s) && IsTrim(s, limit, r)
    ensures Winners(full, cs) && StampsDiffer(full) && IsTrim(full, limit, q) && View(r) == View(q)
  {
    full := ApplyAll(map[], Delivered(ops));
    ApplyAllKeepsWinners(map[], {}, Delivered(ops));
    assert {} + cs == cs;
    WinnersStampsDiffer(full, cs);
    q := TrimExists(full, limit);
    IncrementalTrimEqualsTrimOnce(ops, limit, r, s, q);
  }

  /** Main result: two replicas that saw the same changes converge. */
  lemma Convergence(a: seq<Op>, b: seq<Op>, limit: nat, sa: Table, sb: Table, ra: Table, rb: Table)
    requires (set c | c in Delivered(a)) == (set c | c in Delivered(b))
    requires DistinctStamps(set c | c in Delivered(a)) && TrimsAtLeast(a, limit) && TrimsAtLeast(b, limit)
    requires RunsTo(map[], a, sa) && IsTrim(sa, limit, ra)
    requires RunsTo(map[], b, sb) && IsTrim(sb, limit, rb)
    ensures View(ra) == View(rb)
  {
    var cs := set c | c in Delivered(a);
    var fa, qa := RunShowsWinners(a, cs, limit, sa, ra);
    var fb, qb := RunShowsWinners(b, cs, limit, sb, rb);
    WinnersAgree(fa, fb, cs);
    TrimRespectsView(fa, fb, limit, qa, qb);
  }

  lemma {:induction false} NewestOf(us: set<Uuid>, t: Table, w: Uuid) returns (u: Uuid)
    requires us <= t.Keys && w in us
    ensures u in us && forall v :: v in us ==> t[v].modifiedAt <= t[u].modifiedAt
    decreases us
  {
    u := w;
    if v :| v in us - {w} {
      var best := NewestOf(us - {w}, t, v);
      u := if t[best].modifiedAt > t[w].modifiedAt then best else w;
    } else {
      assert forall v :: v in us ==> v == w || v in us - {w};
    }
  }

  lemma PlusOne(t: Table, others: Table, u: Uuid)
    requires u in t && others.Keys == t.Keys - {u}
    ensures |t| == |others| + 1
  {
    assert |t.Keys| == |others.Keys| + 1;
  }

  /** Putting the newest row back on top of a trim of the others. */
  lemma TrimGrows(t: Table, limit: nat, u: Uuid, kept: Table)
    requires u in t && limit > 0 && IsTrim(t - {u}, limit - 1, kept)
    requires forall v :: v in t ==> t[v].modifiedAt <= t[u].modifiedAt
    ensures IsTrim(t, limit, kept[u := t[u]])
  {
    var others, grown := t - {u}, kept[u := t[u]];
    PlusOne(t, others, u);
    PlusOne(grown, kept, u);
    forall v, d | v in grown && d in t && d !in grown ensures t[d].modifiedAt <= t[v].modifiedAt {
      if v != u {
        assert v in kept && d in others && d !in kept;
      }
    }
  }

  /** Every table has a trim: take the newest row, then trim the rest. */
  lemma {:induction false} TrimExists(t: Table, limit: nat) returns (kept: Table)
    ensures IsTrim(t, limit, kept)
    decreases limit
  {
    kept := map[];
    if limit > 0 {
      if w :| w in t.Keys {
        var u := NewestOf(t.Keys, t, w);
        var more := TrimExists(t - {u}, limit - 1);
        TrimGrows(t, limit, u, more);
        kept := more[u := t[u]];
      } else {
        assert t == map[];
      }
    }
  }

  // ---------------------------------------------------------------- the table object

  /** The rows to keep so far, none older than any of the rest. */
  ghost predicate Splits(t: Table, keep: set<Uuid>, rest: set<Uuid>) {
    && keep + rest == t.Keys && keep !! rest
    && (forall u, d :: u in keep && d in rest ==> t[d].modifiedAt <= t[u].modifiedAt)
  }

  lemma SplitsNext(t: Table, keep: set<Uuid>, rest: set<Uuid>, u: Uuid)
    requires Splits(t, keep, rest) && u in rest && forall v :: v in rest ==> t[v].modifiedAt <= t[u].modifiedAt
    ensures Splits(t, keep + {u}, rest - {u})
  {
  }

  lemma KeptIsTrim(t: Table, limit: nat, keep: set<Uuid>, rest: set<Uuid>)
    requires Splits(t, keep, rest) && |keep| <= limit
    requires |keep| < limit ==> forall u :: u !in rest
    ensures IsTrim(t, limit, t - rest)
  {
    assert (t - rest).Keys == keep;
    assert |t.Keys| == |keep| + |rest|;
    assert |keep| < limit ==> rest == {};
  }

  class HistoryTable {
    var rows: Table

    constructor ()
      ensures rows == map[]
    {
      rows := map[];
    }

    method UpsertItem(uuid: Uuid, modifiedAt: int, payload: Payload)
      modifies this
      ensures rows == Apply(old(rows), Upsert(uuid, modifiedAt, payload))
    {
      if uuid !in rows || modifiedAt > rows[uuid].modifiedAt {
        rows := rows[uuid := Row(modifiedAt, false, payload)];
      }
    }

    method TombstoneItem(uuid: Uuid, modifiedAt: int)
      modifies this
      ensures rows == Apply(old(rows), Tombstone(uuid, modifiedAt))
    {
      if uuid !in rows {
        rows := rows[uuid := Row(modifiedAt, true, NO_PAYLOAD)];
      } else if modifiedAt > rows[uuid].modifiedAt {
        rows := rows[uuid := rows[uuid].(modifiedAt := modifiedAt, deleted := true)];
      }
    }

    /** The newest of a set of rows; ties go to whichever comes first. */
    method Newest(us: set<Uuid>, first: Uuid) returns (u: Uuid)
      requires us <= rows.Keys && first in us
      ensures u in us && forall v :: v in us ==> rows[v].modifiedAt <= rows[u].modifiedAt
    {
      u := first;
      var rest := us;
      while exists v :: v in rest
        invariant rest <= us && u in us
        invariant forall v :: v in us && v !in rest ==> rows[v].modifiedAt <= rows[u].modifiedAt
        decreases rest
      {
        var v :| v in rest;
        if rows[v].modifiedAt > rows[u].modifiedAt {
          u := v;
        }
        rest := rest - {v};
      }
    }

    /** DELETE all but the first `limit` rows in descending order of `modified_at`. */
    method TrimRows(limit: nat)
      modifies this
      ensures IsTrim(old(rows), limit, rows)
    {
      var keep: set<Uuid>, rest := {}, rows.Keys;
      while |keep| < limit && exists u :: u in rest
        invariant rows == old(rows) && |keep| <= limit && Splits(rows, keep, rest)
        decreases rest
      {
        var some :| some in rest;
        var u := Newest(rest, some);
        SplitsNext(rows, keep, rest, u);
        keep, rest := keep + {u}, rest - {u};
      }
      KeptIsTrim(rows, limit, keep, rest);
      rows := rows - rest;
    }
  }
}
