/**
  Repair of suggested folders (handlers/folders.go): whatever the suggestion says, every
  submitted podcast ends in exactly one of at most eight folders. Trimming and lower-casing of
  names are parameters; names and ids are strings of code units.
 */
module Folders {
  import opened Common
  import opened Sorting

  type Name = seq<int>
  type Uuid = seq<int>
  type Groups = map<Name, seq<Uuid>>

  const MAX_FOLDERS := 8

  // ---------------------------------------------------------------- which folder a podcast is in

  /** The suggestion names the podcast exactly once overall, and this group does. */
  ghost predicate NamedOnceBy(groups: Groups, u: Uuid, g: Name) {
    && g in groups && multiset(groups[g])[u] == 1
    && (forall h :: h in groups && h != g ==> u !in groups[h])
  }

  /** The fallback name and the text functions of the language at hand. */
  datatype Naming = Naming(other: Name, trim: Name -> Name, lower: Name -> Name) {

    /** A group's own name: trimmed, or the fallback when blank. */
    function Display(raw: Name): Name {
      if trim(raw) == [] then other else trim(raw)
    }

    function Key(raw: Name): Name {
      lower(Display(raw))
    }

    /** What the groups are sorted by. */
    function Fold(raw: Name): Name {
      lower(trim(raw))
    }

    predicate Earlier(a: Name, b: Name) {
      AtMost(Fold(a), Fold(b))
    }
  }

  /** For each name up to case, the group whose spelling is used: none with that name is sorted before it. */
  ghost predicate Spellings(read: set<Name>, w: Naming, speller: map<Name, Name>) {
    forall g :: g in read ==>
      && w.Key(g) in speller && speller[w.Key(g)] in read
      && w.Key(speller[w.Key(g)]) == w.Key(g) && w.Earlier(speller[w.Key(g)], g)
  }

  /** So a blank group's fallback spelling wins over every other spelling of the fallback name. */
  lemma BlankSpellsFallback(read: set<Name>, w: Naming, speller: map<Name, Name>, blank: Name, g: Name)
    requires Spellings(read, w, speller) && blank in read && g in read
    requires w.trim(blank) == [] && w.Key(g) == w.Key(blank)
    requires w.lower([]) == [] && forall x :: w.lower(x) == [] ==> x == []
    ensures Spelt(w, speller, g) == w.other
  {
    assert w.Earlier(speller[w.Key(g)], blank);
    assert w.lower(w.trim(speller[w.Key(g)])) == [];
  }

  ghost function Spelt(w: Naming, speller: map<Name, Name>, g: Name): Name
    requires w.Key(g) in speller
  {
    w.Display(speller[w.Key(g)])
  }

  /** The folder of each submitted podcast before small folders are merged. */
  ghost predicate Assigned(groups: Groups, submitted: seq<Uuid>, w: Naming, speller: map<Name, Name>,
                           folder: map<Uuid, Name>) {
    && Spellings(groups.Keys, w, speller)
    && folder.Keys == (set u | u in submitted)
    && (forall u, g :: u in folder && NamedOnceBy(groups, u, g) ==> folder[u] == Spelt(w, speller, g))
    && (forall u :: u in folder && (forall g :: !NamedOnceBy(groups, u, g)) ==> folder[u] == w.other)
  }

  function Members(submitted: seq<Uuid>, folder: map<Uuid, Name>, n: Name): seq<Uuid> {
    if submitted == [] then [] else
      (if submitted[0] in folder && folder[submitted[0]] == n then [submitted[0]] else [])
      + Members(submitted[1..], folder, n)
  }

  /** Folders in `gone` are emptied into the fallback. */
  function Merged(folder: map<Uuid, Name>, gone: set<Name>, other: Name): map<Uuid, Name> {
    map u | u in folder :: if folder[u] in gone then other else folder[u]
  }

  /** The result lists exactly the members of each nonempty folder. */
  ghost predicate Partitions(result: Groups, submitted: seq<Uuid>, folder: map<Uuid, Name>) {
    && folder.Keys == (set u | u in submitted)
    && result.Keys == folder.Values
    && (forall n :: n in result ==> multiset(result[n]) == multiset(Members(submitted, folder, n)))
  }

  /** Folders that stand on their own: at least two members, and not the fallback. */
  ghost function Sound(submitted: seq<Uuid>, folder: map<Uuid, Name>, other: Name): set<Name> {
    set n | n in folder.Values && n != other && |Members(submitted, folder, n)| >= 2
  }

  /** Larger folders first, then by name. */
  predicate Before(submitted: seq<Uuid>, folder: map<Uuid, Name>, m: Name, n: Name) {
    var a, b := |Members(submitted, folder, m)|, |Members(submitted, folder, n)|;
    a > b || (a == b && AtMost(m, n))
  }

  /** The folders kept: all sound ones if they fit, otherwise the seven that rank first. */
  ghost predicate Kept(submitted: seq<Uuid>, folder: map<Uuid, Name>, other: Name, kept: set<Name>) {
    var sound := Sound(submitted, folder, other);
    && kept <= sound
    && (|Merged(folder, folder.Values - sound, other).Values| <= MAX_FOLDERS ==> kept == sound)
    && (|Merged(folder, folder.Values - sound, other).Values| > MAX_FOLDERS ==>
          |kept| == MAX_FOLDERS - 1 && forall m, n :: m in kept && n in sound - kept ==>
              Before(submitted, folder, m, n))
  }

  /** What the repair computes. */
  ghost predicate IsRepair(submitted: seq<Uuid>, other: Name, folder: map<Uuid, Name>, kept: set<Name>,
                           result: Groups) {
    && Kept(submitted, folder, other, kept)
    && Partitions(result, submitted, Merged(folder, folder.Values - kept, other))
    && (forall n :: n in result ==> SortedBy(result[n], AtMost))
  }

  // ---------------------------------------------------------------- what follows from it

  /** Each podcast sits in one folder, as often as it was submitted; nothing is invented. */
  lemma {:induction false} MembersCount(submitted: seq<Uuid>, folder: map<Uuid, Name>, n: Name, u: Uuid)
    ensures multiset(Members(submitted, folder, n))[u]
            == if u in folder && folder[u] == n then multiset(submitted)[u] else 0
    decreases |submitted|
  {
    if submitted != [] {
      MembersCount(submitted[1..], folder, n, u);
      assert submitted == [submitted[0]] + submitted[1..];
    }
  }

  lemma MembersMatch(submitted: seq<Uuid>, f: map<Uuid, Name>, g: map<Uuid, Name>, n: Name)
    requires f.Keys == g.Keys && forall u :: u in f ==> (f[u] == n <==> g[u] == n)
    ensures multiset(Members(submitted, f, n)) == multiset(Members(submitted, g, n))
  {
    forall u ensures multiset(Members(submitted, f, n))[u] == multiset(Members(submitted, g, n))[u] {
      MembersCount(submitted, f, n, u);
      MembersCount(submitted, g, n, u);
    }
  }

  lemma AtMostEight(submitted: seq<Uuid>, folder: map<Uuid, Name>, other: Name, kept: set<Name>)
    requires Kept(submitted, folder, other, kept)
    ensures |Merged(folder, folder.Values - kept, other).Values| <= MAX_FOLDERS
  {
    var sound := Sound(submitted, folder, other);
    if |Merged(folder, folder.Values - sound, other).Values| > MAX_FOLDERS {
      var final := Merged(folder, folder.Values - kept, other);
      SubsetSize(final.Values, kept + {other});
    }
  }

  /** In the result a podcast occurs in its folder only, as often as it was submitted. */
  lemma OccursInItsFolder(submitted: seq<Uuid>, folder: map<Uuid, Name>, result: Groups, n: Name, u: Uuid)
    requires Partitions(result, submitted, folder) && n in result
    ensures multiset(result[n])[u] == if u in folder && folder[u] == n then multiset(submitted)[u] else 0
    ensures u in result[n] <==> u in folder && folder[u] == n
  {
    MembersCount(submitted, folder, n, u);
    assert u in result[n] <==> multiset(result[n])[u] > 0;
    assert u in submitted <==> multiset(submitted)[u] > 0;
  }

  /** A podcast that sits in the folder `n`, once for each time it was submitted, and nowhere else. */
  ghost predicate SitsIn(result: Groups, submitted: seq<Uuid>, u: Uuid, n: Name) {
    && n in result && multiset(result[n])[u] == multiset(submitted)[u]
    && (forall m :: m in result && m != n ==> u !in result[m])
  }

  /** Conservation: every submitted podcast sits in one folder, and no other podcast appears. */
  lemma RepairConserves(submitted: seq<Uuid>, other: Name, folder: map<Uuid, Name>, kept: set<Name>, result: Groups)
    requires IsRepair(submitted, other, folder, kept, result)
    ensures forall u :: u in submitted ==> exists n :: SitsIn(result, submitted, u, n)
    ensures forall n, u :: n in result && u in result[n] ==> u in submitted
  {
    var final := Merged(folder, folder.Values - kept, other);
    forall u | u in submitted ensures exists n :: SitsIn(result, submitted, u, n) {
      assert u in final && final[u] in result;
      OccursInItsFolder(submitted, final, result, final[u], u);
      forall m | m in result && m != final[u] ensures u !in result[m] {
        OccursInItsFolder(submitted, final, result, m, u);
      }
      assert SitsIn(result, submitted, u, final[u]);
    }
    forall n, u | n in result && u in result[n] ensures u in submitted {
      OccursInItsFolder(submitted, final, result, n, u);
    }
  }

  /** A folder of the result other than the fallback was kept, with all its members. */
  lemma KeptSize(submitted: seq<Uuid>, other: Name, folder: map<Uuid, Name>, kept: set<Name>, result: Groups, n: Name)
    requires kept <= Sound(submitted, folder, other) && n in result && n != other
    requires Partitions(result, submitted, Merged(folder, folder.Values - kept, other))
    ensures |result[n]| >= 2
  {
    var final := Merged(folder, folder.Values - kept, other);
    ValuesMerged(folder, kept, other, n);
    MembersMatch(submitted, folder, final, n);
    SameSize(result[n], Members(submitted, folder, n));
  }

  /** At most eight folders, and at least two members outside the fallback. */
  lemma RepairCaps(submitted: seq<Uuid>, other: Name, folder: map<Uuid, Name>, kept: set<Name>, result: Groups)
    requires IsRepair(submitted, other, folder, kept, result)
    ensures |result| <= 8
    ensures forall n :: n in result && n != other ==> |result[n]| >= 2
  {
    AtMostEight(submitted, folder, other, kept);
    assert |result| == |result.Keys|;
    forall n | n in result && n != other ensures |result[n]| >= 2 {
      KeptSize(submitted, other, folder, kept, result, n);
    }
  }

  /** Outside the fallback only podcasts the suggestion named exactly once, under that name. */
  lemma RepairTrustsOnlySingleMentions(groups: Groups, submitted: seq<Uuid>, w: Naming, speller: map<Name, Name>,
                                       folder: map<Uuid, Name>, kept: set<Name>, result: Groups, n: Name, u: Uuid)
    requires Assigned(groups, submitted, w, speller, folder) && IsRepair(submitted, w.other, folder, kept, result)
    requires n in result && n != w.other && u in result[n]
    ensures exists g :: NamedOnceBy(groups, u, g) && n == Spelt(w, speller, g)
  {
    OccursInItsFolder(submitted, Merged(folder, folder.Values - kept, w.other), result, n, u);
    assert folder[u] == n;
    var g :| NamedOnceBy(groups, u, g);
    assert folder[u] == Spelt(w, speller, g);
  }

  // ---------------------------------------------------------------- and what is not lost

  /** How many submissions a folder has. */
  ghost function Size(submitted: seq<Uuid>, folder: map<Uuid, Name>, n: Name): nat {
    |Positions(submitted, folder, n)|
  }

  ghost function Positions(submitted: seq<Uuid>, folder: map<Uuid, Name>, n: Name): set<int> {
    set i | 0 <= i < |submitted| && submitted[i] in folder && folder[submitted[i]] == n
  }

  lemma {:induction false} MembersSize(submitted: seq<Uuid>, folder: map<Uuid, Name>, n: Name)
    ensures |Members(submitted, folder, n)| == Size(submitted, folder, n)
    decreases |submitted|
  {
    if submitted == [] {
      assert Positions(submitted, folder, n) == {};
    } else {
      var k := |submitted| - 1;
      MembersSize(submitted[..k], folder, n);
      MembersLast(submitted, folder, n);
      var hit := submitted[k] in folder && folder[submitted[k]] == n;
      assert Positions(submitted, folder, n) == Positions(submitted[..k], folder, n) + if hit then {k} else {};
    }
  }

  lemma {:induction false} MembersLast(submitted: seq<Uuid>, folder: map<Uuid, Name>, n: Name)
    requires submitted != []
    ensures var k := |submitted| - 1;
            var hit := submitted[k] in folder && folder[submitted[k]] == n;
            |Members(submitted, folder, n)| == |Members(submitted[..k], folder, n)| + if hit then 1 else 0
    decreases |submitted|
  {
    if |submitted| > 1 {
      assert submitted[..|submitted| - 1][1..] == submitted[1..][..|submitted| - 2];
      MembersLast(submitted[1..], folder, n);
    } else {
      assert submitted[1..] == [];
    }
  }

  /** A folder worth keeping: not the fallback, and at least two submissions were assigned to it. */
  ghost predicate Worthy(submitted: seq<Uuid>, folder: map<Uuid, Name>, other: Name, n: Name) {
    n in folder.Values && n != other && Size(submitted, folder, n) >= 2
  }

  lemma SoundIsWorthy(submitted: seq<Uuid>, folder: map<Uuid, Name>, other: Name, n: Name)
    ensures n in Sound(submitted, folder, other) <==> Worthy(submitted, folder, other, n)
  {
    MembersSize(submitted, folder, n);
  }

  /** Kept folders are worthy; of two worthy ones, a dropped one is never larger, nor earlier by name when equal. */
  lemma LargestKept(submitted: seq<Uuid>, other: Name, folder: map<Uuid, Name>, kept: set<Name>, m: Name, n: Name)
    requires Kept(submitted, folder, other, kept)
    requires m in kept && Worthy(submitted, folder, other, n) && n !in kept
    ensures Worthy(submitted, folder, other, m) && Size(submitted, folder, m) >= Size(submitted, folder, n)
    ensures Size(submitted, folder, m) == Size(submitted, folder, n) ==> exists k :: FirstAt(m, n, k)
  {
    SoundIsWorthy(submitted, folder, other, m);
    SoundIsWorthy(submitted, folder, other, n);
    MembersSize(submitted, folder, m);
    MembersSize(submitted, folder, n);
    assert Before(submitted, folder, m, n);
    AtMostMeans(m, n);
  }

  /** The worthy folders, and the fallback if anything would be left for it. */
  ghost predicate Remaining(submitted: seq<Uuid>, folder: map<Uuid, Name>, other: Name, names: set<Name>) {
    forall n :: n in names <==>
      || Worthy(submitted, folder, other, n)
      || (n == other && exists u :: u in folder && !Worthy(submitted, folder, other, folder[u]))
  }

  lemma MergedRemains(submitted: seq<Uuid>, folder: map<Uuid, Name>, other: Name)
    ensures Remaining(submitted, folder, other,
                      Merged(folder, folder.Values - Sound(submitted, folder, other), other).Values)
  {
    var sound := Sound(submitted, folder, other);
    var merged := Merged(folder, folder.Values - sound, other);
    forall n ensures Worthy(submitted, folder, other, n) <==> n in sound {
      SoundIsWorthy(submitted, folder, other, n);
    }
    forall n | n in sound ensures n in merged.Values {
      var u :| u in folder && folder[u] == n;
      assert merged[u] == n;
    }
    forall u | u in folder && folder[u] !in sound ensures other in merged.Values {
      assert folder[u] in folder.Values && merged[u] == other;
    }
    forall n | n in merged.Values && n !in sound ensures n == other && exists u :: u in folder && folder[u] !in sound {
      var u :| u in merged && merged[u] == n;
      assert folder[u] in folder.Values;
    }
  }

  /** Nothing worthy is dropped unless more than eight folders would remain, and then seven are kept. */
  lemma NothingDroppedInVain(submitted: seq<Uuid>, other: Name, folder: map<Uuid, Name>, kept: set<Name>, n: Name)
    requires Kept(submitted, folder, other, kept) && Worthy(submitted, folder, other, n) && n !in kept
    ensures |kept| == 7 && exists names :: Remaining(submitted, folder, other, names) && |names| > 8
  {
    SoundIsWorthy(submitted, folder, other, n);
    MergedRemains(submitted, folder, other);
  }

  /** A podcast the suggestion names exactly once is in the folder of that name, if the folder was kept. */
  lemma RepairHonoursSingleMentions(groups: Groups, submitted: seq<Uuid>, w: Naming, speller: map<Name, Name>,
                                    folder: map<Uuid, Name>, kept: set<Name>, result: Groups, g: Name, u: Uuid)
    requires Assigned(groups, submitted, w, speller, folder) && IsRepair(submitted, w.other, folder, kept, result)
    requires u in submitted && NamedOnceBy(groups, u, g)
    ensures w.Key(g) in speller
    ensures Spelt(w, speller, g) in kept ==> Spelt(w, speller, g) in result && u in result[Spelt(w, speller, g)]
    ensures Spelt(w, speller, g) !in kept ==> w.other in result && u in result[w.other]
  {
    var final := Merged(folder, folder.Values - kept, w.other);
    assert folder[u] == Spelt(w, speller, g) && folder[u] in folder.Values;
    assert final[u] in result;
    OccursInItsFolder(submitted, final, result, final[u], u);
  }

  // ---------------------------------------------------------------- reading the suggestion

  /** Mentions read so far, as (group, podcast) pairs. */
  type Mentions = multiset<(Name, Uuid)>

  ghost predicate OnceIn(read: Mentions, u: Uuid, g: Name) {
    read[(g, u)] == 1 && forall h :: h != g ==> read[(h, u)] == 0
  }

  ghost predicate Mentioned(read: Mentions, u: Uuid) {
    exists g :: read[(g, u)] > 0
  }

  /** `assignments` and `duplicate` remember what was read about the submitted podcasts. */
  ghost predicate Remembers(assignments: map<Uuid, Name>, duplicate: set<Uuid>, allowed: set<Uuid>, read: Mentions,
                            names: map<Name, Name>) {
    && (forall u :: u in assignments <==> u in allowed && Mentioned(read, u))
    && duplicate <= assignments.Keys
    && (forall u :: u in assignments && u !in duplicate ==>
        exists g :: OnceIn(read, u, g) && g in names && assignments[u] == names[g])
    && (forall u, g :: u in duplicate ==> !OnceIn(read, u, g))
  }

  lemma MentionOther(read: Mentions, g: Name, u: Uuid, v: Uuid)
    requires v != u
    ensures Mentioned(read + multiset{(g, u)}, v) <==> Mentioned(read, v)
    ensures forall h :: OnceIn(read + multiset{(g, u)}, v, h) <==> OnceIn(read, v, h)
  {
    var read' := read + multiset{(g, u)};
    assert forall h :: read'[(h, v)] == read[(h, v)];
  }

  lemma MentionFirst(read: Mentions, g: Name, u: Uuid)
    requires !Mentioned(read, u)
    ensures Mentioned(read + multiset{(g, u)}, u) && OnceIn(read + multiset{(g, u)}, u, g)
  {
    var read' := read + multiset{(g, u)};
    assert forall h :: read[(h, u)] == 0;
    assert read'[(g, u)] == 1;
  }

  lemma MentionAgain(read: Mentions, g: Name, u: Uuid, h: Name)
    requires Mentioned(read, u)
    ensures Mentioned(read + multiset{(g, u)}, u) && !OnceIn(read + multiset{(g, u)}, u, h)
  {
    var read' := read + multiset{(g, u)};
    var k :| read[(k, u)] > 0;
    assert read'[(k, u)] >= read[(k, u)] && read'[(g, u)] == read[(g, u)] + 1;
  }

  /** One turn of the inner loop. */
  lemma ReadOne(assignments: map<Uuid, Name>, duplicate: set<Uuid>, allowed: set<Uuid>, read: Mentions,
                names: map<Name, Name>, g: Name, u: Uuid)
    requires Remembers(assignments, duplicate, allowed, read, names) && g in names
    ensures u !in allowed ==> Remembers(assignments, duplicate, allowed, read + multiset{(g, u)}, names)
    ensures u in allowed && u in assignments ==>
              Remembers(assignments, duplicate + {u}, allowed, read + multiset{(g, u)}, names)
    ensures u in allowed && u !in assignments ==>
              Remembers(assignments[u := names[g]], duplicate, allowed, read + multiset{(g, u)}, names)
  {
    forall v | v != u ensures (Mentioned(read + multiset{(g, u)}, v) <==> Mentioned(read, v))
      && (forall h :: OnceIn(read + multiset{(g, u)}, v, h) <==> OnceIn(read, v, h)) {
      MentionOther(read, g, u, v);
    }
    if u in allowed {
      if u in assignments {
        forall h ensures !OnceIn(read + multiset{(g, u)}, u, h) && Mentioned(read + multiset{(g, u)}, u) {
          MentionAgain(read, g, u, h);
        }
      } else {
        MentionFirst(read, g, u);
      }
    }
  }

  /** The inner loop over one group's podcasts. */
  method ReadGroup(name: Name, uuids: seq<Uuid>, allowed: set<Uuid>, before: map<Uuid, Name>, seen: set<Uuid>,
                   ghost g: Name, ghost read: Mentions, ghost names: map<Name, Name>)
    returns (assignments: map<Uuid, Name>, duplicate: set<Uuid>, ghost read': Mentions)
    requires Remembers(before, seen, allowed, read, names) && g in names && names[g] == name
    ensures Remembers(assignments, duplicate, allowed, read', names)
    ensures MoreMentions(read, read', g, uuids)
  {
    assignments, duplicate, read' := before, seen, read;
    for i := 0 to |uuids|
      invariant Remembers(assignments, duplicate, allowed, read', names)
      invariant MoreMentions(read, read', g, uuids[..i])
    {
      assignments, duplicate := ReadUuid(name, uuids[i], allowed, assignments, duplicate, g, read', names);
      MentionNext(read, read', g, uuids, i);
      read' := read' + multiset{(g, uuids[i])};
    }
    assert uuids[..|uuids|] == uuids;
  }

  /** `read'` has the group's mentions of these podcasts on top of `read`. */
  ghost predicate MoreMentions(read: Mentions, read': Mentions, g: Name, uuids: seq<Uuid>) {
    forall h, u :: read'[(h, u)] == read[(h, u)] + if h == g then multiset(uuids)[u] else 0
  }

  lemma MentionNext(read: Mentions, read': Mentions, g: Name, uuids: seq<Uuid>, i: nat)
    requires i < |uuids| && MoreMentions(read, read', g, uuids[..i])
    ensures MoreMentions(read, read' + multiset{(g, uuids[i])}, g, uuids[..i + 1])
  {
    assert uuids[..i + 1] == uuids[..i] + [uuids[i]];
  }

  /** One turn of the inner loop. */
  method ReadUuid(name: Name, u: Uuid, allowed: set<Uuid>, before: map<Uuid, Name>, seen: set<Uuid>,
                  ghost g: Name, ghost read: Mentions, ghost names: map<Name, Name>)
    returns (assignments: map<Uuid, Name>, duplicate: set<Uuid>)
    requires Remembers(before, seen, allowed, read, names) && g in names && names[g] == name
    ensures Remembers(assignments, duplicate, allowed, read + multiset{(g, u)}, names)
  {
    ReadOne(before, seen, allowed, read, names, g, u);
    assignments, duplicate := before, seen;
    if u in allowed {
      if u in assignments {
        duplicate := duplicate + {u};
      } else {
        assignments := assignments[u := name];
      }
    }
  }

  /** The keys of a map in some order. */
  method Listing(s: set<Name>) returns (l: seq<Name>)
    ensures multiset(l) == multiset(s)
  {
    l := [];
    var rest := s;
    while exists n :: n in rest
      invariant rest <= s && multiset(l) == multiset(s - rest)
      decreases rest
    {
      var n :| n in rest;
      assert s - (rest - {n}) == (s - rest) + {n};
      l, rest := l + [n], rest - {n};
    }
    assert s - rest == s;
  }

  lemma NameOrdering(w: Naming)
    ensures Ordering((a: Name, b: Name) => w.Earlier(a, b))
  {
    forall a: Name, b: Name, c: Name ensures
      (w.Earlier(a, b) || w.Earlier(b, a)) && (w.Earlier(a, b) && w.Earlier(b, c) ==> w.Earlier(a, c))
    {
      AtMostOrder(w.Fold(a), w.Fold(b), w.Fold(c));
    }
  }

  /** The spellings settled for the groups read so far; `names` is what each of them was called. */
  ghost predicate Settled(read: set<Name>, w: Naming, canonical: map<Name, Name>, speller: map<Name, Name>,
                          names: map<Name, Name>) {
    && canonical.Keys == speller.Keys && names.Keys == read
    && (forall k :: k in speller ==>
        speller[k] in read && w.Key(speller[k]) == k && canonical[k] == w.Display(speller[k]))
    && Spellings(read, w, speller)
    && (forall g :: g in read ==> names[g] == Spelt(w, speller, g))
  }

  lemma SpellKnown(read: set<Name>, w: Naming, speller: map<Name, Name>, raw: Name)
    requires Spellings(read, w, speller) && w.Key(raw) in speller
    requires speller[w.Key(raw)] in read && w.Key(speller[w.Key(raw)]) == w.Key(raw)
    requires forall g :: g in read ==> w.Earlier(g, raw)
    ensures Spellings(read + {raw}, w, speller)
  {
  }

  lemma SpellNew(read: set<Name>, w: Naming, speller: map<Name, Name>, raw: Name)
    requires Spellings(read, w, speller) && w.Key(raw) !in speller
    ensures Spellings(read + {raw}, w, speller[w.Key(raw) := raw])
  {
    AtMostOrder(w.Fold(raw), w.Fold(raw), w.Fold(raw));
  }

  lemma SettleKnown(read: set<Name>, w: Naming, canonical: map<Name, Name>, speller: map<Name, Name>,
                    names: map<Name, Name>, raw: Name)
    requires Settled(read, w, canonical, speller, names) && raw !in read && w.Key(raw) in canonical
    requires forall g :: g in read ==> w.Earlier(g, raw)
    ensures Settled(read + {raw}, w, canonical, speller, names[raw := canonical[w.Key(raw)]])
  {
    SpellKnown(read, w, speller, raw);
  }

  lemma SettleNew(read: set<Name>, w: Naming, canonical: map<Name, Name>, speller: map<Name, Name>,
                  names: map<Name, Name>, raw: Name)
    requires Settled(read, w, canonical, speller, names) && raw !in read && w.Key(raw) !in canonical
    ensures Settled(read + {raw}, w, canonical[w.Key(raw) := w.Display(raw)], speller[w.Key(raw) := raw],
                    names[raw := w.Display(raw)])
  {
    SpellNew(read, w, speller, raw);
  }

  /** What a group is called: the spelling already in use for its folded name, or its own. */
  method SettleName(raw: Name, w: Naming, canonical: map<Name, Name>, ghost read: set<Name>,
                    ghost speller: map<Name, Name>, ghost names: map<Name, Name>)
    returns (name: Name, canonical': map<Name, Name>, ghost speller': map<Name, Name>)
    requires w.other != [] && Settled(read, w, canonical, speller, names) && raw !in read
    requires forall g :: g in read ==> w.Earlier(g, raw)
    ensures Settled(read + {raw}, w, canonical', speller', names[raw := name])
    ensures name == w.Display(speller'[w.Key(raw)])
  {
    name, canonical', speller' := w.Display(raw), canonical, speller;
    var folded := w.lower(name);
    if folded in canonical && canonical[folded] != [] {
      name := canonical[folded];
      SettleKnown(read, w, canonical, speller, names, raw);
    } else {
      canonical', speller' := canonical[folded := name], speller[folded := raw];
      SettleNew(read, w, canonical, speller, names, raw);
    }
  }

  /** The mentions read are those of the groups visited. */
  ghost predicate ReadFrom(groups: Groups, visited: set<Name>, read: Mentions) {
    visited <= groups.Keys && forall g, u :: read[(g, u)] == if g in visited then multiset(groups[g])[u] else 0
  }

  lemma ReadFromMore(groups: Groups, visited: set<Name>, read: Mentions, g: Name, read': Mentions)
    requires ReadFrom(groups, visited, read) && g in groups && g !in visited
    requires MoreMentions(read, read', g, groups[g])
    ensures ReadFrom(groups, visited + {g}, read')
  {
  }

  /** `visited` are the first `i` names of the order, each once. */
  ghost predicate VisitedUpTo(order: seq<Name>, i: nat, visited: set<Name>) {
    i <= |order| && multiset(order[..i]) == multiset(visited)
  }

  lemma VisitNext(order: seq<Name>, i: nat, keys: set<Name>, visited: set<Name>)
    requires multiset(order) == multiset(keys) && i < |order| && VisitedUpTo(order, i, visited)
    ensures order[i] in keys && order[i] !in visited && VisitedUpTo(order, i + 1, visited + {order[i]})
  {
    NextIsNew(order, i, keys, visited);
    assert order[..i + 1] == order[..i] + [order[i]];
  }

  lemma VisitedEarlier(order: seq<Name>, i: nat, visited: set<Name>, w: Naming)
    requires i < |order| && VisitedUpTo(order, i, visited) && SortedBy(order, (a, b) => w.Earlier(a, b))
    ensures forall g :: g in visited ==> w.Earlier(g, order[i])
  {
    forall g | g in visited ensures w.Earlier(g, order[i]) {
      assert g in multiset(visited);
      assert g in order[..i];
      var j :| 0 <= j < i && order[j] == g;
    }
  }

  /** What reading the groups in `visited` has established. */
  ghost predicate HasRead(groups: Groups, visited: set<Name>, allowed: set<Uuid>, w: Naming, canonical: map<Name, Name>,
                          assignments: map<Uuid, Name>, duplicate: set<Uuid>, speller: map<Name, Name>,
                          names: map<Name, Name>, read: Mentions) {
    && Settled(visited, w, canonical, speller, names)
    && Remembers(assignments, duplicate, allowed, read, names)
    && ReadFrom(groups, visited, read)
  }

  lemma NothingRead(groups: Groups, allowed: set<Uuid>, w: Naming)
    ensures HasRead(groups, {}, allowed, w, map[], map[], {}, map[], map[], multiset{})
  {
    assert forall u :: !Mentioned(multiset{}, u);
  }

  /** One turn of the outer loop. */
  method ReadNext(groups: Groups, raw: Name, allowed: set<Uuid>, w: Naming, canonical: map<Name, Name>,
                  before: map<Uuid, Name>, seen: set<Uuid>,
                  ghost visited: set<Name>, ghost speller: map<Name, Name>, ghost names: map<Name, Name>,
                  ghost read: Mentions)
    returns (canonical': map<Name, Name>, assignments: map<Uuid, Name>, duplicate: set<Uuid>,
             ghost speller': map<Name, Name>, ghost names': map<Name, Name>, ghost read': Mentions)
    requires w.other != [] && raw in groups && raw !in visited && forall g :: g in visited ==> w.Earlier(g, raw)
    requires HasRead(groups, visited, allowed, w, canonical, before, seen, speller, names, read)
    ensures HasRead(groups, visited + {raw}, allowed, w, canonical', assignments, duplicate, speller', names', read')
  {
    var name;
    name, canonical', speller' := SettleName(raw, w, canonical, visited, speller, names);
    RemembersMoreNames(before, seen, allowed, read, names, raw, name);
    names' := names[raw := name];
    assignments, duplicate, read' := ReadGroup(name, groups[raw], allowed, before, seen, raw, read, names');
    ReadFromMore(groups, visited, read, raw, read');
  }

  /** The outer loop, over the groups in the order given. */
  method ReadInOrder(groups: Groups, order: seq<Name>, allowed: set<Uuid>, w: Naming)
    returns (assignments: map<Uuid, Name>, duplicate: set<Uuid>, ghost speller: map<Name, Name>,
             ghost names: map<Name, Name>, ghost read: Mentions)
    requires w.other != [] && multiset(order) == multiset(groups.Keys) && SortedBy(order, (a, b) => w.Earlier(a, b))
    ensures exists canonical :: Settled(groups.Keys, w, canonical, speller, names)
    ensures Remembers(assignments, duplicate, allowed, read, names)
    ensures ReadFrom(groups, groups.Keys, read)
  {
    assignments, duplicate, speller, names, read := map[], {}, map[], map[], multiset{};
    var canonical: map<Name, Name> := map[];
    ghost var visited: set<Name> := {};
    NothingRead(groups, allowed, w);
    for i := 0 to |order|
      invariant VisitedUpTo(order, i, visited)
      invariant HasRead(groups, visited, allowed, w, canonical, assignments, duplicate, speller, names, read)
    {
      VisitNext(order, i, groups.Keys, visited);
      VisitedEarlier(order, i, visited, w);
      canonical, assignments, duplicate, speller, names, read :=
        ReadNext(groups, order[i], allowed, w, canonical, assignments, duplicate, visited, speller, names, read);
      visited := visited + {order[i]};
    }
    assert order[..|order|] == order;
    SameElements(visited, groups.Keys);
  }

  /** Groups are read in order of their folded names; equal ones in any order. */
  method ReadSuggestion(groups: Groups, allowed: set<Uuid>, w: Naming)
    returns (assignments: map<Uuid, Name>, duplicate: set<Uuid>, ghost speller: map<Name, Name>,
             ghost names: map<Name, Name>, ghost read: Mentions)
    requires w.other != []
    ensures exists canonical :: Settled(groups.Keys, w, canonical, speller, names)
    ensures Remembers(assignments, duplicate, allowed, read, names)
    ensures ReadFrom(groups, groups.Keys, read)
  {
    var keys := Listing(groups.Keys);
    NameOrdering(w);
    var order := Sort(keys, (a: Name, b: Name) => w.Earlier(a, b));
    assignments, duplicate, speller, names, read := ReadInOrder(groups, order, allowed, w);
  }

  lemma RemembersMoreNames(assignments: map<Uuid, Name>, duplicate: set<Uuid>, allowed: set<Uuid>, read: Mentions,
                           names: map<Name, Name>, g: Name, name: Name)
    requires Remembers(assignments, duplicate, allowed, read, names) && g !in names
    ensures Remembers(assignments, duplicate, allowed, read, names[g := name])
  {
    var names' := names[g := name];
    forall u | u in assignments && u !in duplicate
      ensures exists h :: OnceIn(read, u, h) && h in names' && assignments[u] == names'[h]
    {
      var h :| OnceIn(read, u, h) && h in names && assignments[u] == names[h];
      assert h in names' && names'[h] == names[h];
    }
  }

  lemma SameElements(a: set<Name>, b: set<Name>)
    requires multiset(a) == multiset(b)
    ensures a == b
  {
    forall n ensures n in a <==> n in b {
      assert n in a <==> n in multiset(a);
      assert n in b <==> n in multiset(b);
    }
  }

  /** In a listing of a set each element comes once. */
  lemma NextIsNew(order: seq<Name>, i: nat, keys: set<Name>, visited: set<Name>)
    requires multiset(order) == multiset(keys) && i < |order| && multiset(order[..i]) == multiset(visited)
    ensures order[i] in keys && order[i] !in visited
  {
    assert order == order[..i] + [order[i]] + order[i + 1..];
    assert multiset(order)[order[i]] >= multiset(order[..i])[order[i]] + 1;
    assert order[i] in multiset(keys);
    assert multiset(keys)[order[i]] == 1;
    assert order[i] !in multiset(visited);
  }

  /** Where the assignment loop puts a podcast. */
  function FolderOf(assignments: map<Uuid, Name>, duplicate: set<Uuid>, other: Name, u: Uuid): Name {
    if u !in assignments || u in duplicate then other else assignments[u]
  }

  lemma NamedOnceIsSpelt(groups: Groups, allowed: set<Uuid>, w: Naming, assignments: map<Uuid, Name>,
                         duplicate: set<Uuid>, canonical: map<Name, Name>, speller: map<Name, Name>,
                         names: map<Name, Name>, read: Mentions, u: Uuid, g: Name)
    requires Settled(groups.Keys, w, canonical, speller, names) && ReadFrom(groups, groups.Keys, read)
    requires Remembers(assignments, duplicate, allowed, read, names) && u in allowed && NamedOnceBy(groups, u, g)
    ensures FolderOf(assignments, duplicate, w.other, u) == Spelt(w, speller, g)
  {
    OnceMeansNamedOnce(groups, read, u, g);
    assert OnceIn(read, u, g) && read[(g, u)] > 0;
    var h :| OnceIn(read, u, h) && h in names && assignments[u] == names[h];
    assert h == g;
  }

  lemma OtherwiseFallback(groups: Groups, allowed: set<Uuid>, w: Naming, assignments: map<Uuid, Name>,
                          duplicate: set<Uuid>,
                          names: map<Name, Name>, read: Mentions, u: Uuid)
    requires ReadFrom(groups, groups.Keys, read) && Remembers(assignments, duplicate, allowed, read, names)
    requires forall g :: !NamedOnceBy(groups, u, g)
    ensures FolderOf(assignments, duplicate, w.other, u) == w.other
  {
    forall g ensures !OnceIn(read, u, g) {
      OnceMeansNamedOnce(groups, read, u, g);
    }
  }

  lemma ReadingAssigns(groups: Groups, submitted: seq<Uuid>, w: Naming, assignments: map<Uuid, Name>,
                       duplicate: set<Uuid>,
                       canonical: map<Name, Name>, speller: map<Name, Name>, names: map<Name, Name>, read: Mentions)
    requires Settled(groups.Keys, w, canonical, speller, names) && ReadFrom(groups, groups.Keys, read)
    requires Remembers(assignments, duplicate, (set u | u in submitted), read, names)
    ensures Assigned(groups, submitted, w, speller,
                     map u | u in submitted :: FolderOf(assignments, duplicate, w.other, u))
  {
    var allowed := set u | u in submitted;
    forall u, g | u in submitted && NamedOnceBy(groups, u, g)
      ensures FolderOf(assignments, duplicate, w.other, u) == Spelt(w, speller, g)
    {
      NamedOnceIsSpelt(groups, allowed, w, assignments, duplicate, canonical, speller, names, read, u, g);
    }
    forall u | u in submitted && forall g :: !NamedOnceBy(groups, u, g)
      ensures FolderOf(assignments, duplicate, w.other, u) == w.other
    {
      OtherwiseFallback(groups, allowed, w, assignments, duplicate, names, read, u);
    }
  }

  lemma OnceMeansNamedOnce(groups: Groups, read: Mentions, u: Uuid, g: Name)
    requires ReadFrom(groups, groups.Keys, read)
    ensures OnceIn(read, u, g) <==> NamedOnceBy(groups, u, g)
  {
    assert forall h :: h in groups ==> (u in groups[h] <==> multiset(groups[h])[u] > 0);
    assert forall h :: read[(h, u)] == if h in groups then multiset(groups[h])[u] else 0;
  }

  lemma {:induction false} MembersAppend(s: seq<Uuid>, u: Uuid, folder: map<Uuid, Name>, n: Name)
    requires u in folder
    ensures Members(s + [u], folder, n) == Members(s, folder, n) + (if folder[u] == n then [u] else [])
    decreases |s|
  {
    if s == [] {
      assert s + [u] == [u] && [u][1..] == [];
    } else {
      assert (s + [u])[1..] == s[1..] + [u];
      MembersAppend(s[1..], u, folder, n);
    }
  }

  function Listed(result: Groups, n: Name): seq<Uuid> {
    if n in result then result[n] else []
  }

  /** The result so far: every nonempty folder, members in order of submission. */
  ghost predicate ListsMembers(result: Groups, s: seq<Uuid>, folder: map<Uuid, Name>) {
    (forall n :: Listed(result, n) == Members(s, folder, n)) && (forall n :: n in result ==> result[n] != [])
  }

  lemma AppendKeepsListing(result: Groups, s: seq<Uuid>, u: Uuid, folder: map<Uuid, Name>)
    requires ListsMembers(result, s, folder) && u in folder
    ensures ListsMembers(result[folder[u] := Listed(result, folder[u]) + [u]], s + [u], folder)
  {
    var result' := result[folder[u] := Listed(result, folder[u]) + [u]];
    forall n ensures Listed(result', n) == Members(s + [u], folder, n) {
      MembersAppend(s, u, folder, n);
      assert Listed(result, n) == Members(s, folder, n);
    }
  }

  lemma ListingPartitions(result: Groups, s: seq<Uuid>, folder: map<Uuid, Name>)
    requires ListsMembers(result, s, folder) && folder.Keys == (set u | u in s)
    ensures Partitions(result, s, folder)
  {
    forall n | n in result ensures n in folder.Values {
      var u := result[n][0];
      assert Listed(result, n) == Members(s, folder, n);
      assert u in multiset(Members(s, folder, n));
      MembersCount(s, folder, n, u);
    }
    forall n | n in folder.Values ensures n in result {
      var u :| u in folder && folder[u] == n;
      MembersCount(s, folder, n, u);
      assert multiset(s)[u] > 0;
      assert Listed(result, n) == Members(s, folder, n);
    }
    forall n | n in result ensures multiset(result[n]) == multiset(Members(s, folder, n)) {
      assert Listed(result, n) == Members(s, folder, n);
    }
  }

  /** The second loop: the submitted podcasts in order, each appended to its folder. */
  method Distribute(submitted: seq<Uuid>, assignments: map<Uuid, Name>, duplicate: set<Uuid>, other: Name)
    returns (result: Groups)
    ensures Partitions(result, submitted, map u | u in submitted :: FolderOf(assignments, duplicate, other, u))
  {
    ghost var folder := map u | u in submitted :: FolderOf(assignments, duplicate, other, u);
    result := map[];
    for i := 0 to |submitted|
      invariant ListsMembers(result, submitted[..i], folder)
    {
      var u := submitted[i];
      var name := if u !in assignments || u in duplicate then other else assignments[u];
      AppendKeepsListing(result, submitted[..i], u, folder);
      assert submitted[..i + 1] == submitted[..i] + [u];
      result := result[name := (if name in result then result[name] else []) + [u]];
    }
    assert submitted[..|submitted|] == submitted;
    ListingPartitions(result, submitted, folder);
  }

  // ---------------------------------------------------------------- merging

  /** Emptying one folder into the fallback, as both merging loops do. */
  function MergeInto(result: Groups, n: Name, other: Name): Groups
    requires n in result
  {
    result[other := Listed(result, other) + result[n]] - {n}
  }

  /** `after` is `before` with the folder `n` emptied into the fallback. */
  ghost predicate Empties(before: map<Uuid, Name>, after: map<Uuid, Name>, n: Name, other: Name) {
    && n != other && after.Keys == before.Keys
    && (forall u :: u in before ==> after[u] == if before[u] == n then other else before[u])
  }

  lemma EmptiedMembers(submitted: seq<Uuid>, before: map<Uuid, Name>, after: map<Uuid, Name>, n: Name, other: Name)
    requires Empties(before, after, n, other)
    ensures multiset(Members(submitted, after, other))
            == multiset(Members(submitted, before, other)) + multiset(Members(submitted, before, n))
  {
    forall u ensures multiset(Members(submitted, after, other))[u]
                  == multiset(Members(submitted, before, other))[u] + multiset(Members(submitted, before, n))[u] {
      MembersCount(submitted, before, other, u);
      MembersCount(submitted, before, n, u);
      MembersCount(submitted, after, other, u);
    }
  }

  /** An absent folder has no members. */
  lemma ListedMembers(result: Groups, submitted: seq<Uuid>, folder: map<Uuid, Name>, n: Name)
    requires Partitions(result, submitted, folder)
    ensures multiset(Listed(result, n)) == multiset(Members(submitted, folder, n))
  {
    if n !in result {
      forall u ensures multiset(Members(submitted, folder, n))[u] == 0 {
        MembersCount(submitted, folder, n, u);
        if u in folder {
          assert folder[u] in folder.Values;
        }
      }
    }
  }

  lemma EmptyKeepsMembers(result: Groups, submitted: seq<Uuid>, before: map<Uuid, Name>, after: map<Uuid, Name>,
                          n: Name, other: Name, m: Name)
    requires Partitions(result, submitted, before) && n in result && Empties(before, after, n, other)
    requires m in MergeInto(result, n, other)
    ensures multiset(MergeInto(result, n, other)[m]) == multiset(Members(submitted, after, m))
  {
    if m == other {
      ListedMembers(result, submitted, before, other);
      EmptiedMembers(submitted, before, after, n, other);
      assert MergeInto(result, n, other)[m] == Listed(result, other) + result[n];
    } else {
      MembersMatch(submitted, before, after, m);
      assert MergeInto(result, n, other)[m] == result[m];
    }
  }

  lemma EmptyKeepsKeys(result: Groups, before: map<Uuid, Name>, after: map<Uuid, Name>, n: Name, other: Name)
    requires result.Keys == before.Values && n in result && Empties(before, after, n, other)
    ensures MergeInto(result, n, other).Keys == after.Values
  {
    MergedValues(before, after, n, other);
  }

  lemma EmptyKeepsPartition(result: Groups, submitted: seq<Uuid>, before: map<Uuid, Name>, after: map<Uuid, Name>,
                            n: Name, other: Name)
    requires Partitions(result, submitted, before) && n in result && Empties(before, after, n, other)
    ensures Partitions(MergeInto(result, n, other), submitted, after)
  {
    EmptyKeepsKeys(result, before, after, n, other);
    forall m | m in MergeInto(result, n, other)
      ensures multiset(MergeInto(result, n, other)[m]) == multiset(Members(submitted, after, m))
    {
      EmptyKeepsMembers(result, submitted, before, after, n, other, m);
    }
  }

  lemma MergedEmpties(folder: map<Uuid, Name>, gone: set<Name>, other: Name, n: Name)
    requires n != other
    ensures Empties(Merged(folder, gone, other), Merged(folder, gone + {n}, other), n, other)
  {
  }

  lemma MergeOne(result: Groups, submitted: seq<Uuid>, folder: map<Uuid, Name>, gone: set<Name>, other: Name, n: Name)
    requires Partitions(result, submitted, Merged(folder, gone, other)) && n in result && n != other
    ensures Partitions(MergeInto(result, n, other), submitted, Merged(folder, gone + {n}, other))
  {
    MergedEmpties(folder, gone, other, n);
    EmptyKeepsPartition(result, submitted, Merged(folder, gone, other), Merged(folder, gone + {n}, other), n, other);
  }

  lemma MergedValues(before: map<Uuid, Name>, after: map<Uuid, Name>, n: Name, other: Name)
    requires Empties(before, after, n, other) && n in before.Values
    ensures after.Values == before.Values - {n} + {other}
  {
    var w :| w in before && before[w] == n;
    assert after[w] == other && other in after.Values;
    forall m | m in before.Values - {n} ensures m in after.Values {
      var u :| u in before && before[u] == m;
      assert after[u] == m;
    }
  }

  lemma UnmergedMembers(submitted: seq<Uuid>, folder: map<Uuid, Name>, gone: set<Name>, other: Name, n: Name)
    requires n !in gone && n != other
    ensures multiset(Members(submitted, folder, n)) == multiset(Members(submitted, Merged(folder, gone, other), n))
  {
    MembersMatch(submitted, folder, Merged(folder, gone, other), n);
  }

  lemma SameSize(a: seq<Uuid>, b: seq<Uuid>)
    requires multiset(a) == multiset(b)
    ensures |a| == |b|
  {
    assert |a| == |multiset(a)| && |b| == |multiset(b)|;
  }

  /** Before any merging, and for a folder not merged, the listed size is the number of members. */
  lemma UnmergedSize(result: Groups, submitted: seq<Uuid>, folder: map<Uuid, Name>, gone: set<Name>, other: Name,
                     n: Name)
    requires Partitions(result, submitted, Merged(folder, gone, other)) && n !in gone && n != other
    ensures |Listed(result, n)| == |Members(submitted, folder, n)|
  {
    ListedMembers(result, submitted, Merged(folder, gone, other), n);
    UnmergedMembers(submitted, folder, gone, other, n);
    SameSize(Listed(result, n), Members(submitted, folder, n));
  }

  /** Of the folders visited, exactly those with fewer than two members are gone. */
  ghost predicate SmallGone(submitted: seq<Uuid>, folder: map<Uuid, Name>, other: Name, pending: set<Name>,
                            gone: set<Name>) {
    && pending <= folder.Values && gone <= folder.Values - pending - {other}
    && (forall n :: n in folder.Values - pending - {other} ==> (n in gone <==> |Members(submitted, folder, n)| < 2))
  }

  lemma AllSmallGone(submitted: seq<Uuid>, folder: map<Uuid, Name>, other: Name, gone: set<Name>)
    requires SmallGone(submitted, folder, other, {}, gone)
    ensures Merged(folder, gone, other) == Merged(folder, folder.Values - Sound(submitted, folder, other), other)
  {
    var rest := folder.Values - Sound(submitted, folder, other);
    forall u | u in folder ensures folder[u] in gone || folder[u] == other <==> folder[u] in rest {
      assert folder[u] in folder.Values;
    }
  }

  lemma StillListed(result: Groups, submitted: seq<Uuid>, folder: map<Uuid, Name>, gone: set<Name>, other: Name,
                    n: Name)
    requires Partitions(result, submitted, Merged(folder, gone, other)) && n in folder.Values - gone
    ensures n in result
  {
    var u :| u in folder && folder[u] == n;
    assert Merged(folder, gone, other)[u] == n;
  }

  lemma SmallGoneNext(submitted: seq<Uuid>, folder: map<Uuid, Name>, other: Name, pending: set<Name>, gone: set<Name>,
                      n: Name)
    requires SmallGone(submitted, folder, other, pending, gone) && n in pending
    ensures n != other && |Members(submitted, folder, n)| < 2 ==>
              SmallGone(submitted, folder, other, pending - {n}, gone + {n})
    ensures n == other || |Members(submitted, folder, n)| >= 2 ==>
              SmallGone(submitted, folder, other, pending - {n}, gone)
  {
  }

  /** What both merging loops do to a folder: append its members to the fallback and delete it. */
  method EmptyFolder(before: Groups, submitted: seq<Uuid>, other: Name, n: Name, ghost folder: map<Uuid, Name>,
                     ghost gone: set<Name>)
    returns (result: Groups)
    requires Partitions(before, submitted, Merged(folder, gone, other)) && n in before && n != other
    ensures Partitions(result, submitted, Merged(folder, gone + {n}, other))
  {
    MergeOne(before, submitted, folder, gone, other, n);
    result := before[other := Listed(before, other) + before[n]] - {n};
  }

  /** One turn of the first merging loop. */
  method MergeIfSmall(before: Groups, submitted: seq<Uuid>, other: Name, n: Name, ghost folder: map<Uuid, Name>,
                      ghost gone: set<Name>)
    returns (result: Groups, ghost gone': set<Name>)
    requires Partitions(before, submitted, Merged(folder, gone, other)) && n in folder.Values - gone
    ensures Partitions(result, submitted, Merged(folder, gone', other))
    ensures gone' == if n != other && |Members(submitted, folder, n)| < 2 then gone + {n} else gone
  {
    result, gone' := before, gone;
    if n != other {
      UnmergedSize(before, submitted, folder, gone, other, n);
      StillListed(before, submitted, folder, gone, other, n);
      if |before[n]| < 2 {
        result := EmptyFolder(before, submitted, other, n, folder, gone);
        gone' := gone + {n};
      }
    }
  }

  /** The loop that empties folders of fewer than two; it may visit the folders in any order. */
  method MergeSmall(before: Groups, submitted: seq<Uuid>, other: Name, ghost folder: map<Uuid, Name>)
    returns (result: Groups)
    requires Partitions(before, submitted, folder)
    ensures Partitions(result, submitted, Merged(folder, folder.Values - Sound(submitted, folder, other), other))
  {
    result := before;
    var pending := before.Keys;
    ghost var gone: set<Name> := {};
    assert Merged(folder, gone, other) == folder;
    while exists n :: n in pending
      invariant MergingSmall(result, submitted, folder, other, pending, gone)
      decreases pending
    {
      var n :| n in pending;
      result, gone := MergeNext(result, submitted, other, n, folder, pending, gone);
      pending := pending - {n};
    }
    assert pending == {};
    AllSmallGone(submitted, folder, other, gone);
  }

  ghost predicate MergingSmall(result: Groups, submitted: seq<Uuid>, folder: map<Uuid, Name>, other: Name,
                               pending: set<Name>, gone: set<Name>) {
    SmallGone(submitted, folder, other, pending, gone) && Partitions(result, submitted, Merged(folder, gone, other))
  }

  /** One folder of those still to be looked at. */
  method MergeNext(before: Groups, submitted: seq<Uuid>, other: Name, n: Name, ghost folder: map<Uuid, Name>,
                   ghost pending: set<Name>, ghost gone: set<Name>)
    returns (result: Groups, ghost gone': set<Name>)
    requires MergingSmall(before, submitted, folder, other, pending, gone) && n in pending
    ensures MergingSmall(result, submitted, folder, other, pending - {n}, gone')
  {
    SmallGoneNext(submitted, folder, other, pending, gone, n);
    result, gone' := MergeIfSmall(before, submitted, other, n, folder, gone);
  }

  // ---------------------------------------------------------------- at most eight

  function RankAtMost(result: Groups): (Name, Name) -> bool {
    (m: Name, n: Name) =>
      var a, b := |Listed(result, m)|, |Listed(result, n)|;
      a > b || (a == b && AtMost(m, n))
  }

  lemma RankOrdering(result: Groups)
    ensures Ordering(RankAtMost(result))
  {
    forall m: Name, n: Name, k: Name ensures
      (AtMost(m, n) || AtMost(n, m)) && (AtMost(m, n) && AtMost(n, k) ==> AtMost(m, k))
    {
      AtMostOrder(m, n, k);
    }
  }

  lemma ValuesMerged(folder: map<Uuid, Name>, kept: set<Name>, other: Name, n: Name)
    requires n in Merged(folder, folder.Values - kept, other).Values && n != other
    ensures n in kept
  {
    var merged := Merged(folder, folder.Values - kept, other);
    var u :| u in merged && merged[u] == n;
    assert folder[u] in folder.Values;
  }

  /** After the first merging loop the folders listed, the fallback aside, are the sound ones. */
  lemma SoundAreListed(result: Groups, submitted: seq<Uuid>, folder: map<Uuid, Name>, other: Name)
    requires Partitions(result, submitted, Merged(folder, folder.Values - Sound(submitted, folder, other), other))
    ensures result.Keys - {other} == Sound(submitted, folder, other)
  {
    var sound := Sound(submitted, folder, other);
    forall n | n in result.Keys - {other} ensures n in sound {
      ValuesMerged(folder, sound, other, n);
    }
    forall n | n in sound ensures n in result {
      StillListed(result, submitted, folder, folder.Values - sound, other, n);
    }
  }

  /** A ranked list of the sound folders, each once. */
  ghost predicate Ranked(list: seq<Name>, submitted: seq<Uuid>, folder: map<Uuid, Name>, sound: set<Name>) {
    && (set n | n in list) == sound
    && (forall i, j :: 0 <= i < j < |list| ==> list[i] != list[j])
    && (forall i, j :: 0 <= i < j < |list| ==> Before(submitted, folder, list[i], list[j]))
  }

  lemma ListingDistinct(list: seq<Name>, s: set<Name>)
    requires multiset(list) == multiset(s)
    ensures (set n | n in list) == s && forall i, j :: 0 <= i < j < |list| ==> list[i] != list[j]
  {
    forall i, j | 0 <= i < j < |list| ensures list[i] != list[j] {
      assert list == list[..i] + [list[i]] + list[i + 1..j] + [list[j]] + list[j + 1..];
      assert multiset(list)[list[i]] >= if list[i] == list[j] then 2 else 1;
      assert multiset(s)[list[i]] <= 1;
    }
    forall n ensures n in list <==> n in s {
      assert n in list <==> n in multiset(list);
      assert n in s <==> n in multiset(s);
    }
  }

  lemma SortedIsRanked(list: seq<Name>, result: Groups, submitted: seq<Uuid>, folder: map<Uuid, Name>, other: Name)
    requires Partitions(result, submitted, Merged(folder, folder.Values - Sound(submitted, folder, other), other))
    requires multiset(list) == multiset(Sound(submitted, folder, other)) && SortedBy(list, RankAtMost(result))
    ensures Ranked(list, submitted, folder, Sound(submitted, folder, other))
  {
    var sound := Sound(submitted, folder, other);
    ListingDistinct(list, sound);
    forall i, j | 0 <= i < j < |list| ensures Before(submitted, folder, list[i], list[j]) {
      assert list[i] in sound && list[j] in sound;
      UnmergedSize(result, submitted, folder, folder.Values - sound, other, list[i]);
      UnmergedSize(result, submitted, folder, folder.Values - sound, other, list[j]);
      assert RankAtMost(result)(list[i], list[j]);
    }
  }

  method RankFolders(result: Groups, submitted: seq<Uuid>, other: Name, ghost folder: map<Uuid, Name>)
    returns (list: seq<Name>)
    requires Partitions(result, submitted, Merged(folder, folder.Values - Sound(submitted, folder, other), other))
    ensures Ranked(list, submitted, folder, Sound(submitted, folder, other))
  {
    SoundAreListed(result, submitted, folder, other);
    var names := Listing(result.Keys - {other});
    RankOrdering(result);
    list := Sort(names, RankAtMost(result));
    SortedIsRanked(list, result, submitted, folder, other);
  }

  function FirstOf(list: seq<Name>, k: nat): set<Name> {
    set i | 0 <= i < |list| && i < k :: list[i]
  }

  lemma {:induction false} FirstOfSize(list: seq<Name>, k: nat)
    requires k <= |list| && forall i, j :: 0 <= i < j < |list| ==> list[i] != list[j]
    ensures |FirstOf(list, k)| == k
    decreases k
  {
    if k == 0 {
      assert FirstOf(list, 0) == {};
    } else {
      FirstOfSize(list, k - 1);
      assert FirstOf(list, k) == FirstOf(list, k - 1) + {list[k - 1]};
    }
  }

  /** The first seven of the ranking are what the specification keeps. */
  lemma FirstSevenKept(list: seq<Name>, submitted: seq<Uuid>, folder: map<Uuid, Name>, other: Name)
    requires Ranked(list, submitted, folder, Sound(submitted, folder, other))
    requires |Merged(folder, folder.Values - Sound(submitted, folder, other), other).Values| > MAX_FOLDERS
    ensures Kept(submitted, folder, other, FirstOf(list, MAX_FOLDERS - 1))
  {
    var sound, kept := Sound(submitted, folder, other), FirstOf(list, MAX_FOLDERS - 1);
    assert |list| >= MAX_FOLDERS - 1 by {
      SubsetSize(Merged(folder, folder.Values - sound, other).Values, sound + {other});
      FirstOfSize(list, |list|);
      assert FirstOf(list, |list|) == sound;
    }
    FirstOfSize(list, MAX_FOLDERS - 1);
    forall m, n | m in kept && n in sound - kept ensures Before(submitted, folder, m, n) {
      var i :| 0 <= i < |list| && i < MAX_FOLDERS - 1 && list[i] == m;
      var j :| 0 <= j < |list| && list[j] == n;
    }
  }

  /** What the second merging loop has emptied after `i` turns. */
  ghost function Dropped(list: seq<Name>, i: nat, sound: set<Name>, folder: map<Uuid, Name>): set<Name> {
    (folder.Values - sound) + (FirstOf(list, i) - FirstOf(list, MAX_FOLDERS - 1))
  }

  lemma DroppedNext(list: seq<Name>, i: nat, submitted: seq<Uuid>, sound: set<Name>, folder: map<Uuid, Name>)
    requires Ranked(list, submitted, folder, sound) && i < |list| && sound <= folder.Values
    ensures list[i] in sound && list[i] in folder.Values - Dropped(list, i, sound, folder)
    ensures Dropped(list, i + 1, sound, folder)
            == Dropped(list, i, sound, folder) + if list[i] in FirstOf(list, MAX_FOLDERS - 1) then {} else {list[i]}
  {
    assert FirstOf(list, i + 1) == FirstOf(list, i) + {list[i]};
    assert list[i] in sound && list[i] !in FirstOf(list, i);
  }

  lemma DroppedAll(list: seq<Name>, submitted: seq<Uuid>, sound: set<Name>, folder: map<Uuid, Name>)
    requires Ranked(list, submitted, folder, sound) && sound <= folder.Values
    ensures Dropped(list, |list|, sound, folder) == folder.Values - FirstOf(list, MAX_FOLDERS - 1)
  {
    assert FirstOf(list, |list|) == sound;
  }

  /** One turn of the second merging loop. */
  method MergeUnlessKept(before: Groups, submitted: seq<Uuid>, other: Name, n: Name, keep: set<Name>,
                         ghost folder: map<Uuid, Name>, ghost gone: set<Name>)
    returns (result: Groups)
    requires Partitions(before, submitted, Merged(folder, gone, other)) && n in folder.Values - gone && n != other
    ensures Partitions(result, submitted, Merged(folder, gone + if n in keep then {} else {n}, other))
  {
    result := before;
    if n in keep {
      assert gone + {} == gone;
    } else {
      StillListed(before, submitted, folder, gone, other, n);
      result := EmptyFolder(before, submitted, other, n, folder, gone);
    }
  }

  /** The loop that empties what did not make the first seven. */
  method MergeRest(before: Groups, submitted: seq<Uuid>, other: Name, list: seq<Name>, ghost folder: map<Uuid, Name>,
                   ghost sound: set<Name>)
    returns (result: Groups)
    requires sound <= folder.Values - {other}
    requires Partitions(before, submitted, Merged(folder, folder.Values - sound, other))
             && Ranked(list, submitted, folder, sound)
    ensures Partitions(result, submitted, Merged(folder, folder.Values - FirstOf(list, MAX_FOLDERS - 1), other))
  {
    var keep := FirstOf(list, MAX_FOLDERS - 1);
    result := before;
    ghost var gone := folder.Values - sound;
    assert gone == Dropped(list, 0, sound, folder);
    for i := 0 to |list|
      invariant gone == Dropped(list, i, sound, folder)
      invariant Partitions(result, submitted, Merged(folder, gone, other))
    {
      DroppedNext(list, i, submitted, sound, folder);
      result := MergeUnlessKept(result, submitted, other, list[i], keep, folder, gone);
      gone := gone + if list[i] in keep then {} else {list[i]};
    }
    DroppedAll(list, submitted, sound, folder);
  }

  /** The final loop: sort each folder's members. */
  method SortMembers(before: Groups) returns (result: Groups)
    ensures result.Keys == before.Keys
    ensures forall n :: n in result ==> SortedBy(result[n], AtMost) && multiset(result[n]) == multiset(before[n])
  {
    result := before;
    forall a: Uuid, b: Uuid, c: Uuid
      ensures (AtMost(a, b) || AtMost(b, a)) && (AtMost(a, b) && AtMost(b, c) ==> AtMost(a, c))
    {
      AtMostOrder(a, b, c);
    }
    var pending := before.Keys;
    while exists n :: n in pending
      invariant pending <= before.Keys && result.Keys == before.Keys
      invariant forall n :: n in result ==> multiset(result[n]) == multiset(before[n])
      invariant forall n :: n in result && n !in pending ==> SortedBy(result[n], AtMost)
      decreases pending
    {
      var n :| n in pending;
      result := result[n := Sort(result[n], AtMost)];
      pending := pending - {n};
    }
  }

  /** From the suggestion to the first partition. */
  method AssignFolders(groups: Groups, submitted: seq<Uuid>, w: Naming)
    returns (result: Groups, ghost speller: map<Name, Name>, ghost folder: map<Uuid, Name>)
    requires w.other != []
    ensures Assigned(groups, submitted, w, speller, folder) && Partitions(result, submitted, folder)
  {
    ghost var names, read;
    var assignments, duplicate;
    assignments, duplicate, speller, names, read := ReadSuggestion(groups, (set u | u in submitted), w);
    ghost var canonical :| Settled(groups.Keys, w, canonical, speller, names);
    ReadingAssigns(groups, submitted, w, assignments, duplicate, canonical, speller, names, read);
    folder := map u | u in submitted :: FolderOf(assignments, duplicate, w.other, u);
    result := Distribute(submitted, assignments, duplicate, w.other);
  }

  lemma AllSoundKept(submitted: seq<Uuid>, folder: map<Uuid, Name>, other: Name)
    requires |Merged(folder, folder.Values - Sound(submitted, folder, other), other).Values| <= MAX_FOLDERS
    ensures Kept(submitted, folder, other, Sound(submitted, folder, other))
  {
  }

  lemma ListedCount(result: Groups, submitted: seq<Uuid>, folder: map<Uuid, Name>)
    requires Partitions(result, submitted, folder)
    ensures |result| == |folder.Values|
  {
    assert |result| == |result.Keys|;
  }

  /** The case of more than eight folders. */
  method KeepLargest(before: Groups, submitted: seq<Uuid>, other: Name, ghost folder: map<Uuid, Name>)
    returns (result: Groups, ghost kept: set<Name>)
    requires Partitions(before, submitted, Merged(folder, folder.Values - Sound(submitted, folder, other), other))
    requires |Merged(folder, folder.Values - Sound(submitted, folder, other), other).Values| > MAX_FOLDERS
    ensures Kept(submitted, folder, other, kept)
            && Partitions(result, submitted, Merged(folder, folder.Values - kept, other))
  {
    var list := RankFolders(before, submitted, other, folder);
    result := MergeRest(before, submitted, other, list, folder, Sound(submitted, folder, other));
    kept := FirstOf(list, MAX_FOLDERS - 1);
    FirstSevenKept(list, submitted, folder, other);
  }

  /** From the first partition to at most eight folders. */
  method CapFolders(before: Groups, submitted: seq<Uuid>, other: Name, ghost folder: map<Uuid, Name>)
    returns (result: Groups, ghost kept: set<Name>)
    requires Partitions(before, submitted, folder)
    ensures Kept(submitted, folder, other, kept)
            && Partitions(result, submitted, Merged(folder, folder.Values - kept, other))
  {
    result := MergeSmall(before, submitted, other, folder);
    kept := Sound(submitted, folder, other);
    ListedCount(result, submitted, Merged(folder, folder.Values - kept, other));
    if |result| > MAX_FOLDERS {
      result, kept := KeepLargest(result, submitted, other, folder);
    } else {
      AllSoundKept(submitted, folder, other);
    }
  }

  /** The whole repair. */
  method Repair(groups: Groups, submitted: seq<Uuid>, w: Naming)
    returns (result: Groups, ghost speller: map<Name, Name>, ghost folder: map<Uuid, Name>, ghost kept: set<Name>)
    requires w.other != []
    ensures Assigned(groups, submitted, w, speller, folder) && IsRepair(submitted, w.other, folder, kept, result)
    ensures |result| <= 8
    ensures forall u :: u in submitted ==> exists n :: SitsIn(result, submitted, u, n)
  {
    result, speller, folder := AssignFolders(groups, submitted, w);
    result, kept := CapFolders(result, submitted, w.other, folder);
    result := SortMembers(result);
    assert IsRepair(submitted, w.other, folder, kept, result);
    RepairCaps(submitted, w.other, folder, kept, result);
    RepairConserves(submitted, w.other, folder, kept, result);
  }
}
