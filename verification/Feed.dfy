/**
  The follow graph, blocks and mutes, and the activity feed read from them (handlers/graph.go,
  setRelationship in handlers/social.go, GetFeedItems in db/queries.sql.go). The feed query does
  not ask whether the viewer and an actor block each other: it relies on blocks cutting follows.
  Handles are already resolved to users; times are microseconds.
 */
module Feed {
  import opened Common
  import opened Sorting

  type UserId = int
  type RowId = int
  type Pair = (UserId, UserId)

  /** Stored visibilities: 2 and 3 are the ones a follower may see. */
  datatype Profile = Profile(createdAt: int, needsApproval: bool, shows: int, history: int, stats: int)
  datatype Follow = Follow(active: bool, createdAt: int, approvedAt: Option<int>)

  /** What the other tables hold and the feed derives items from. */
  datatype Content =
    | Subscription(owner: UserId, live: bool, added: Option<int>)
    | Playing(owner: UserId, status: int, modifiedMs: int)
    | Review(owner: UserId, updated: int)
    | Reaction(owner: UserId, created: int)
    | Comment(owner: UserId, reply: bool, removed: bool, created: int)
    | List(owner: UserId, visibility: int, created: int)
    | GroupSeat(owner: UserId, publicGroup: bool, role: int, created: int)
    | Milestone(owner: UserId, crossed: int)

  datatype Graph = Graph(
    users: set<UserId>,
    profiles: map<UserId, Profile>,
    follows: map<Pair, Follow>,
    blocks: set<Pair>,
    mutes: set<Pair>,
    content: map<RowId, Content>)

  datatype Relation = Block | Mute

  datatype Event =
    | Register(user: UserId)
    | DeleteAccount(user: UserId)
    | JoinSocial(user: UserId, now: int)
    | UpdateProfile(user: UserId, needsApproval: bool, shows: int, history: int, stats: int)
    | FollowUser(user: UserId, target: UserId, now: int)
    | Unfollow(user: UserId, target: UserId)
    | Answer(user: UserId, requester: UserId, accept: bool, now: int)
    | Relate(user: UserId, target: UserId, kind: Relation, add: bool)
    | Erase(user: UserId)
    | Publish(content: map<RowId, Content>)

  const NOBODY := Graph({}, map[], map[], {}, {}, map[])

  // ---------------------------------------------------------------- the handlers

  predicate BlockedEither(g: Graph, a: UserId, b: UserId) {
    (a, b) in g.blocks || (b, a) in g.blocks
  }

  predicate Enabled(g: Graph, e: Event) {
    match e
    case Register(_) => true
    case DeleteAccount(u) => u in g.users
    case JoinSocial(u, _) => u in g.users && u !in g.profiles
    case UpdateProfile(u, _, _, _, _) => u in g.profiles
    case FollowUser(u, t, _) => u in g.profiles && t in g.profiles && t != u && !BlockedEither(g, u, t)
    case Unfollow(u, t) => u in g.profiles && t in g.profiles
    case Answer(u, r, _, _) => u in g.profiles && r in g.profiles
    case Relate(u, t, _, _) => u in g.users && t in g.users && t != u
    case Erase(u) => u in g.users
    case Publish(_) => true
  }

  predicate Touches(k: Pair, u: UserId) {
    k.0 == u || k.1 == u
  }

  /**
    The profile, both sides of the follow graph and every block and mute edge go. The rows of other
    tables that go with them are a change of content.
   */
  function Erased(g: Graph, u: UserId): Graph {
    g.(profiles := g.profiles - {u},
       follows := map k | k in g.follows && !Touches(k, u) :: g.follows[k],
       blocks := (set k | k in g.blocks && !Touches(k, u)),
       mutes := (set k | k in g.mutes && !Touches(k, u)))
  }

  /** A row that is already there wins over a repeated request. */
  function Followed(g: Graph, u: UserId, t: UserId, now: int): map<Pair, Follow>
    requires t in g.profiles
  {
    if (u, t) in g.follows then g.follows
    else if g.profiles[t].needsApproval then g.follows[(u, t) := Follow(false, now, None)]
    else g.follows[(u, t) := Follow(true, now, Some(now))]
  }

  function Answered(follows: map<Pair, Follow>, k: Pair, accept: bool, now: int): map<Pair, Follow> {
    if !accept then follows - {k}
    else if k in follows && !follows[k].active then follows[k := follows[k].(active := true, approvedAt := Some(now))]
    else follows
  }

  function Related(g: Graph, u: UserId, t: UserId, kind: Relation, add: bool): Graph {
    match kind
    case Block =>
      if add then g.(blocks := g.blocks + {(u, t)}, follows := g.follows - {(u, t), (t, u)})
      else g.(blocks := g.blocks - {(u, t)})
    case Mute => g.(mutes := if add then g.mutes + {(u, t)} else g.mutes - {(u, t)})
  }

  function Step(g: Graph, e: Event): Graph {
    if !Enabled(g, e) then g else
    match e
    case Register(u) => g.(users := g.users + {u})
    case DeleteAccount(u) => Erased(g, u).(users := g.users - {u})
    case JoinSocial(u, now) => g.(profiles := g.profiles[u := Profile(now, false, 1, 1, 1)])
    case UpdateProfile(u, needs, shows, history, stats) =>
      g.(profiles := g.profiles[u := Profile(g.profiles[u].createdAt, needs, shows, history, stats)])
    case FollowUser(u, t, now) => g.(follows := Followed(g, u, t, now))
    case Unfollow(u, t) => g.(follows := g.follows - {(u, t)})
    case Answer(u, r, accept, now) => g.(follows := Answered(g.follows, (r, u), accept, now))
    case Relate(u, t, kind, add) => Related(g, u, t, kind, add)
    case Erase(u) => Erased(g, u)
    case Publish(content) => g.(content := content)
  }

  function Run(g: Graph, events: seq<Event>): Graph
    decreases |events|
  {
    if events == [] then g else Run(Step(g, events[0]), events[1..])
  }

  // ---------------------------------------------------------------- blocks sever follows

  /** No follow, pending or active, runs between two users either of whom blocks the other. */
  ghost predicate Severed(g: Graph) {
    forall k :: k in g.follows ==> !BlockedEither(g, k.0, k.1)
  }

  /** Follows join two different profiles, and profiles belong to accounts. */
  ghost predicate Joined(g: Graph) {
    && (forall k :: k in g.follows ==> k.0 in g.profiles && k.1 in g.profiles && k.0 != k.1)
    && (forall u :: u in g.profiles ==> u in g.users)
  }

  ghost predicate Good(g: Graph) {
    Severed(g) && Joined(g)
  }

  /** No event brings about a follow across a block. */
  lemma NoNewCrossing(g: Graph, e: Event, k: Pair)
    requires k in Step(g, e).follows && BlockedEither(Step(g, e), k.0, k.1)
    ensures k in g.follows && BlockedEither(g, k.0, k.1)
  {
  }

  lemma StepKeepsJoined(g: Graph, e: Event)
    requires Joined(g)
    ensures Joined(Step(g, e))
  {
  }

  lemma StepKeepsGood(g: Graph, e: Event)
    requires Good(g)
    ensures Good(Step(g, e))
  {
    forall k | k in Step(g, e).follows ensures !BlockedEither(Step(g, e), k.0, k.1) {
      if BlockedEither(Step(g, e), k.0, k.1) {
        NoNewCrossing(g, e, k);
      }
    }
    StepKeepsJoined(g, e);
  }

  /** Main result: no reachable state holds a block and a follow between the same two users. */
  lemma {:induction false} RunKeepsGood(g: Graph, events: seq<Event>)
    requires Good(g)
    ensures Good(Run(g, events))
    decreases |events|
  {
    if events != [] {
      StepKeepsGood(g, events[0]);
      RunKeepsGood(Step(g, events[0]), events[1..]);
    }
  }

  predicate LiftsBlock(e: Event, a: UserId, b: UserId) {
    e == Relate(a, b, Block, false) || e == Erase(a) || e == Erase(b) || e == DeleteAccount(a) || e == DeleteAccount(b)
  }

  /** A block stands until the blocker lifts it or one of the two is erased. */
  lemma {:induction false} BlockStands(g: Graph, events: seq<Event>, a: UserId, b: UserId)
    requires (a, b) in g.blocks && forall e :: e in events ==> !LiftsBlock(e, a, b)
    ensures (a, b) in Run(g, events).blocks
    decreases |events|
  {
    if events != [] {
      assert !LiftsBlock(events[0], a, b);
      BlockStands(Step(g, events[0]), events[1..], a, b);
    }
  }

  predicate Follows(g: Graph, a: UserId, b: UserId) {
    (a, b) in g.follows && g.follows[(a, b)].active
  }

  /** While `b` asks to approve followers. */
  predicate Guarded(g: Graph, b: UserId) {
    b in g.profiles ==> g.profiles[b].needsApproval
  }

  predicate Accepts(e: Event, b: UserId, a: UserId) {
    e.Answer? && e.user == b && e.requester == a && e.accept
  }

  lemma PrefixRun(g: Graph, events: seq<Event>, i: nat)
    requires i < |events|
    ensures Run(g, events[..i + 1]) == Run(Step(g, events[0]), events[1..][..i])
  {
    assert events[..i + 1][1..] == events[1..][..i];
  }

  /** While followers need approval, a follow becomes active only by the followee's own answer. */
  lemma {:induction false} ActiveOnlyByApproval(g: Graph, events: seq<Event>, a: UserId, b: UserId)
    requires !Follows(g, a, b)
    requires forall i :: 0 <= i < |events| ==> Guarded(Run(g, events[..i]), b) && !Accepts(events[i], b, a)
    ensures !Follows(Run(g, events), a, b)
    decreases |events|
  {
    if events != [] {
      var g', rest := Step(g, events[0]), events[1..];
      assert events[..0] == [];
      assert Guarded(Run(g, events[..0]), b) && !Accepts(events[0], b, a);
      forall i | 0 <= i < |rest| ensures Guarded(Run(g', rest[..i]), b) && !Accepts(rest[i], b, a) {
        PrefixRun(g, events, i);
        assert Guarded(Run(g, events[..i + 1]), b) && !Accepts(events[i + 1], b, a);
      }
      ActiveOnlyByApproval(g', rest, a, b);
    }
  }

  // ---------------------------------------------------------------- the feed

  /** A feed item, named by the row it comes from. */
  datatype Entry = Arrival(user: UserId) | NewFollow(pair: Pair) | Posted(row: RowId)

  /** The query's followees: active follows the viewer has not muted. */
  predicate Followee(g: Graph, viewer: UserId, u: UserId) {
    Follows(g, viewer, u) && (viewer, u) !in g.mutes
  }

  predicate Shared(visibility: int) {
    visibility == 2 || visibility == 3
  }

  /** The arms over the other tables. */
  predicate Shareable(p: Profile, c: Content) {
    match c
    case Subscription(_, live, added) => Shared(p.shows) && live && added.Some?
    case Playing(_, status, modified) => Shared(p.history) && status == 3 && modified > 0
    case Review(_, _) => true
    case Reaction(_, _) => Shared(p.history)
    case Comment(_, reply, removed, _) => !reply && !removed
    case List(_, visibility, _) => Shared(visibility)
    case GroupSeat(_, publicGroup, role, _) => publicGroup && (role == 1 || role == 2)
    case Milestone(_, _) => Shared(p.stats)
  }

  function Actor(g: Graph, e: Entry): UserId {
    match e
    case Arrival(u) => u
    case NewFollow(k) => k.0
    case Posted(r) => if r in g.content then g.content[r].owner else 0
  }

  /** Everyone an entry names. */
  function Named(g: Graph, e: Entry): set<UserId> {
    {Actor(g, e)} + if e.NewFollow? then {e.pair.1} else {}
  }

  function Kind(g: Graph, e: Entry): int {
    match e
    case Arrival(_) => 1
    case NewFollow(_) => 2
    case Posted(r) =>
      if r !in g.content then 0 else
      match g.content[r]
      case Subscription(_, _, _) => 3
      case Playing(_, _, _) => 4
      case Review(_, _) => 5
      case Reaction(_, _) => 6
      case Comment(_, _, _, _) => 7
      case List(_, _, _) => 8
      case GroupSeat(_, _, _, _) => 9
      case Milestone(_, _) => 10
  }

  /** COALESCE. */
  function OrElse(o: Option<int>, otherwise: int): int {
    if o.Some? then o.value else otherwise
  }

  function At(g: Graph, e: Entry): int {
    match e
    case Arrival(u) => if u in g.profiles then g.profiles[u].createdAt else 0
    case NewFollow(k) => if k in g.follows then OrElse(g.follows[k].approvedAt, g.follows[k].createdAt) else 0
    case Posted(r) =>
      if r !in g.content then 0 else
      match g.content[r]
      case Subscription(_, _, added) => OrElse(added, 0)
      case Playing(_, _, ms) => 1000 * ms
      case Review(_, t) => t
      case Reaction(_, t) => t
      case Comment(_, _, _, t) => t
      case List(_, _, t) => t
      case GroupSeat(_, _, _, t) => t
      case Milestone(_, t) => t
  }

  /** Which rows the query's arms pick. Only the second arm looks at blocks, of the target. */
  predicate Picked(g: Graph, viewer: UserId, e: Entry) {
    match e
    case Arrival(u) => Followee(g, viewer, u) && u in g.profiles
    case NewFollow(k) => Followee(g, viewer, k.0) && k.0 in g.profiles && Follows(g, k.0, k.1) && k.1 in g.profiles
                         && !BlockedEither(g, viewer, k.1)
    case Posted(r) => r in g.content && Followee(g, viewer, g.content[r].owner) && g.content[r].owner in g.profiles
                      && Shareable(g.profiles[g.content[r].owner], g.content[r])
  }

  /** The page cursor is in milliseconds and excludes its own millisecond. */
  predicate Older(g: Graph, e: Entry, before: Option<int>) {
    before.Some? ==> At(g, e) / 1000 < before.value
  }

  function AllEntries(g: Graph): set<Entry> {
    (set u | u in g.profiles :: Arrival(u)) + (set k | k in g.follows :: NewFollow(k))
      + (set r | r in g.content :: Posted(r))
  }

  function FeedRows(g: Graph, viewer: UserId, before: Option<int>): set<Entry> {
    set e | e in AllEntries(g) && Picked(g, viewer, e) && Older(g, e, before)
  }

  /** The query with a block filter, either way, on everyone an entry names. */
  function FilteredRows(g: Graph, viewer: UserId, before: Option<int>): set<Entry> {
    set e | e in FeedRows(g, viewer, before) && forall u :: u in Named(g, e) ==> !BlockedEither(g, viewer, u)
  }

  /** ORDER BY event_at DESC, actor_id, kind. */
  predicate Precedes(g: Graph, a: Entry, b: Entry) {
    || At(g, a) > At(g, b)
    || (At(g, a) == At(g, b) && (Actor(g, a) < Actor(g, b) || (Actor(g, a) == Actor(g, b) && Kind(g, a) <= Kind(g, b))))
  }

  /** A page: the first `limit` rows, each once, in an order the sort key allows. */
  ghost predicate IsPage(g: Graph, rows: set<Entry>, limit: nat, page: seq<Entry>) {
    && (forall i, j :: 0 <= i < j < |page| ==> page[i] != page[j] && Precedes(g, page[i], page[j]))
    && (forall e :: e in page ==> e in rows)
    && |page| == (if |rows| < limit then |rows| else limit)
    && (forall e, i :: e in rows && e !in page && 0 <= i < |page| ==> Precedes(g, page[i], e))
  }

  /** The viewer's blocks hide everything they should, although the query never asks about actors. */
  lemma FilterIsRedundant(g: Graph, viewer: UserId, before: Option<int>)
    requires Severed(g)
    ensures FeedRows(g, viewer, before) == FilteredRows(g, viewer, before)
  {
    forall e | e in FeedRows(g, viewer, before) ensures e in FilteredRows(g, viewer, before) {
      assert (viewer, Actor(g, e)) in g.follows;
      assert !BlockedEither(g, viewer, Actor(g, e));
    }
  }

  /** Without that invariant it would not: one stray follow shows a blocked user. */
  lemma FilterIsNeededOtherwise()
    ensures exists g, viewer :: Joined(g) && FeedRows(g, viewer, None) != FilteredRows(g, viewer, None)
  {
    var p := Profile(0, false, 1, 1, 1);
    var g := Graph({1, 2}, map[1 := p, 2 := p], map[(1, 2) := Follow(true, 0, Some(0))], {(2, 1)}, {}, map[]);
    assert Arrival(2) in FeedRows(g, 1, None);
    assert 2 in Named(g, Arrival(2)) && BlockedEither(g, 1, 2);
    assert Arrival(2) !in FilteredRows(g, 1, None);
    assert Joined(g);
  }

  /** Main result: in every run, for every viewer, cursor and limit, the two queries allow the same pages. */
  lemma FeedsAgree(events: seq<Event>, viewer: UserId, before: Option<int>, limit: nat, page: seq<Entry>)
    ensures var g := Run(NOBODY, events);
            IsPage(g, FeedRows(g, viewer, before), limit, page) <==>
                IsPage(g, FilteredRows(g, viewer, before), limit, page)
  {
    RunKeepsGood(NOBODY, events);
    FilterIsRedundant(Run(NOBODY, events), viewer, before);
  }

  /** Main result: once `a` blocks `b`, neither is named in the other's feed until the block is lifted. */
  lemma BlockHidesBoth(g: Graph, a: UserId, b: UserId, events: seq<Event>, before: Option<int>, e: Entry)
    requires Good(g) && Enabled(g, Relate(a, b, Block, true))
    requires forall x :: x in events ==> !LiftsBlock(x, a, b)
    ensures var later := Run(Step(g, Relate(a, b, Block, true)), events);
            && (a, b) !in later.follows && (b, a) !in later.follows
            && (e in FeedRows(later, a, before) ==> b !in Named(later, e))
            && (e in FeedRows(later, b, before) ==> a !in Named(later, e))
  {
    var blocked := Step(g, Relate(a, b, Block, true));
    var later := Run(blocked, events);
    StepKeepsGood(g, Relate(a, b, Block, true));
    RunKeepsGood(blocked, events);
    BlockStands(blocked, events, a, b);
    FilterIsRedundant(later, a, before);
    FilterIsRedundant(later, b, before);
    assert BlockedEither(later, a, b) && BlockedEither(later, b, a);
  }

  // ---------------------------------------------------------------- reading a page

  lemma PrecedesOrders(g: Graph)
    ensures Ordering((a: Entry, b: Entry) => Precedes(g, a, b))
  {
  }

  lemma FirstOfSorted(g: Graph, rows: set<Entry>, s: seq<Entry>, limit: nat)
    requires SortedBy(s, (a, b) => Precedes(g, a, b)) && multiset(s) == multiset(rows)
    ensures IsPage(g, rows, limit, if |s| < limit then s else s[..limit])
  {
    var page := if |s| < limit then s else s[..limit];
    assert |s| == |multiset(s)| == |multiset(rows)| == |rows|;
    forall i, j | 0 <= i < j < |page| ensures page[i] != page[j] && Precedes(g, page[i], page[j]) {
      Distinct(s, rows, i, j);
    }
    forall e | e in page ensures e in rows {
      assert e in multiset(s);
    }
    forall e, i | e in rows && e !in page && 0 <= i < |page| ensures Precedes(g, page[i], e) {
      assert e in multiset(s);
      var k :| 0 <= k < |s| && s[k] == e;
      assert k >= |page| by {
        assert forall m :: 0 <= m < |page| ==> page[m] == s[m] && page[m] in page;
      }
    }
  }

  lemma Distinct(s: seq<Entry>, rows: set<Entry>, i: nat, j: nat)
    requires i < j < |s| && multiset(s) == multiset(rows)
    ensures s[i] != s[j]
  {
    assert s == s[..j] + s[j..];
    assert multiset(s) == multiset(s[..j]) + multiset(s[j..]);
    assert s[i] in s[..j] && s[j] in s[j..];
    assert s[i] == s[j] ==> multiset(s)[s[i]] >= 2;
    assert multiset(rows)[s[i]] <= 1;
  }

  /** The rows in some order, each once. */
  method Scan(rows: set<Entry>) returns (found: seq<Entry>)
    ensures multiset(found) == multiset(rows)
  {
    found := [];
    var rest := rows;
    while exists e :: e in rest
      invariant rest <= rows && multiset(found) == multiset(rows - rest)
      decreases rest
    {
      var e :| e in rest;
      assert rows - (rest - {e}) == (rows - rest) + {e};
      found, rest := found + [e], rest - {e};
    }
    assert rows - rest == rows;
  }

  class GraphStore {
    var users: set<UserId>
    var profiles: map<UserId, Profile>
    var follows: map<Pair, Follow>
    var blocks: set<Pair>
    var mutes: set<Pair>
    var content: map<RowId, Content>

    constructor ()
      ensures View() == NOBODY
    {
      users, profiles, follows, blocks, mutes, content := {}, map[], map[], {}, {}, map[];
    }

    function View(): Graph
      reads this
    {
      Graph(users, profiles, follows, blocks, mutes, content)
    }

    /** PostFollow: false is a refusal, otherwise the stored state, which may predate this call. */
    method StartFollow(user: UserId, target: UserId, now: int) returns (ok: bool, active: bool)
      modifies this
      ensures View() == Step(old(View()), FollowUser(user, target, now))
      ensures ok <==> Enabled(old(View()), FollowUser(user, target, now))
      ensures ok ==> (user, target) in follows && active == follows[(user, target)].active
    {
      if user !in profiles || target !in profiles || target == user {
        return false, false;
      }
      if (user, target) in blocks || (target, user) in blocks {
        return false, false;
      }
      var pending := profiles[target].needsApproval;
      if (user, target) !in follows {
        follows := follows[(user, target) := Follow(!pending, now, if pending then None else Some(now))];
      }
      return true, follows[(user, target)].active;
    }

    method StopFollow(user: UserId, target: UserId) returns (ok: bool)
      modifies this
      ensures View() == Step(old(View()), Unfollow(user, target))
      ensures ok <==> Enabled(old(View()), Unfollow(user, target))
    {
      if user !in profiles || target !in profiles {
        return false;
      }
      follows := follows - {(user, target)};
      return true;
    }

    /** PostFollowApprove: `notify` on a real change from pending to active. */
    method Approve(user: UserId, requester: UserId, accept: bool, now: int) returns (ok: bool, notify: bool)
      modifies this
      ensures View() == Step(old(View()), Answer(user, requester, accept, now))
      ensures ok <==> Enabled(old(View()), Answer(user, requester, accept, now))
      ensures notify <==> !Follows(old(View()), requester, user) && Follows(View(), requester, user)
    {
      if user !in profiles || requester !in profiles {
        return false, false;
      }
      var k := (requester, user);
      notify := false;
      if accept {
        if k in follows && !follows[k].active {
          follows := follows[k := follows[k].(active := true, approvedAt := Some(now))];
          notify := true;
        }
      } else {
        follows := follows - {k};
      }
      return true, notify;
    }

    /** setRelationship: a block also deletes the follows, one direction at a time. */
    method SetRelationship(user: UserId, target: UserId, kind: Relation, add: bool) returns (ok: bool)
      modifies this
      ensures View() == Step(old(View()), Relate(user, target, kind, add))
      ensures ok <==> Enabled(old(View()), Relate(user, target, kind, add))
    {
      if user !in users || target !in users || target == user {
        return false;
      }
      if add {
        if kind == Block {
          blocks := blocks + {(user, target)};
          follows := follows - {(user, target)};
          follows := follows - {(target, user)};
          assert follows == old(follows) - {(user, target), (target, user)};
        } else {
          mutes := mutes + {(user, target)};
        }
      } else if kind == Block {
        blocks := blocks - {(user, target)};
      } else {
        mutes := mutes - {(user, target)};
      }
      return true;
    }

    method EraseUser(user: UserId)
      requires user in users
      modifies this
      ensures View() == Step(old(View()), Erase(user))
    {
      profiles := profiles - {user};
      follows := map k | k in follows && !Touches(k, user) :: follows[k];
      blocks := set k | k in blocks && !Touches(k, user);
      mutes := set k | k in mutes && !Touches(k, user);
    }

    /** PostFeed: refused without a profile; an absent or excessive limit becomes fifty. */
    method ReadFeed(viewer: UserId, limit: int, before: Option<int>) returns (page: Option<seq<Entry>>)
      ensures page.None? <==> viewer !in profiles
      ensures page.Some? ==>
                IsPage(View(), FeedRows(View(), viewer, before), if 0 < limit <= 50 then limit else 50, page.value)
      ensures page.Some? && Severed(View()) ==> forall e, u :: e in page.value && u in Named(View(), e) ==>
                !BlockedEither(View(), viewer, u)
    {
      if viewer !in profiles {
        return None;
      }
      var g := View();
      var size := if 0 < limit <= 50 then limit else 50;
      ghost var rows := FeedRows(g, viewer, before);
      var found := Scan(FeedRows(g, viewer, before));
      PrecedesOrders(g);
      var sorted := Sort(found, (a: Entry, b: Entry) => Precedes(g, a, b));
      FirstOfSorted(g, rows, sorted, size);
      if Severed(g) {
        FilterIsRedundant(g, viewer, before);
      }
      return Some(if |sorted| < size then sorted else sorted[..size]);
    }
  }
}
