/**
  What each handler of the follow graph does, and what a feed shows, stated on the rows alone
  (handlers/graph.go, handlers/social.go, GetFeedItems in db/queries.sql.go).
 */
module FeedOutcomes {
  import opened Common
  import opened Feed

  // ---------------------------------------------------------------- the handlers

  /**
    A follow needs two profiles and no block; it starts active unless the target asks to approve,
    and a row that is there stays.
   */
  lemma FollowOutcome(g: Graph, u: UserId, t: UserId, now: int)
    ensures var g' := Step(g, FollowUser(u, t, now));
            if && u in g.profiles && t in g.profiles && u != t
               && (u, t) !in g.blocks && (t, u) !in g.blocks && (u, t) !in g.follows
            then
              var row := if g.profiles[t].needsApproval then Follow(false, now, None) else Follow(true, now, Some(now));
              g' == g.(follows := g.follows[(u, t) := row])
            else g' == g
  {
  }

  lemma UnfollowOutcome(g: Graph, u: UserId, t: UserId)
    ensures Step(g, Unfollow(u, t))
         == if u in g.profiles && t in g.profiles then g.(follows := g.follows - {(u, t)}) else g
  {
  }

  /** The followee activates a pending request or deletes the follow; an active one is not touched by accepting. */
  lemma AnswerOutcome(g: Graph, u: UserId, r: UserId, accept: bool, now: int)
    ensures var g', k := Step(g, Answer(u, r, accept, now)), (r, u);
            && (!(u in g.profiles && r in g.profiles) ==> g' == g)
            && (u in g.profiles && r in g.profiles && !accept ==> g' == g.(follows := g.follows - {k}))
            && (u in g.profiles && r in g.profiles && accept && k in g.follows && !g.follows[k].active ==>
                  g' == g.(follows := g.follows[k := Follow(true, g.follows[k].createdAt, Some(now))]))
            && (accept && !(k in g.follows && !g.follows[k].active) ==> g' == g)
  {
  }

  /** Blocking and muting need two accounts; a block also deletes the follows in both directions. */
  lemma RelateOutcome(g: Graph, u: UserId, t: UserId)
    ensures !(u in g.users && t in g.users && u != t) ==>
              forall kind, add :: Step(g, Relate(u, t, kind, add)) == g
    ensures u in g.users && t in g.users && u != t ==>
              && Step(g, Relate(u, t, Block, true))
                 == g.(blocks := g.blocks + {(u, t)}, follows := g.follows - {(u, t)} - {(t, u)})
              && Step(g, Relate(u, t, Block, false)) == g.(blocks := g.blocks - {(u, t)})
              && Step(g, Relate(u, t, Mute, true)) == g.(mutes := g.mutes + {(u, t)})
              && Step(g, Relate(u, t, Mute, false)) == g.(mutes := g.mutes - {(u, t)})
  {
    assert g.follows - {(u, t)} - {(t, u)} == g.follows - {(u, t), (t, u)};
  }

  /** Profiles: joining starts with everything private and no approval, updating keeps the time of joining. */
  lemma ProfileOutcome(g: Graph, u: UserId, now: int, needs: bool, shows: int, history: int, stats: int)
    ensures Step(g, Register(u)) == g.(users := g.users + {u})
    ensures forall content :: Step(g, Publish(content)) == g.(content := content)
    ensures u in g.users && u !in g.profiles ==>
              Step(g, JoinSocial(u, now)) == g.(profiles := g.profiles[u := Profile(now, false, 1, 1, 1)])
    ensures u !in g.users || u in g.profiles ==> Step(g, JoinSocial(u, now)) == g
    ensures Step(g, UpdateProfile(u, needs, shows, history, stats))
         == if u in g.profiles
            then g.(profiles := g.profiles[u := Profile(g.profiles[u].createdAt, needs, shows, history, stats)])
            else g
  {
  }

  /** After an erasure nothing of the user is left in the graph, and nothing else is gone. */
  lemma EraseOutcome(g: Graph, u: UserId, k: Pair)
    requires u in g.users
    ensures var g' := Step(g, Erase(u));
            && g'.users == g.users && g'.content == g.content && g'.profiles == g.profiles - {u}
            && (k in g'.follows <==> k in g.follows && k.0 != u && k.1 != u)
            && (k in g'.follows ==> g'.follows[k] == g.follows[k])
            && (k in g'.blocks <==> k in g.blocks && k.0 != u && k.1 != u)
            && (k in g'.mutes <==> k in g.mutes && k.0 != u && k.1 != u)
    ensures Step(g, DeleteAccount(u)) == Step(g, Erase(u)).(users := g.users - {u})
    ensures u !in g.users ==> Step(g, Erase(u)) == g && Step(g, DeleteAccount(u)) == g
  {
  }

  // ---------------------------------------------------------------- what a feed shows

  /** The viewer follows them, approved where asked for, has not muted them, and they have a profile. */
  predicate Watches(g: Graph, viewer: UserId, u: UserId) {
    && (viewer, u) in g.follows && g.follows[(viewer, u)].active && (viewer, u) !in g.mutes && u in g.profiles
  }

  /** Public or for followers. */
  predicate Open(visibility: int) {
    visibility in {2, 3}
  }

  /** What of somebody's doings their settings let followers see. */
  predicate MayShow(p: Profile, c: Content) {
    && (c.Subscription? ==> c.live && c.added.Some? && Open(p.shows))
    && (c.Playing? ==> c.status == 3 && 0 < c.modifiedMs && Open(p.history))
    && (c.Reaction? ==> Open(p.history))
    && (c.Comment? ==> !c.reply && !c.removed)
    && (c.List? ==> Open(c.visibility))
    && (c.GroupSeat? ==> c.publicGroup && c.role in {1, 2})
    && (c.Milestone? ==> Open(p.stats))
  }

  /** Main result: exactly what is in a feed before it is cut into pages. */
  lemma ShownIff(g: Graph, viewer: UserId, u: UserId, k: Pair, r: RowId)
    ensures Arrival(u) in FeedRows(g, viewer, None) <==> Watches(g, viewer, u)
    ensures NewFollow(k) in FeedRows(g, viewer, None) <==>
              && Watches(g, viewer, k.0) && k in g.follows && g.follows[k].active && k.1 in g.profiles
              && (viewer, k.1) !in g.blocks && (k.1, viewer) !in g.blocks
    ensures Posted(r) in FeedRows(g, viewer, None) <==>
              && r in g.content && Watches(g, viewer, g.content[r].owner)
              && MayShow(g.profiles[g.content[r].owner], g.content[r])
  {
  }

  /** Whom an entry names, and the time and the kind of every entry. */
  lemma EntryFacts(g: Graph, u: UserId, k: Pair, r: RowId)
    ensures Named(g, Arrival(u)) == {u} && Named(g, NewFollow(k)) == {k.0, k.1}
    ensures r in g.content ==> Named(g, Posted(r)) == {g.content[r].owner}
    ensures u in g.profiles ==> At(g, Arrival(u)) == g.profiles[u].createdAt && Kind(g, Arrival(u)) == 1
    ensures k in g.follows ==>
              && Kind(g, NewFollow(k)) == 2 && Actor(g, NewFollow(k)) == k.0 && Actor(g, Arrival(u)) == u
              && (g.follows[k].approvedAt.None? ==> At(g, NewFollow(k)) == g.follows[k].createdAt)
              && (g.follows[k].approvedAt.Some? ==> At(g, NewFollow(k)) == g.follows[k].approvedAt.value)
    ensures r in g.content ==>
              var c, at, kind := g.content[r], At(g, Posted(r)), Kind(g, Posted(r));
              && Actor(g, Posted(r)) == c.owner
              && (c.Subscription? && c.added.Some? ==> kind == 3 && at == c.added.value)
              && (c.Playing? ==> kind == 4 && at == c.modifiedMs * 1000)
              && (c.Review? ==> kind == 5 && at == c.updated)
              && (c.Reaction? ==> kind == 6 && at == c.created)
              && (c.Comment? ==> kind == 7 && at == c.created)
              && (c.List? ==> kind == 8 && at == c.created)
              && (c.GroupSeat? ==> kind == 9 && at == c.created)
              && (c.Milestone? ==> kind == 10 && at == c.crossed)
  {
  }

  /** A cursor cuts off everything from its own millisecond on. */
  lemma CursorCuts(g: Graph, viewer: UserId, before: int, e: Entry)
    ensures e in FeedRows(g, viewer, Some(before)) <==> e in FeedRows(g, viewer, None) && At(g, e) < 1000 * before
  {
  }

  /** Main result: a page holds the newest entries, newest first, and by actor and kind where times are equal. */
  lemma PageIsNewest(g: Graph, rows: set<Entry>, limit: nat, page: seq<Entry>, i: nat, j: nat)
    requires IsPage(g, rows, limit, page) && i < j < |page|
    ensures page[i] != page[j] && page[i] in rows && At(g, page[i]) >= At(g, page[j])
    ensures At(g, page[i]) == At(g, page[j]) ==> Actor(g, page[i]) <= Actor(g, page[j])
    ensures At(g, page[i]) == At(g, page[j]) && Actor(g, page[i]) == Actor(g, page[j]) ==>
              Kind(g, page[i]) <= Kind(g, page[j])
    ensures forall e :: e in rows && e !in page ==> At(g, e) <= At(g, page[j])
    ensures |page| <= limit && (|page| < limit ==> forall e :: e in rows ==> e in page)
  {
    if |page| < limit {
      PageIsAll(g, rows, limit, page);
    }
  }

  lemma PageIsAll(g: Graph, rows: set<Entry>, limit: nat, page: seq<Entry>)
    requires IsPage(g, rows, limit, page) && |page| < limit
    ensures forall e :: e in rows ==> e in page
  {
    var listed := set e | e in page;
    DistinctSize(page, listed);
    SubsetSize(listed, rows);
  }

  lemma {:induction false} DistinctSize(page: seq<Entry>, listed: set<Entry>)
    requires listed == (set e | e in page) && forall i, j :: 0 <= i < j < |page| ==> page[i] != page[j]
    ensures |listed| == |page|
    decreases |page|
  {
    if page != [] {
      var rest := page[1..];
      DistinctSize(rest, set e | e in rest);
      assert listed == {page[0]} + (set e | e in rest);
      assert forall i :: 0 <= i < |rest| ==> rest[i] == page[i + 1];
    }
  }
}
