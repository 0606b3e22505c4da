/**
  Following and blocking statement by statement (handlers/graph.go, handlers/social.go). Neither
  handler runs in a transaction: a follow checks for blocks and inserts its row later; a block
  inserts its row and then deletes the follows, one direction at a time. Everything else is taken
  from the atomic model, whose handlers are these moves in a row.
 */
module FeedRaces {
  import opened Common
  import opened Feed
  import Runs

  type Session = nat

  /** A follow past its check, with the approval rule it read. */
  datatype Request = Request(user: UserId, target: UserId, needsApproval: bool)

  /** `severing` are the deletions that blocks already inserted still have to make. */
  datatype Races = Races(graph: Graph, checked: map<Session, Request>, severing: map<Session, seq<Pair>>)

  datatype Move =
    | Whole(event: Event)
    | CheckFollow(session: Session, user: UserId, target: UserId)
    | InsertFollow(session: Session, now: int)
    | PutBlock(session: Session, user: UserId, target: UserId)
    | SeverNext(session: Session)

  predicate CanMove(x: Races, m: Move) {
    match m
    case Whole(_) => true
    case CheckFollow(s, u, t) => s !in x.checked && Enabled(x.graph, FollowUser(u, t, 0))
    case InsertFollow(s, _) => s in x.checked
    case PutBlock(s, u, t) => s !in x.severing && Enabled(x.graph, Relate(u, t, Block, true))
    case SeverNext(s) => s in x.severing && x.severing[s] != []
  }

  function Inserted(follows: map<Pair, Follow>, r: Request, now: int): map<Pair, Follow> {
    if (r.user, r.target) in follows then follows
    else follows[(r.user, r.target) := Follow(!r.needsApproval, now, if r.needsApproval then None else Some(now))]
  }

  function After(x: Races, m: Move): Races {
    if !CanMove(x, m) then x else
    match m
    case Whole(e) => x.(graph := Step(x.graph, e))
    case CheckFollow(s, u, t) => x.(checked := x.checked[s := Request(u, t, x.graph.profiles[t].needsApproval)])
    case InsertFollow(s, now) =>
      x.(graph := x.graph.(follows := Inserted(x.graph.follows, x.checked[s], now)), checked := x.checked - {s})
    case PutBlock(s, u, t) =>
      x.(graph := x.graph.(blocks := x.graph.blocks + {(u, t)}), severing := x.severing[s := [(u, t), (t, u)]])
    case SeverNext(s) =>
      x.(graph := x.graph.(follows := x.graph.follows - {x.severing[s][0]}),
         severing := if |x.severing[s]| == 1 then x.severing - {s} else x.severing[s := x.severing[s][1..]])
  }

  const START := Races(NOBODY, map[], map[])

  // ---------------------------------------------------------------- the handlers are these moves in a row

  lemma UndisturbedFollow(x: Races, s: Session, u: UserId, t: UserId, now: int)
    requires s !in x.checked
    ensures After(After(x, CheckFollow(s, u, t)), InsertFollow(s, now)) == After(x, Whole(FollowUser(u, t, now)))
  {
  }

  lemma UndisturbedBlock(x: Races, s: Session, u: UserId, t: UserId)
    requires s !in x.severing
    ensures After(After(After(x, PutBlock(s, u, t)), SeverNext(s)), SeverNext(s))
         == After(x, Whole(Relate(u, t, Block, true)))
  {
    if Enabled(x.graph, Relate(u, t, Block, true)) {
      var x2 := After(After(x, PutBlock(s, u, t)), SeverNext(s));
      assert x2.severing == x.severing[s := [(t, u)]];
      assert x.graph.follows - {(u, t)} - {(t, u)} == x.graph.follows - {(u, t), (t, u)};
    }
  }

  // ---------------------------------------------------------------- blocks sever follows, in the end

  ghost predicate Pending(x: Races, k: Pair) {
    exists s :: s in x.severing && k in x.severing[s]
  }

  /** A follow across a block is waiting for its deletion. */
  ghost predicate Awaiting(x: Races) {
    forall k :: k in x.graph.follows && BlockedEither(x.graph, k.0, k.1) ==> Pending(x, k)
  }

  /** An insert whose check precedes a block that has already deleted what it found. */
  ghost predicate Late(x: Races, m: Move) {
    && m.InsertFollow? && m.session in x.checked
    && (x.checked[m.session].user, x.checked[m.session].target) !in x.graph.follows
    && BlockedEither(x.graph, x.checked[m.session].user, x.checked[m.session].target)
    && !Pending(x, (x.checked[m.session].user, x.checked[m.session].target))
  }

  lemma LateBreaks(x: Races, m: Move)
    requires Late(x, m)
    ensures !Awaiting(After(x, m))
  {
    var k := (x.checked[m.session].user, x.checked[m.session].target);
    assert k in After(x, m).graph.follows && !Pending(After(x, m), k);
  }

  lemma StillPending(x: Races, m: Move, k: Pair)
    requires Pending(x, k) && k in After(x, m).graph.follows
    ensures Pending(After(x, m), k)
  {
    var s :| s in x.severing && k in x.severing[s];
    if m.SeverNext? && m.session == s {
      assert k in x.severing[s][1..];
    }
    assert s in After(x, m).severing && k in After(x, m).severing[s];
  }

  lemma OtherwiseAwaitingAt(x: Races, m: Move, k: Pair)
    requires Awaiting(x) && !Late(x, m)
    requires k in After(x, m).graph.follows && BlockedEither(After(x, m).graph, k.0, k.1)
    ensures Pending(After(x, m), k)
  {
    if m.Whole? {
      NoNewCrossing(x.graph, m.event, k);
      StillPending(x, m, k);
    } else if k in x.graph.follows && BlockedEither(x.graph, k.0, k.1) {
      StillPending(x, m, k);
    } else if m.PutBlock? {
      assert m.session in After(x, m).severing && k in After(x, m).severing[m.session];
    } else {
      StillPending(x, m, k);
    }
  }

  lemma OtherwiseAwaiting(x: Races, m: Move)
    requires Awaiting(x) && !Late(x, m)
    ensures Awaiting(After(x, m))
  {
    var x' := After(x, m);
    forall k | k in x'.graph.follows && BlockedEither(x'.graph, k.0, k.1) ensures Pending(x', k) {
      OtherwiseAwaitingAt(x, m, k);
    }
  }

  /**
    Main result: throughout a run every follow across a block is waiting for its deletion, if and
    only if no insert comes after the deletions of a block its check did not see.
   */
  lemma AwaitingIff(moves: seq<Move>)
    ensures Runs.AlwaysGood(After, x => Awaiting(x), START, moves)
       <==> Runs.NeverBad(After, (x, m) => Late(x, m), START, moves)
  {
    forall x, m | Awaiting(x) ensures Awaiting(After(x, m)) <==> !Late(x, m) {
      if Late(x, m) {
        LateBreaks(x, m);
      } else {
        OtherwiseAwaiting(x, m);
      }
    }
    Runs.AlwaysGoodIff(After, x => true, x => Awaiting(x), (x, m) => Late(x, m), START, moves);
  }

  /** Main result: on such a run, whenever no block is midway, the feed needs no block filter. */
  lemma FeedsAgreeOnTime(moves: seq<Move>, viewer: UserId, before: Option<int>)
    requires Runs.NeverBad(After, (x, m) => Late(x, m), START, moves)
    ensures var x := Runs.Fold(After, START, moves);
            x.severing == map[] ==> FeedRows(x.graph, viewer, before) == FilteredRows(x.graph, viewer, before)
  {
    AwaitingIff(moves);
    assert moves[..|moves|] == moves;
    var x := Runs.Fold(After, START, moves);
    assert Awaiting(x);
    if x.severing == map[] {
      FilterIsRedundant(x.graph, viewer, before);
    }
  }

  /** For one pair it is enough that no block between the two is midway. */
  lemma HiddenOnceSevered(x: Races, a: UserId, b: UserId, before: Option<int>, e: Entry)
    requires Awaiting(x) && BlockedEither(x.graph, a, b) && !Pending(x, (a, b))
    requires e in FeedRows(x.graph, a, before)
    ensures b !in Named(x.graph, e)
  {
    assert (a, b) !in x.graph.follows;
  }

  /** Two joined users without anything between them. */
  predicate Strangers(g: Graph, u: UserId, t: UserId) {
    && u != t && u in g.profiles && t in g.profiles && u in g.users && t in g.users
    && !BlockedEither(g, u, t) && !g.profiles[t].needsApproval && (u, t) !in g.mutes
  }

  lemma LateFollowInserted(x: Races, s: Session, u: UserId, t: UserId, now: int) returns (g: Graph)
    requires s !in x.checked && s !in x.severing && Strangers(x.graph, u, t)
    ensures var x1 := After(x, CheckFollow(s, u, t));
            var x4 := After(After(After(x1, PutBlock(s, t, u)), SeverNext(s)), SeverNext(s));
            g == After(x4, InsertFollow(s, now)).graph
    ensures g.profiles == x.graph.profiles && g.mutes == x.graph.mutes && (t, u) in g.blocks && Follows(g, u, t)
  {
    var x1 := After(x, CheckFollow(s, u, t));
    UndisturbedBlock(x1, s, t, u);
    var x4 := After(After(After(x1, PutBlock(s, t, u)), SeverNext(s)), SeverNext(s));
    assert x4.graph == Related(x.graph, t, u, Block, true) && x4.checked == x1.checked;
    g := After(x4, InsertFollow(s, now)).graph;
  }

  /** The failing case is real: from any state with two strangers, a user shows up in the feed of one they block. */
  lemma LateFollowShows(x: Races, s: Session, u: UserId, t: UserId, now: int)
    requires s !in x.checked && s !in x.severing && Strangers(x.graph, u, t)
    ensures var x1 := After(x, CheckFollow(s, u, t));
            var x4 := After(After(After(x1, PutBlock(s, t, u)), SeverNext(s)), SeverNext(s));
            var g := After(x4, InsertFollow(s, now)).graph;
            (t, u) in g.blocks && Arrival(t) in FeedRows(g, u, None) && Arrival(t) !in FilteredRows(g, u, None)
  {
    var g := LateFollowInserted(x, s, u, t, now);
    assert t in Named(g, Arrival(t));
  }
}
